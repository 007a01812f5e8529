/**
 * `try_load` and `try_unload`: the module globals `is_load_native_library`
 * and `native_handler` of the add-on's `interop` module, changed only when
 * the host lacks Blender's own `FileHandler` API and the user has accepted
 * the security notice. `LoadLibrary` and `FreeLibrary` are foreign calls:
 * their outcome is an input.
 */
module NativeLoader {
  import opened Outcomes

  /** The handle `LoadLibrary` returns. */
  type Handle = nat

  const LibraryFile := "blender-injection.dll"

  /** The module globals: the flag and, once a load succeeded, the library handle. */
  datatype LibState = LibState(loaded: bool, handler: Option<Handle>)

  /** Before any call: not loaded, `native_handler` unassigned. */
  const Initial := LibState(false, None)

  /** A handle is held whenever the flag says loaded. */
  predicate WellFormed(s: LibState)
  {
    s.loaded ==> s.handler.Some?
  }

  /** What the host sees when `try_load` runs. */
  datatype Host = Host(hasOfficialApi: bool, agreed: bool)

  /** The messages `log` prints. */
  datatype Message = AlreadyLoaded | LoadedWithConsent | NotAgreed | Unloaded | UnloadFailed

  /** A call the add-on makes outside Python: a native load or unload, or a log line. */
  datatype Effect = LoadLibrary(file: string) | FreeLibrary(handle: Handle) | Log(message: Message)

  /** `try_load` on state `s`; `loaded` is what `LoadLibrary` does: a handle, or `None` when it raises. */
  function LoadStep(s: LibState, host: Host, loaded: Option<Handle>): (next: (LibState, seq<Effect>))
    ensures host.hasOfficialApi ==> next == (s, [])
    ensures next.0.loaded <==> s.loaded || (!host.hasOfficialApi && host.agreed && loaded.Some?)
    ensures !s.loaded && next.0.loaded ==> next.0.handler == loaded
    ensures LoadLibrary(LibraryFile) in next.1 <==> !host.hasOfficialApi && host.agreed && !s.loaded
  {
    if host.hasOfficialApi then (s, [])
    else if !host.agreed then (s, [Log(NotAgreed)])
    else if s.loaded then (s, [Log(AlreadyLoaded)])
    else
      match loaded
      case Some(h) => (LibState(true, Some(h)), [LoadLibrary(LibraryFile), Log(LoadedWithConsent)])
      case None => (LibState(false, s.handler), [LoadLibrary(LibraryFile)])
  }

  /** `try_unload` on state `s`; `freed` says whether `FreeLibrary` returned instead of raising. */
  function UnloadStep(s: LibState, freed: bool): (next: (LibState, seq<Effect>))
    requires WellFormed(s)
    ensures next.0.loaded <==> s.loaded && !freed
    ensures next.0.handler == s.handler
    ensures (exists h :: FreeLibrary(h) in next.1) <==> s.loaded
  {
    if !s.loaded then (s, [])
    else if freed then (LibState(false, s.handler), [FreeLibrary(s.handler.value), Log(Unloaded)])
    else (s, [FreeLibrary(s.handler.value), Log(UnloadFailed)])
  }

  /** The events that reach the two functions: a load request (also sent when the user ticks the notice) or an unload. */
  datatype Request = TryLoad(host: Host, loaded: Option<Handle>) | TryUnload(freed: bool)

  function Apply(s: LibState, r: Request): (next: (LibState, seq<Effect>))
    requires WellFormed(s)
    ensures WellFormed(next.0)
  {
    match r
    case TryLoad(host, loaded) => LoadStep(s, host, loaded)
    case TryUnload(freed) => UnloadStep(s, freed)
  }

  /** The state after a sequence of requests, and every effect on the way. */
  function Run(s: LibState, rs: seq<Request>): (out: (LibState, seq<Effect>))
    requires WellFormed(s)
    ensures WellFormed(out.0)
    decreases |rs|
  {
    if rs == [] then (s, [])
    else
      var (mid, e) := Apply(s, rs[0]);
      var (last, e') := Run(mid, rs[1..]);
      (last, e + e')
  }

  // ---------------------------------------------------------------------------
  // One call.

  /**
   * With the official API, `try_load` does nothing at all; without consent it
   * only logs; while loaded it only logs, without a second `LoadLibrary`.
   */
  lemma LoadGating(s: LibState, host: Host, loaded: Option<Handle>)
    ensures host.hasOfficialApi ==> LoadStep(s, host, loaded) == (s, [])
    ensures !host.hasOfficialApi && !host.agreed ==> LoadStep(s, host, loaded) == (s, [Log(NotAgreed)])
    ensures !host.hasOfficialApi && host.agreed && s.loaded ==> LoadStep(s, host, loaded) == (s, [Log(AlreadyLoaded)])
    ensures LoadStep(s, host, loaded).0.loaded && !s.loaded ==> !host.hasOfficialApi && host.agreed && loaded.Some?
  {
  }

  /** An attempted load sets the flag exactly when `LoadLibrary` returned, and keeps its handle. */
  lemma LoadOutcome(s: LibState, host: Host, loaded: Option<Handle>)
    requires !host.hasOfficialApi && host.agreed && !s.loaded
    ensures LoadLibrary(LibraryFile) in LoadStep(s, host, loaded).1
    ensures LoadStep(s, host, loaded).0.loaded <==> loaded.Some?
    ensures loaded.Some? ==> LoadStep(s, host, loaded).0.handler == loaded
  {
  }

  /** `try_unload` does nothing when not loaded; otherwise the flag clears exactly when `FreeLibrary` returned. */
  lemma UnloadOutcome(s: LibState, freed: bool)
    requires WellFormed(s)
    ensures !s.loaded ==> UnloadStep(s, freed) == (s, [])
    ensures s.loaded ==> (UnloadStep(s, freed).0.loaded <==> !freed)
    ensures s.loaded ==> UnloadStep(s, freed).1[0] == FreeLibrary(s.handler.value)
  {
  }

  // ---------------------------------------------------------------------------
  // Many calls.

  /** A successful load counts 1, a successful unload -1, anything else 0. */
  function Weight(e: Effect): int
  {
    if e == Log(LoadedWithConsent) then 1 else if e == Log(Unloaded) then -1 else 0
  }

  /** How many loads succeeded minus how many unloads succeeded, read from the log lines. */
  function Balance(es: seq<Effect>): int
    decreases |es|
  {
    if es == [] then 0
    else
      Weight(es[0]) + Balance(es[1..])
  }

  lemma {:induction false} BalanceAppend(a: seq<Effect>, b: seq<Effect>)
    ensures Balance(a + b) == Balance(a) + Balance(b)
    decreases |a|
  {
    if a != [] {
      assert (a + b)[1..] == a[1..] + b;
      BalanceAppend(a[1..], b);
    } else {
      assert a + b == b;
    }
  }

  /**
   * Over a whole run, successful loads minus successful unloads equal the
   * change of the flag (`RunAlternates` states the count at every point).
   */
  lemma {:induction false} RunBalance(s: LibState, rs: seq<Request>)
    requires WellFormed(s)
    ensures Balance(Run(s, rs).1) == (if Run(s, rs).0.loaded then 1 else 0) - (if s.loaded then 1 else 0)
    decreases |rs|
  {
    if rs != [] {
      var (mid, e) := Apply(s, rs[0]);
      RunBalance(mid, rs[1..]);
      BalanceAppend(e, Run(mid, rs[1..]).1);
      ApplyBalance(s, rs[0]);
    }
  }

  /** One request moves the balance by exactly the change of the flag. */
  lemma ApplyBalance(s: LibState, r: Request)
    requires WellFormed(s)
    ensures Balance(Apply(s, r).1) == (if Apply(s, r).0.loaded then 1 else 0) - (if s.loaded then 1 else 0)
  {
    var e := Apply(s, r).1;
    if |e| == 2 {
      assert e[1..][1..] == [];
      assert Balance(e[1..]) == Weight(e[1]);
    } else if |e| == 1 {
      assert e[1..] == [];
      assert Balance(e) == Weight(e[0]);
    }
  }

  /**
   * Starting from count `start`, every prefix of the log `es` keeps the count
   * of successful loads minus successful unloads at 0 or 1.
   */
  ghost predicate Alternating(start: int, es: seq<Effect>)
  {
    forall j :: 0 <= j <= |es| ==> 0 <= start + Balance(es[..j]) <= 1
  }

  /** Within the effects of one request the count never leaves 0 or 1. */
  lemma ApplyAlternates(s: LibState, r: Request)
    requires WellFormed(s)
    ensures Alternating(if s.loaded then 1 else 0, Apply(s, r).1)
  {
    var e := Apply(s, r).1;
    var start := if s.loaded then 1 else 0;
    forall j | 0 <= j <= |e| ensures 0 <= start + Balance(e[..j]) <= 1 {
      if j == 0 {
        assert e[..j] == [];
      } else if j == |e| {
        assert e[..j] == e;
        ApplyBalance(s, r);
      } else {
        assert e[..j][1..] == [];
        assert Balance(e[..j]) == Weight(e[0]);
      }
    }
  }

  /**
   * Along any run, at every point of the log, successful loads and unloads
   * have alternated: no second load before an unload, no unload before a load.
   */
  lemma {:induction false} RunAlternates(s: LibState, rs: seq<Request>)
    requires WellFormed(s)
    ensures Alternating(if s.loaded then 1 else 0, Run(s, rs).1)
    decreases |rs|
  {
    var log := Run(s, rs).1;
    var start := if s.loaded then 1 else 0;
    if rs == [] {
      assert log[..0] == [];
    } else {
      var (mid, e) := Apply(s, rs[0]);
      var rest := Run(mid, rs[1..]).1;
      assert log == e + rest;
      ApplyAlternates(s, rs[0]);
      ApplyBalance(s, rs[0]);
      RunAlternates(mid, rs[1..]);
      forall j | 0 <= j <= |log| ensures 0 <= start + Balance(log[..j]) <= 1 {
        if j <= |e| {
          assert log[..j] == e[..j];
        } else {
          assert log[..j] == e + rest[..j - |e|];
          BalanceAppend(e, rest[..j - |e|]);
        }
      }
    }
  }

  /** A stretch of log with no successful unload never lowers the count. */
  lemma {:induction false} BalanceWithoutUnload(es: seq<Effect>)
    requires forall k :: 0 <= k < |es| ==> es[k] != Log(Unloaded)
    ensures Balance(es) >= 0
    decreases |es|
  {
    if es != [] {
      assert forall k :: 0 <= k < |es[1..]| ==> es[1..][k] == es[k + 1];
      BalanceWithoutUnload(es[1..]);
    }
  }

  /** A stretch of log with no successful load never raises the count. */
  lemma {:induction false} BalanceWithoutLoad(es: seq<Effect>)
    requires forall k :: 0 <= k < |es| ==> es[k] != Log(LoadedWithConsent)
    ensures Balance(es) <= 0
    decreases |es|
  {
    if es != [] {
      assert forall k :: 0 <= k < |es[1..]| ==> es[1..][k] == es[k + 1];
      BalanceWithoutLoad(es[1..]);
    }
  }

  /** The count of a one-line log is that line's weight. */
  lemma BalanceSingle(e: Effect)
    ensures Balance([e]) == Weight(e)
  {
    assert [e][1..] == [];
  }

  /**
   * In a log that keeps the count at 0 or 1, two successful loads at `i` and
   * `j` have a successful unload between them, and two successful unloads a
   * successful load between them.
   */
  lemma AlternatingSeparates(start: int, es: seq<Effect>, i: int, j: int)
    requires Alternating(start, es) && 0 <= i < j < |es|
    ensures (forall k :: i < k < j ==> es[k] != Log(Unloaded)) ==>
      !(es[i] == Log(LoadedWithConsent) && es[j] == Log(LoadedWithConsent))
    ensures (forall k :: i < k < j ==> es[k] != Log(LoadedWithConsent)) ==>
      !(es[i] == Log(Unloaded) && es[j] == Log(Unloaded))
  {
    var pre, mid := es[..i], es[i + 1..j];
    assert es[..j + 1] == pre + ([es[i]] + (mid + [es[j]]));
    BalanceAppend(pre, [es[i]] + (mid + [es[j]]));
    BalanceAppend([es[i]], mid + [es[j]]);
    BalanceAppend(mid, [es[j]]);
    BalanceSingle(es[i]);
    BalanceSingle(es[j]);
    assert 0 <= start + Balance(pre) <= 1;
    assert 0 <= start + Balance(es[..j + 1]) <= 1;
    if forall k :: i < k < j ==> es[k] != Log(Unloaded) {
      assert forall k :: 0 <= k < |mid| ==> mid[k] == es[i + 1 + k];
      BalanceWithoutUnload(mid);
    }
    if forall k :: i < k < j ==> es[k] != Log(LoadedWithConsent) {
      assert forall k :: 0 <= k < |mid| ==> mid[k] == es[i + 1 + k];
      BalanceWithoutLoad(mid);
    }
  }

  /**
   * Along any run from a well-formed state, between any two successful loads
   * the log shows a successful unload, and between any two successful unloads
   * a successful load: the library is never loaded twice or freed twice.
   */
  lemma LoadsAndUnloadsAlternate(s: LibState, rs: seq<Request>)
    requires WellFormed(s)
    ensures var log := Run(s, rs).1;
      forall i, j :: 0 <= i < j < |log| && log[i] == Log(LoadedWithConsent) && log[j] == Log(LoadedWithConsent) ==>
        exists k :: i < k < j && log[k] == Log(Unloaded)
    ensures var log := Run(s, rs).1;
      forall i, j :: 0 <= i < j < |log| && log[i] == Log(Unloaded) && log[j] == Log(Unloaded) ==>
        exists k :: i < k < j && log[k] == Log(LoadedWithConsent)
  {
    var log := Run(s, rs).1;
    RunAlternates(s, rs);
    forall i, j | 0 <= i < j < |log|
      ensures log[i] == Log(LoadedWithConsent) && log[j] == Log(LoadedWithConsent) ==>
        exists k :: i < k < j && log[k] == Log(Unloaded)
      ensures log[i] == Log(Unloaded) && log[j] == Log(Unloaded) ==>
        exists k :: i < k < j && log[k] == Log(LoadedWithConsent)
    {
      AlternatingSeparates(if s.loaded then 1 else 0, log, i, j);
    }
  }

  /** Whether request `r` is a load with consent, without the official API, that `LoadLibrary` completed. */
  predicate ConsentedLoad(r: Request)
  {
    r.TryLoad? && !r.host.hasOfficialApi && r.host.agreed && r.loaded.Some?
  }

  /** From the initial state, the library ends up loaded only if some request was a consented, successful load. */
  lemma {:induction false} LoadedOnlyWithConsent(s: LibState, rs: seq<Request>)
    requires WellFormed(s) && !s.loaded
    requires Run(s, rs).0.loaded
    ensures exists i :: 0 <= i < |rs| && ConsentedLoad(rs[i])
    decreases |rs|
  {
    var mid := Apply(s, rs[0]).0;
    if mid.loaded {
      assert ConsentedLoad(rs[0]);
    } else {
      LoadedOnlyWithConsent(mid, rs[1..]);
      var i :| 0 <= i < |rs[1..]| && ConsentedLoad(rs[1..][i]);
      assert rs[i + 1] == rs[1..][i];
    }
  }

  /** On a host with the official API, a run from the initial state never calls into native code. */
  lemma {:induction false} OfficialApiNeverLoads(s: LibState, rs: seq<Request>)
    requires WellFormed(s) && !s.loaded
    requires forall i :: 0 <= i < |rs| ==> rs[i].TryLoad? ==> rs[i].host.hasOfficialApi
    ensures !Run(s, rs).0.loaded
    ensures forall e :: e in Run(s, rs).1 ==> !e.LoadLibrary? && !e.FreeLibrary?
    decreases |rs|
  {
    if rs != [] {
      var (mid, e) := Apply(s, rs[0]);
      assert mid == s && e == [];
      assert forall i :: 0 <= i < |rs[1..]| ==> rs[1..][i] == rs[i + 1];
      OfficialApiNeverLoads(mid, rs[1..]);
    }
  }

  // ---------------------------------------------------------------------------
  // The globals as the source keeps them.

  /** The module `interop` with its two globals and the calls it has made so far. */
  class NativeLibrary {
    var isLoaded: bool
    var handler: Option<Handle>
    var effects: seq<Effect>

    function State(): LibState
      reads this
    {
      LibState(isLoaded, handler)
    }

    ghost predicate Valid()
      reads this
    {
      WellFormed(State())
    }

    /** The module once imported: `is_load_native_library = False`, `native_handler` declared but unassigned. */
    constructor ()
      ensures State() == Initial && effects == [] && Valid()
    {
      isLoaded, handler, effects := false, None, [];
    }

    /** `try_load`. */
    method TryLoad(host: Host, loaded: Option<Handle>)
      requires Valid()
      modifies this
      ensures Valid()
      ensures State() == LoadStep(old(State()), host, loaded).0
      ensures effects == old(effects) + LoadStep(old(State()), host, loaded).1
    {
      if host.hasOfficialApi {
        return;
      }
      if host.agreed {
        if isLoaded {
          effects := effects + [Log(AlreadyLoaded)];
          return;
        }
        effects := effects + [LoadLibrary(LibraryFile)];
        match loaded {
          case Some(h) =>
            handler := Some(h);
            isLoaded := true;
            effects := effects + [Log(LoadedWithConsent)];
          case None =>
            isLoaded := false;
        }
      } else {
        effects := effects + [Log(NotAgreed)];
      }
    }

    /** `try_unload`. */
    method TryUnload(freed: bool)
      requires Valid()
      modifies this
      ensures Valid()
      ensures State() == UnloadStep(old(State()), freed).0
      ensures effects == old(effects) + UnloadStep(old(State()), freed).1
    {
      if isLoaded {
        effects := effects + [FreeLibrary(handler.value)];
        if freed {
          effects := effects + [Log(Unloaded)];
          isLoaded := false;
        } else {
          effects := effects + [Log(UnloadFailed)];
        }
      }
    }
  }
}
