/**
 * `load_preset`: turns the lines of a Blender operator preset file into a
 * string-to-string map. A stripped line counts only when it holds `=`; the
 * key must start with `op.`, loses every `op.`, and the value loses one layer
 * of matching quotes. After the loop the last `key`/`value` pair is stored
 * once more, and a file without any `=` line leaves `key` unbound.
 */
module PresetReader {
  import opened Outcomes
  import opened PyStr

  /** Why `load_preset` raises instead of returning a map. */
  datatype PresetError =
    | TooManyValues(line: nat)   // `key, value = line.split("=")` on a line holding two or more `=`: ValueError
    | KeyUnbound                 // no line holds `=`, so the store after the loop reads an unassigned `key`
    | FileMissing                // the preset was not found and `open(None)` raises TypeError

  /** What one line of a preset file is, once stripped. */
  datatype LineKind =
    | Plain                                   // no `=`: skipped
    | MultipleEquals                          // two or more `=`: the unpacking raises
    | Assigns(rawKey: string, value: string)  // exactly one `=`: the stripped key and the cleaned value

  /** The loop variables `key` and `value` after an `=` line. */
  datatype Binding = Binding(key: string, value: string)

  /** The loop's state: the map built so far and the last `key`/`value` pair, if any was bound. */
  datatype ParseState = ParseState(config: map<string, string>, last: Option<Binding>)

  const Prefix := "op."

  /** One layer of matching `"` or `'` quotes removed, as `value[1:-1]` does. */
  function Unquote(t: string): string
  {
    if (StartsWith(t, "\"") && EndsWith(t, "\"")) || (StartsWith(t, "'") && EndsWith(t, "'")) then
      if |t| >= 2 then t[1..|t| - 1] else []
    else t
  }

  /** The value part of a line: stripped, unquoted once, stripped again. */
  function CleanValue(v: string): string
  {
    Strip(Unquote(Strip(v)))
  }

  /**
   * A stripped line cut at its first `=`: `split("=")` yields more than two
   * parts exactly when another `=` follows.
   */
  function ClassifyStripped(s: string): (k: LineKind)
    ensures k.Plain? <==> '=' !in s
    ensures k.Assigns? ==> NoSpaceAtEnds(k.rawKey) && NoSpaceAtEnds(k.value)
  {
    if '=' !in s then Plain
    else
      var i := IndexOf(s, '=');
      if '=' in s[i + 1..] then MultipleEquals
      else Assigns(Strip(s[..i]), CleanValue(s[i + 1..]))
  }

  function ClassifyLine(line: string): LineKind
  {
    ClassifyStripped(Strip(line))
  }

  /** Whether a line adds an entry: it holds one `=` and its key starts with `op.`. */
  predicate Accepted(k: LineKind)
  {
    k.Assigns? && StartsWith(k.rawKey, Prefix)
  }

  /** The map key of an accepted line: `key.replace("op.", "")`. */
  function KeyOf(rawKey: string): string
  {
    RemoveAll(rawKey, Prefix)
  }

  /** The loop variables after an `=` line: the key is rewritten only when the line is accepted. */
  function BindingOf(k: LineKind): Binding
    requires k.Assigns?
  {
    if Accepted(k) then Binding(KeyOf(k.rawKey), k.value) else Binding(k.rawKey, k.value)
  }

  /** Each line of the file, classified. */
  function Kinds(lines: seq<string>): (ks: seq<LineKind>)
    ensures |ks| == |lines|
    ensures forall i :: 0 <= i < |lines| ==> ks[i] == ClassifyLine(lines[i])
  {
    seq(|lines|, i requires 0 <= i < |lines| => ClassifyLine(lines[i]))
  }

  /** One iteration of the loop over the file, on a line of kind `k` at line number `index`. */
  function Step(st: ParseState, k: LineKind, index: nat): (r: Result<ParseState, PresetError>)
    ensures r.Err? <==> k.MultipleEquals?
    ensures r.Ok? && !k.Assigns? ==> r.value == st
    ensures r.Ok? ==> st.config.Keys <= r.value.config.Keys
    ensures k.Assigns? ==> r.Ok? && r.value.last == Some(BindingOf(k))
  {
    match k
    case Plain => Ok(st)
    case MultipleEquals => Err(TooManyValues(index))
    case Assigns(_, _) =>
      var b := BindingOf(k);
      Ok(ParseState(if Accepted(k) then st.config[b.key := b.value] else st.config, Some(b)))
  }

  /** The loop run over the classified lines `ks`, from the first line to the last. */
  function Fold(ks: seq<LineKind>): (r: Result<ParseState, PresetError>)
    ensures r.Ok? ==> forall i :: 0 <= i < |ks| ==> !ks[i].MultipleEquals?
    ensures r.Err? ==> r.error.TooManyValues? && r.error.line < |ks| && ks[r.error.line].MultipleEquals?
    decreases |ks|
  {
    if ks == [] then Ok(ParseState(map[], None))
    else
      match Fold(ks[..|ks| - 1])
      case Err(e) => Err(e)
      case Ok(st) => Step(st, ks[|ks| - 1], |ks| - 1)
  }

  /** The store after the loop: it needs `key` and `value` bound. */
  function Conclude(r: Result<ParseState, PresetError>): (m: Result<map<string, string>, PresetError>)
    ensures r.Err? ==> m == Err(r.error)
    ensures r.Ok? ==> (m.Ok? <==> r.value.last.Some?)
    ensures m.Ok? ==> r.value.config.Keys <= m.value.Keys && r.value.last.value.key in m.value
  {
    match r
    case Err(e) => Err(e)
    case Ok(st) =>
      if st.last.None? then Err(KeyUnbound)
      else Ok(st.config[st.last.value.key := st.last.value.value])
  }

  /** `load_preset` over the lines of the file: the loop, then the store after it. */
  function ParsePreset(lines: seq<string>): (m: Result<map<string, string>, PresetError>)
    ensures m.Ok? ==> forall i :: 0 <= i < |lines| ==> !ClassifyLine(lines[i]).MultipleEquals?
    ensures m.Err? ==> m.error.KeyUnbound? || (m.error.TooManyValues? && m.error.line < |lines|)
  {
    Conclude(Fold(Kinds(lines)))
  }

  /** The file as the execute methods see it: not found, or found with these lines. */
  function ReadPreset(file: Option<seq<string>>): Result<map<string, string>, PresetError>
  {
    match file
    case None => Err(FileMissing)
    case Some(lines) => ParsePreset(lines)
  }

  /**
   * `load_preset` as the source writes it: a loop over the lines that updates
   * `key`, `value` and `config`, then the store after the loop.
   */
  method LoadPreset(lines: seq<string>) returns (r: Result<map<string, string>, PresetError>)
    ensures r == ParsePreset(lines)
  {
    var config: map<string, string> := map[];
    var key: string, value: string := [], [];
    var bound := false;
    ghost var ks: seq<LineKind> := [];
    var i := 0;
    while i < |lines|
      invariant 0 <= i <= |lines| && ks == Kinds(lines)[..i]
      invariant Fold(ks) == Ok(ParseState(config, if bound then Some(Binding(key, value)) else None))
    {
      var k := ReadLine(lines[i]);
      if k.MultipleEquals? {
        RaisesAt(lines, i);
        return Err(TooManyValues(i));
      }
      KindsNext(lines, i);
      FoldSnoc(ks, k);
      match k {
        case Plain =>
        case Assigns(rawKey, v) =>
          key, value, bound := rawKey, v, true;
          if StartsWith(key, Prefix) {
            key := RemoveAll(key, Prefix);
            config := config[key := value];
          }
      }
      ks := ks + [k];
      i := i + 1;
    }
    ParseAfterLoop(lines, ks);
    if !bound {
      return Err(KeyUnbound);
    }
    config := config[key := value];
    return Ok(config);
  }

  /** The head of the loop body: `line = line.strip()`, then the line is cut at `=`. */
  method ReadLine(text: string) returns (k: LineKind)
    ensures k == ClassifyLine(text)
  {
    var line := Strip(text);
    k := ReadStripped(line);
  }

  /**
   * A stripped line: skipped without `=`, raising on a second `=`, otherwise
   * the stripped key and the value stripped, unquoted and stripped again.
   */
  method ReadStripped(line: string) returns (k: LineKind)
    ensures k == ClassifyStripped(line)
  {
    if '=' !in line {
      return Plain;
    }
    var eq := IndexOf(line, '=');
    if '=' in line[eq + 1..] {
      ClassifyMultiple(line, eq);
      return MultipleEquals;
    }
    ClassifySingle(line, eq);
    var key := Strip(line[..eq]);
    var value := Strip(line[eq + 1..]);
    value := Strip(Unquote(value));
    return Assigns(key, value);
  }

  /** A second `=` after the first one makes the line raise. */
  lemma ClassifyMultiple(s: string, eq: nat)
    requires '=' in s && eq == IndexOf(s, '=') && '=' in s[eq + 1..]
    ensures ClassifyStripped(s) == MultipleEquals
  {
  }

  /** A single `=` splits the line into the stripped key and the cleaned value. */
  lemma ClassifySingle(s: string, eq: nat)
    requires '=' in s && eq == IndexOf(s, '=') && '=' !in s[eq + 1..]
    ensures ClassifyStripped(s) == Assigns(Strip(s[..eq]), CleanValue(s[eq + 1..]))
  {
  }

  /** After the loop has seen every line, `load_preset` is the store after the loop. */
  lemma ParseAfterLoop(lines: seq<string>, ks: seq<LineKind>)
    requires |ks| == |lines| && ks == Kinds(lines)[..|lines|]
    ensures ParsePreset(lines) == Conclude(Fold(ks))
  {
    assert Kinds(lines)[..|lines|] == Kinds(lines);
  }

  /** When the loop reaches line `i` and that line holds two `=`, `load_preset` raises there. */
  lemma RaisesAt(lines: seq<string>, i: nat)
    requires i < |lines| && Fold(Kinds(lines)[..i]).Ok? && ClassifyLine(lines[i]) == MultipleEquals
    ensures ParsePreset(lines) == Err(TooManyValues(i))
  {
    KindsNext(lines, i);
    FoldSnoc(Kinds(lines)[..i], MultipleEquals);
    FoldStopsAtError(Kinds(lines), i + 1);
  }

  /** The loop over one more classified line is one more step. */
  lemma FoldSnoc(ks: seq<LineKind>, k: LineKind)
    ensures Fold(ks + [k]) ==
              match Fold(ks)
              case Err(e) => Err(e)
              case Ok(st) => Step(st, k, |ks|)
  {
    assert (ks + [k])[..|ks|] == ks;
  }

  /** The classified prefix grows by the classification of the next line. */
  lemma KindsNext(lines: seq<string>, i: nat)
    requires i < |lines|
    ensures Kinds(lines)[..i + 1] == Kinds(lines)[..i] + [ClassifyLine(lines[i])]
  {
    PrefixSnoc(Kinds(lines), i);
  }

  lemma PrefixSnoc<T>(s: seq<T>, i: nat)
    requires i < |s|
    ensures s[..i + 1] == s[..i] + [s[i]]
  {
  }

  /** Once the loop has raised on some prefix of the file, the whole file raises the same error. */
  lemma {:induction false} FoldStopsAtError(ks: seq<LineKind>, n: nat)
    requires n <= |ks| && Fold(ks[..n]).Err?
    ensures Fold(ks) == Fold(ks[..n])
    decreases |ks| - n
  {
    if n < |ks| {
      assert ks[..n + 1][..n] == ks[..n];
      FoldStopsAtError(ks, n + 1);
    } else {
      assert ks[..n] == ks;
    }
  }

  // ---------------------------------------------------------------------------
  // Reference definitions over the classified lines, read from the end backwards.

  predicate NoMultipleEquals(ks: seq<LineKind>)
  {
    forall i :: 0 <= i < |ks| ==> !ks[i].MultipleEquals?
  }

  /** Line `i` is the first line holding two or more `=`. */
  predicate FirstMultipleEquals(ks: seq<LineKind>, i: nat)
  {
    i < |ks| && ks[i].MultipleEquals? && NoMultipleEquals(ks[..i])
  }

  /** The value of the last accepted line whose key is `key`, if there is one. */
  function LastValueFor(ks: seq<LineKind>, key: string): Option<string>
    decreases |ks|
  {
    if ks == [] then None
    else
      var k := ks[|ks| - 1];
      if Accepted(k) && KeyOf(k.rawKey) == key then Some(k.value)
      else LastValueFor(ks[..|ks| - 1], key)
  }

  /** The last line holding exactly one `=`, if there is one. */
  function LastAssignment(ks: seq<LineKind>): (r: Option<LineKind>)
    ensures r.Some? ==> r.value.Assigns?
    decreases |ks|
  {
    if ks == [] then None
    else if ks[|ks| - 1].Assigns? then Some(ks[|ks| - 1])
    else LastAssignment(ks[..|ks| - 1])
  }

  // ---------------------------------------------------------------------------
  // What the loop computes.

  /**
   * The loop raises exactly when some line holds two or more `=`, and then it
   * reports the first such line.
   */
  lemma {:induction false} FoldFailsAtFirstMultipleEquals(ks: seq<LineKind>)
    ensures Fold(ks).Err? <==> !NoMultipleEquals(ks)
    ensures Fold(ks).Err? ==> Fold(ks).error.TooManyValues? && FirstMultipleEquals(ks, Fold(ks).error.line)
    decreases |ks|
  {
    if ks != [] {
      var init := ks[..|ks| - 1];
      FoldFailsAtFirstMultipleEquals(init);
      if Fold(init).Err? {
        var i := Fold(init).error.line;
        assert init[..i] == ks[..i];
      } else {
        assert init == ks[..|ks| - 1];
      }
    }
  }

  /**
   * Without a line holding two or more `=`, the loop finishes; `key`/`value`
   * are bound by the last `=` line, and each key of the map holds the value of
   * the last accepted line with that key (later lines overwrite earlier ones).
   */
  lemma {:induction false} FoldComputes(ks: seq<LineKind>)
    requires NoMultipleEquals(ks)
    ensures Fold(ks).Ok?
    ensures Fold(ks).value.last == (if LastAssignment(ks).Some? then Some(BindingOf(LastAssignment(ks).value)) else None)
    ensures forall key :: Lookup(Fold(ks).value.config, key) == LastValueFor(ks, key)
    decreases |ks|
  {
    if ks != [] {
      FoldComputes(ks[..|ks| - 1]);
    }
  }

  /** The last `=` line, when accepted, is itself the last accepted line for its key. */
  lemma {:induction false} LastAssignmentIsLastValue(ks: seq<LineKind>)
    requires LastAssignment(ks).Some? && Accepted(LastAssignment(ks).value)
    ensures LastValueFor(ks, BindingOf(LastAssignment(ks).value).key) == Some(LastAssignment(ks).value.value)
    decreases |ks|
  {
    if !ks[|ks| - 1].Assigns? {
      LastAssignmentIsLastValue(ks[..|ks| - 1]);
    }
  }

  /**
   * When no line raises and the last `=` line is accepted, the store after
   * the loop changes nothing: each key holds the value of its last accepted line.
   */
  lemma ConcludeLastWins(ks: seq<LineKind>)
    requires NoMultipleEquals(ks)
    requires LastAssignment(ks).Some? && Accepted(LastAssignment(ks).value)
    ensures Conclude(Fold(ks)).Ok?
    ensures forall key :: Lookup(Conclude(Fold(ks)).value, key) == LastValueFor(ks, key)
  {
    FoldComputes(ks);
    LastAssignmentIsLastValue(ks);
  }

  /** `LastAssignment` finds nothing exactly when no line holds exactly one `=`. */
  lemma {:induction false} NoAssignmentLines(ks: seq<LineKind>)
    ensures LastAssignment(ks).None? <==> forall i :: 0 <= i < |ks| ==> !ks[i].Assigns?
    decreases |ks|
  {
    if ks != [] {
      var init := ks[..|ks| - 1];
      assert forall j :: 0 <= j < |init| ==> init[j] == ks[j];
      NoAssignmentLines(init);
    }
  }

  // ---------------------------------------------------------------------------
  // What `load_preset` returns.

  /**
   * `load_preset` raises ValueError exactly when a line holds two or more `=`
   * (naming the first), raises on the unbound `key` exactly when no line holds
   * `=` at all, and otherwise returns a map.
   */
  lemma ParsePresetOutcome(lines: seq<string>)
    ensures (ParsePreset(lines).Err? && ParsePreset(lines).error.TooManyValues?) <==> !NoMultipleEquals(Kinds(lines))
    ensures ParsePreset(lines).Err? && ParsePreset(lines).error.TooManyValues? ==>
      FirstMultipleEquals(Kinds(lines), ParsePreset(lines).error.line)
    ensures ParsePreset(lines) == Err(KeyUnbound) <==> forall i :: 0 <= i < |lines| ==> '=' !in Strip(lines[i])
    ensures ParsePreset(lines) != Err(FileMissing)
  {
    var ks := Kinds(lines);
    FoldFailsAtFirstMultipleEquals(ks);
    NoAssignmentLines(ks);
    if NoMultipleEquals(ks) {
      FoldComputes(ks);
    }
  }

  /**
   * The entries of the returned map: the last `key`/`value` pair wins for its
   * key, and every other key holds the value of its last accepted line.
   */
  lemma ParsePresetEntries(lines: seq<string>)
    requires ParsePreset(lines).Ok?
    ensures LastAssignment(Kinds(lines)).Some?
    ensures forall key :: Lookup(ParsePreset(lines).value, key) ==
                          if key == BindingOf(LastAssignment(Kinds(lines)).value).key
                          then Some(LastAssignment(Kinds(lines)).value.value)
                          else LastValueFor(Kinds(lines), key)
  {
    FoldFailsAtFirstMultipleEquals(Kinds(lines));
    FoldComputes(Kinds(lines));
  }

  /**
   * When the last `=` line is an accepted `op.` line, the store after the loop
   * changes nothing: each key holds the value of its last accepted line.
   */
  lemma ParsePresetLastWins(lines: seq<string>)
    requires ParsePreset(lines).Ok?
    requires LastAssignment(Kinds(lines)).Some? && Accepted(LastAssignment(Kinds(lines)).value)
    ensures forall key :: Lookup(ParsePreset(lines).value, key) == LastValueFor(Kinds(lines), key)
  {
    ParsePresetEntries(lines);
    LastAssignmentIsLastValue(Kinds(lines));
  }

  /**
   * When the last `=` line does not start with `op.`, the store after the loop
   * adds its raw key and value to the map anyway.
   */
  lemma ParsePresetLeaksLastLine(lines: seq<string>)
    requires ParsePreset(lines).Ok?
    requires LastAssignment(Kinds(lines)).Some? && !Accepted(LastAssignment(Kinds(lines)).value)
    ensures var a := LastAssignment(Kinds(lines)).value;
      && !StartsWith(a.rawKey, Prefix)
      && a.rawKey in ParsePreset(lines).value
      && ParsePreset(lines).value[a.rawKey] == a.value
  {
    ParsePresetEntries(lines);
    var a := LastAssignment(Kinds(lines)).value;
    assert Lookup(ParsePreset(lines).value, a.rawKey) == Some(a.value);
  }

  // ---------------------------------------------------------------------------
  // Round trip with the way Blender writes operator presets: the lines
  // `import bpy`, `op = bpy.context.active_operator` and an empty line, then
  // one line `op.<name> = <value>` per property, the value printed with `%r`:
  // bare for a number or a boolean, between quotes for a string.

  /** How the writer renders a value after ` = `. */
  datatype Quoting = Bare | SingleQuotes | DoubleQuotes

  /** One property as the writer saves it: its name, the text of its value, and how that text is quoted. */
  datatype Entry = Entry(key: string, value: string, quoting: Quoting)

  /** The text of a value as it stands after ` = `. */
  function Quoted(value: string, q: Quoting): string
  {
    match q
    case Bare => value
    case SingleQuotes => "'" + value + "'"
    case DoubleQuotes => "\"" + value + "\""
  }

  /** A line `<rawKey> = <value>`, the value rendered with quoting `q`. */
  function AssignmentLine(rawKey: string, value: string, q: Quoting): string
  {
    rawKey + " = " + Quoted(value, q)
  }

  /** A property name that `op.<name>` carries through unchanged. */
  predicate WritableKey(key: string)
  {
    '=' !in key && !Contains(key, Prefix) && (key == [] || !IsSpace(key[|key| - 1]))
  }

  /**
   * A value text that a line carries through unchanged: no `=`, no white
   * space at its ends, and, when bare, not empty and not opening with a quote.
   */
  predicate WritableValue(value: string, q: Quoting)
  {
    && '=' !in value && NoSpaceAtEnds(value)
    && (q.Bare? ==> value != [] && value[0] != '"' && value[0] != '\'')
  }

  predicate WritableEntry(e: Entry)
  {
    WritableKey(e.key) && WritableValue(e.value, e.quoting)
  }

  /** The line `op.<key> = <value>` for an entry. */
  function PresetLine(e: Entry): string
  {
    AssignmentLine(Prefix + e.key, e.value, e.quoting)
  }

  function PresetLines(entries: seq<Entry>): (lines: seq<string>)
    ensures |lines| == |entries|
  {
    seq(|entries|, i requires 0 <= i < |entries| => PresetLine(entries[i]))
  }

  /** What the header binds `op` to. */
  const ActiveOperator := "bpy.context.active_operator"

  /** The lines the writer puts before the values: `import bpy`, `op = bpy.context.active_operator`, an empty line. */
  const Header: seq<string> := ["import bpy", AssignmentLine("op", ActiveOperator, Bare), ""]

  /** A whole preset file as the writer produces it. */
  function WrittenPreset(entries: seq<Entry>): seq<string>
  {
    Header + PresetLines(entries)
  }

  /** The value of the last entry with key `key`, if any. */
  function LastEntry(entries: seq<Entry>, key: string): Option<string>
    decreases |entries|
  {
    if entries == [] then None
    else if entries[|entries| - 1].key == key then Some(entries[|entries| - 1].value)
    else LastEntry(entries[..|entries| - 1], key)
  }

  /** The first `=` of `a + "=" + b` is the one after `a` when `a` holds none. */
  lemma FirstEqualsAfter(a: string, b: string)
    requires '=' !in a
    ensures '=' in a + "=" + b
    ensures IndexOf(a + "=" + b, '=') == |a|
  {
    var s := a + "=" + b;
    assert s[..|a|] == a;
    IndexOfAt(s, '=', |a|);
  }

  /** A rendered value loses exactly the quotes the writer put around it, and a bare one loses nothing. */
  lemma UnquoteRendered(value: string, q: Quoting)
    requires q.Bare? ==> value != [] && value[0] != '"' && value[0] != '\''
    ensures Unquote(Quoted(value, q)) == value
  {
    var t := Quoted(value, q);
    match q {
      case Bare =>
        assert t[..1] == [value[0]];
      case SingleQuotes =>
        assert t[..1] == "'";
        assert t[..1] != "\"";
        assert t[|t| - 1..] == "'";
        assert t[1..|t| - 1] == value;
      case DoubleQuotes =>
        assert t[..1] == "\"";
        assert t[|t| - 1..] == "\"";
        assert t[1..|t| - 1] == value;
    }
  }

  /** A rendered value has no white space at its ends. */
  lemma RenderedNoSpace(value: string, q: Quoting)
    requires WritableValue(value, q)
    ensures Quoted(value, q) != [] && NoSpaceAtEnds(Quoted(value, q))
    ensures '=' !in Quoted(value, q)
  {
    var t := Quoted(value, q);
    if !q.Bare? {
      assert t[0] == if q.SingleQuotes? then '\'' else '"';
      assert t[|t| - 1] == t[0];
    }
  }

  /** The text after ` = ` in a written line cleans up to the value itself. */
  lemma CleanRendered(value: string, q: Quoting)
    requires WritableValue(value, q)
    ensures CleanValue(" " + Quoted(value, q)) == value
  {
    RenderedNoSpace(value, q);
    StripLeading(" ", Quoted(value, q));
    UnquoteRendered(value, q);
    StripNoop(value);
  }

  /** The text before ` = ` in a written line strips to the key itself. */
  lemma StripKeyPart(rawKey: string)
    requires NoSpaceAtEnds(rawKey)
    ensures Strip(rawKey + " ") == rawKey
  {
    StripTrailing(rawKey, " ");
  }

  /** A written line has no white space around it. */
  lemma WrittenLineUnstripped(rawKey: string, value: string, q: Quoting)
    requires rawKey != [] && NoSpaceAtEnds(rawKey) && WritableValue(value, q)
    ensures Strip(AssignmentLine(rawKey, value, q)) == AssignmentLine(rawKey, value, q)
  {
    var t := Quoted(value, q);
    var line := AssignmentLine(rawKey, value, q);
    RenderedNoSpace(value, q);
    assert line[0] == rawKey[0];
    assert line[|line| - 1] == t[|t| - 1];
    StripNoop(line);
  }

  /** A stripped line with a single `=` is cut there into key and value. */
  lemma ClassifySplit(line: string, a: string, b: string)
    requires line == a + "=" + b
    requires '=' !in a && '=' !in b
    ensures ClassifyStripped(line) == Assigns(Strip(a), CleanValue(b))
  {
    FirstEqualsAfter(a, b);
    assert line[|a| + 1..] == b;
    assert line[..|a|] == a;
  }

  lemma ClassifyWritten(rawKey: string, value: string, q: Quoting)
    requires '=' !in rawKey && NoSpaceAtEnds(rawKey) && WritableValue(value, q)
    ensures ClassifyStripped(AssignmentLine(rawKey, value, q)) == Assigns(rawKey, value)
  {
    var a := rawKey + " ";
    var b := " " + Quoted(value, q);
    assert AssignmentLine(rawKey, value, q) == a + "=" + b;
    RenderedNoSpace(value, q);
    assert '=' !in b;
    ClassifySplit(AssignmentLine(rawKey, value, q), a, b);
    StripKeyPart(rawKey);
    CleanRendered(value, q);
  }

  /** A line `<rawKey> = <value>`, bare or quoted, is read back as that key and that value. */
  lemma ClassifyAssignmentLine(rawKey: string, value: string, q: Quoting)
    requires rawKey != [] && NoSpaceAtEnds(rawKey) && '=' !in rawKey
    requires WritableValue(value, q)
    ensures ClassifyLine(AssignmentLine(rawKey, value, q)) == Assigns(rawKey, value)
  {
    WrittenLineUnstripped(rawKey, value, q);
    ClassifyWritten(rawKey, value, q);
  }

  /** `op.` + key loses exactly its `op.` when the key holds no other `op.`. */
  lemma KeyOfPrefixed(key: string)
    requires !Contains(key, Prefix)
    ensures KeyOf(Prefix + key) == key
  {
    var s := Prefix + key;
    assert s[..|Prefix|] == Prefix;
    assert s[|Prefix|..] == key;
  }

  /** The kind of the line written for an entry. */
  function WrittenKind(e: Entry): LineKind
  {
    Assigns(Prefix + e.key, e.value)
  }

  /** The line written for an entry is classified as the kind written for it. */
  lemma ReadPresetLine(e: Entry)
    requires WritableEntry(e)
    ensures ClassifyLine(PresetLine(e)) == WrittenKind(e)
  {
    var raw := Prefix + e.key;
    assert raw == ['o', 'p', '.'] + e.key;
    assert raw[|raw| - 1] == if e.key == [] then '.' else e.key[|e.key| - 1];
    ClassifyAssignmentLine(raw, e.value, e.quoting);
  }

  /** The kind written for an entry is accepted and binds that entry's key and value. */
  lemma WrittenKindBinds(e: Entry)
    requires WritableEntry(e)
    ensures Accepted(WrittenKind(e)) && BindingOf(WrittenKind(e)) == Binding(e.key, e.value)
  {
    var raw := Prefix + e.key;
    KeyOfPrefixed(e.key);
    assert raw[..|Prefix|] == Prefix;
  }

  /** The kinds of the lines written for some entries. */
  function WrittenKinds(entries: seq<Entry>): (ks: seq<LineKind>)
    ensures |ks| == |entries|
    ensures forall i :: 0 <= i < |entries| ==> ks[i] == WrittenKind(entries[i])
  {
    seq(|entries|, i requires 0 <= i < |entries| => WrittenKind(entries[i]))
  }

  /** The header's lines as the loop classifies them: the `op = …` line holds one `=` but is not an `op.` line. */
  const HeaderKinds: seq<LineKind> := [Plain, Assigns("op", ActiveOperator), Plain]

  /** A line with no `=` and no white space at its ends is plain. */
  lemma UnspacedLinePlain(line: string)
    requires NoSpaceAtEnds(line) && '=' !in line
    ensures ClassifyLine(line) == Plain
  {
    StripNoop(line);
  }

  lemma ImportLinePlain()
    ensures ClassifyLine("import bpy") == Plain
  {
    var line := "import bpy";
    assert line[0] == 'i' && line[|line| - 1] == 'y';
    assert forall i :: 0 <= i < |line| ==> line[i] != '=';
    UnspacedLinePlain(line);
  }

  lemma ActiveOperatorWritable()
    ensures WritableValue(ActiveOperator, Bare)
  {
    var value := ActiveOperator;
    assert value[0] == 'b' && value[|value| - 1] == 'r';
    assert forall i :: 0 <= i < |value| ==> value[i] != '=';
  }

  /** Each header line is classified as its kind. */
  lemma HeaderLineKind(i: nat)
    requires i < |Header|
    ensures ClassifyLine(Header[i]) == HeaderKinds[i]
  {
    if i == 0 {
      ImportLinePlain();
    } else if i == 1 {
      ActiveOperatorWritable();
      ClassifyAssignmentLine("op", ActiveOperator, Bare);
    } else {
      EmptyLinePlain();
    }
  }

  lemma EmptyLinePlain()
    ensures ClassifyLine("") == Plain
  {
    assert Strip("") == "";
  }

  /** Each written line is classified as the kind written for its entry, after the header's kinds. */
  lemma KindsOfWrittenPreset(entries: seq<Entry>)
    requires forall i :: 0 <= i < |entries| ==> WritableEntry(entries[i])
    ensures Kinds(WrittenPreset(entries)) == HeaderKinds + WrittenKinds(entries)
  {
    var lines := WrittenPreset(entries);
    forall i | 0 <= i < |lines| ensures Kinds(lines)[i] == (HeaderKinds + WrittenKinds(entries))[i] {
      if i < |Header| {
        assert lines[i] == Header[i];
        HeaderLineKind(i);
      } else {
        assert lines[i] == PresetLine(entries[i - |Header|]);
        ReadPresetLine(entries[i - |Header|]);
      }
    }
  }

  /** Every written line holds `=`, so the last one is the last `=` line. */
  lemma LastWrittenKind(pre: seq<LineKind>, entries: seq<Entry>)
    requires |entries| > 0
    ensures LastAssignment(pre + WrittenKinds(entries)) == Some(WrittenKind(entries[|entries| - 1]))
  {
  }

  /** The last accepted line for a key in `a + b` is the last one in `b`, or else the last one in `a`. */
  lemma {:induction false} LastValueForAppend(a: seq<LineKind>, b: seq<LineKind>, key: string)
    ensures LastValueFor(a + b, key) == if LastValueFor(b, key).Some? then LastValueFor(b, key) else LastValueFor(a, key)
    decreases |b|
  {
    if b == [] {
      assert a + b == a;
    } else {
      var init := b[..|b| - 1];
      assert (a + b)[..|a + b| - 1] == a + init;
      LastValueForAppend(a, init, key);
    }
  }

  /** The written lines give each key the value of its last entry. */
  lemma {:induction false} LastValueForWritten(entries: seq<Entry>, key: string)
    requires forall i :: 0 <= i < |entries| ==> WritableEntry(entries[i])
    ensures LastValueFor(WrittenKinds(entries), key) == LastEntry(entries, key)
    decreases |entries|
  {
    if entries != [] {
      var n := |entries| - 1;
      assert WrittenKinds(entries)[..n] == WrittenKinds(entries[..n]);
      WrittenKindBinds(entries[n]);
      LastValueForWritten(entries[..n], key);
    }
  }

  /** The header accepts no line. */
  lemma HeaderAcceptsNothing(key: string)
    ensures LastValueFor(HeaderKinds, key).None?
  {
    var k := Assigns("op", ActiveOperator);
    assert !StartsWith("op", Prefix);
    assert !Accepted(k);
    var two, one := [Plain, k], [Plain];
    assert HeaderKinds[..2] == two && two[..1] == one && one[..0] == [];
    assert LastValueFor(one, key) == LastValueFor([], key);
    assert LastValueFor(two, key) == LastValueFor(one, key);
    assert LastValueFor(HeaderKinds, key) == LastValueFor(two, key);
  }

  /** No line of a written preset holds two `=`. */
  lemma WrittenNoMultipleEquals(entries: seq<Entry>)
    ensures NoMultipleEquals(HeaderKinds + WrittenKinds(entries))
  {
    var ks := HeaderKinds + WrittenKinds(entries);
    forall i | 0 <= i < |ks| ensures !ks[i].MultipleEquals? {
      if i >= 3 {
        assert ks[i] == WrittenKind(entries[i - 3]);
      }
    }
  }

  /** The loop and the store after it, run over a written preset, give each key its last entry's value. */
  lemma ParseWrittenKinds(entries: seq<Entry>)
    requires |entries| > 0
    requires forall i :: 0 <= i < |entries| ==> WritableEntry(entries[i])
    ensures Conclude(Fold(HeaderKinds + WrittenKinds(entries))).Ok?
    ensures forall key :: Lookup(Conclude(Fold(HeaderKinds + WrittenKinds(entries))).value, key) == LastEntry(entries, key)
  {
    var ks := HeaderKinds + WrittenKinds(entries);
    var last := entries[|entries| - 1];
    WrittenNoMultipleEquals(entries);
    LastWrittenKind(HeaderKinds, entries);
    WrittenKindBinds(last);
    ConcludeLastWins(ks);
    forall key ensures LastValueFor(ks, key) == LastEntry(entries, key) {
      HeaderAcceptsNothing(key);
      LastValueForWritten(entries, key);
      LastValueForAppend(HeaderKinds, WrittenKinds(entries), key);
    }
  }

  /**
   * Round trip: a preset as Blender writes it, with at least one property,
   * parses to the map from each property name to the value text of its last
   * line, quotes removed.
   */
  lemma PresetRoundTrip(entries: seq<Entry>)
    requires |entries| > 0
    requires forall i :: 0 <= i < |entries| ==> WritableEntry(entries[i])
    ensures ParsePreset(WrittenPreset(entries)).Ok?
    ensures forall key :: Lookup(ParsePreset(WrittenPreset(entries)).value, key) == LastEntry(entries, key)
  {
    KindsOfWrittenPreset(entries);
    ParseWrittenKinds(entries);
  }

  /**
   * A written preset without any property is read as the header's `op` line
   * alone: the store after the loop adds `op` even though the loop skipped it.
   */
  lemma HeaderOnlyPreset()
    ensures ParsePreset(WrittenPreset([])) == Ok(map["op" := ActiveOperator])
  {
    KindsOfWrittenPreset([]);
    assert HeaderKinds + WrittenKinds([]) == HeaderKinds;
    var k := Assigns("op", ActiveOperator);
    assert !Accepted(k);
    assert HeaderKinds[..2][..1] == [Plain];
    assert HeaderKinds[..2] == [Plain, k];
    assert Fold(HeaderKinds[..1]) == Ok(ParseState(map[], None));
    assert Fold(HeaderKinds[..2]) == Ok(ParseState(map[], Some(Binding("op", ActiveOperator))));
  }

  /** The keys of some entries. */
  function KeySet(entries: seq<Entry>): set<string>
  {
    set i | 0 <= i < |entries| :: entries[i].key
  }

  predicate DistinctKeys(entries: seq<Entry>)
  {
    forall i, j :: 0 <= i < j < |entries| ==> entries[i].key != entries[j].key
  }

  lemma {:induction false} KeySetSize(entries: seq<Entry>)
    requires DistinctKeys(entries)
    ensures |KeySet(entries)| == |entries|
    decreases |entries|
  {
    if entries != [] {
      var init := entries[..|entries| - 1];
      var last := entries[|entries| - 1];
      assert KeySet(entries) == KeySet(init) + {last.key} by {
        forall k | k in KeySet(entries) ensures k in KeySet(init) + {last.key} {
          var i :| 0 <= i < |entries| && entries[i].key == k;
          if i < |entries| - 1 { assert init[i].key == k; }
        }
      }
      assert last.key !in KeySet(init);
      KeySetSize(init);
    }
  }

  lemma {:induction false} LastEntryFound(entries: seq<Entry>, key: string)
    ensures LastEntry(entries, key).Some? <==> key in KeySet(entries)
    decreases |entries|
  {
    if entries != [] {
      var init := entries[..|entries| - 1];
      LastEntryFound(init, key);
      assert KeySet(entries) == KeySet(init) + {entries[|entries| - 1].key} by {
        forall k | k in KeySet(entries) ensures k in KeySet(init) + {entries[|entries| - 1].key} {
          var i :| 0 <= i < |entries| && entries[i].key == k;
          if i < |entries| - 1 { assert init[i].key == k; }
        }
      }
    }
  }

  /** With distinct keys, the last entry for a key is the only one. */
  lemma {:induction false} LastEntryDistinct(entries: seq<Entry>, i: nat)
    requires DistinctKeys(entries) && i < |entries|
    ensures LastEntry(entries, entries[i].key) == Some(entries[i].value)
    decreases |entries|
  {
    if i < |entries| - 1 {
      var init := entries[..|entries| - 1];
      assert init[i] == entries[i];
      LastEntryDistinct(init, i);
    }
  }

  /**
   * N written properties with N different names give a map with exactly N
   * entries, keyed by those names, each holding its own value.
   */
  lemma PresetRoundTripSize(entries: seq<Entry>)
    requires |entries| > 0 && DistinctKeys(entries)
    requires forall i :: 0 <= i < |entries| ==> WritableEntry(entries[i])
    ensures ParsePreset(WrittenPreset(entries)).Ok?
    ensures ParsePreset(WrittenPreset(entries)).value.Keys == KeySet(entries)
    ensures |ParsePreset(WrittenPreset(entries)).value| == |entries|
    ensures forall i :: 0 <= i < |entries| ==> ParsePreset(WrittenPreset(entries)).value[entries[i].key] == entries[i].value
  {
    PresetRoundTrip(entries);
    var m := ParsePreset(WrittenPreset(entries)).value;
    forall key ensures key in m <==> key in KeySet(entries) {
      LastEntryFound(entries, key);
      assert Lookup(m, key) == LastEntry(entries, key);
    }
    KeySetSize(entries);
    forall i | 0 <= i < |entries| ensures m[entries[i].key] == entries[i].value {
      LastEntryDistinct(entries, i);
      assert Lookup(m, entries[i].key) == LastEntry(entries, entries[i].key);
    }
  }

  // ---------------------------------------------------------------------------
  // Examples.

  /** A one-line file is classified by its line. */
  lemma KindsOfOneLine(line: string)
    ensures Kinds([line]) == [ClassifyLine(line)]
  {
  }

  /** The loop and the store after it over a single line holding exactly one `=`. */
  lemma ConcludeOneAssignment(k: LineKind)
    requires k.Assigns?
    ensures Conclude(Fold([k])) == Ok(map[BindingOf(k).key := BindingOf(k).value])
  {
    assert [k][..0] == [];
    var b := BindingOf(k);
    var m: map<string, string> := map[];
    assert Fold([k]) == Ok(ParseState(if Accepted(k) then m[b.key := b.value] else m, Some(b)));
    assert m[b.key := b.value][b.key := b.value] == m[b.key := b.value];
  }

  /** A file holding one line `op.<key> = <value>`, such as `op.scale = 2.5`, gives `{key: value}`. */
  lemma SingleLinePreset(e: Entry)
    requires WritableEntry(e)
    ensures ParsePreset([PresetLine(e)]) == Ok(map[e.key := e.value])
  {
    ReadPresetLine(e);
    WrittenKindBinds(e);
    KindsOfOneLine(PresetLine(e));
    ConcludeOneAssignment(WrittenKind(e));
  }

  /**
   * A file holding one line `<key> = <value>` without the `op.` prefix, such
   * as `foo = 'bar'`, still gives `{key: value}`: the store after the loop
   * adds the pair the loop skipped.
   */
  lemma SingleUnprefixedLine(rawKey: string, value: string, q: Quoting)
    requires rawKey != [] && NoSpaceAtEnds(rawKey) && '=' !in rawKey && !StartsWith(rawKey, Prefix)
    requires WritableValue(value, q)
    ensures ParsePreset([AssignmentLine(rawKey, value, q)]) == Ok(map[rawKey := value])
  {
    ClassifyAssignmentLine(rawKey, value, q);
    KindsOfOneLine(AssignmentLine(rawKey, value, q));
    ConcludeOneAssignment(Assigns(rawKey, value));
  }

  /** An empty preset file makes `load_preset` fail on the unbound `key`. */
  lemma EmptyFileExample()
    ensures ParsePreset([]) == Err(KeyUnbound)
  {
  }
}
