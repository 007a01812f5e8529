/**
 * The drop operator of `operator.py`: from the dropped file's path it derives
 * the extension as Windows' `os.path.splitext` does, refuses formats whose
 * importer add-on is missing, and opens the import menu named after the
 * extension, after storing the file name where every import menu reads it.
 */
module Dispatch {
  import opened Outcomes
  import opened PyStr
  import opened HostApi

  // ---------------------------------------------------------------------------
  // os.path.splitext, as `ntpath` defines it.

  /** Python's `s.rfind(c)`: the last position of `c`, or -1. */
  function RFind(s: string, c: char): (i: int)
    ensures -1 <= i < |s|
    ensures i >= 0 ==> s[i] == c
    ensures forall j :: i < j < |s| ==> s[j] != c
    decreases |s|
  {
    if s == [] then -1
    else if s[|s| - 1] == c then |s| - 1
    else RFind(s[..|s| - 1], c)
  }

  /** The position of the last path separator, `\` or `/`, or -1. */
  function LastSep(p: string): (i: int)
    ensures -1 <= i < |p|
    ensures i >= 0 ==> p[i] == '\\' || p[i] == '/'
    ensures forall j :: i < j < |p| ==> p[j] != '\\' && p[j] != '/'
  {
    var a := RFind(p, '\\');
    var b := RFind(p, '/');
    if a > b then a else b
  }

  /**
   * `ntpath.splitext(p)`: the last `.` of the file name starts the extension,
   * unless the file name holds only dots before it (a name such as `.blend`
   * has no extension); with no such `.` the extension is empty.
   */
  function SplitExt(p: string): (parts: (string, string))
    ensures parts.0 + parts.1 == p
    ensures parts.1 == [] || (parts.1[0] == '.' && '.' !in parts.1[1..])
    ensures forall j :: 0 <= j < |parts.1| ==> parts.1[j] != '\\' && parts.1[j] != '/'
  {
    var sep := LastSep(p);
    var dot := RFind(p, '.');
    if dot > sep && exists k :: sep + 1 <= k < dot && p[k] != '.' then
      assert p[..dot] + p[dot..] == p;
      (p[..dot], p[dot..])
    else
      assert p + [] == p;
      (p, [])
  }

  /** `ext[1:]`: the extension without its dot, empty when there is no extension. */
  function Format(path: string): (f: string)
    ensures '.' !in f
  {
    var ext := SplitExt(path).1;
    if ext == [] then [] else ext[1..]
  }

  /**
   * When the last dot of a path is followed by no separator, it ends the file
   * name's stem: the extension starts there if the file name holds some other
   * character before it, and is empty if only dots precede it.
   */
  lemma FormatAt(p: string, dot: int)
    requires 0 <= dot < |p| && p[dot] == '.'
    requires forall j :: dot < j < |p| ==> p[j] != '.' && p[j] != '\\' && p[j] != '/'
    ensures LastSep(p) < dot
    ensures (exists k :: LastSep(p) < k < dot && p[k] != '.') ==> Format(p) == p[dot + 1..]
    ensures (forall k :: LastSep(p) < k < dot ==> p[k] == '.') ==> Format(p) == []
  {
    assert RFind(p, '.') == dot;
  }

  /**
   * The extension of a file `stem.e` is `e`, when `e` holds no dot and no
   * separator and the file name in `stem` holds some character other than a dot.
   */
  lemma FormatOfFile(stem: string, e: string)
    requires '.' !in e && '\\' !in e && '/' !in e
    requires exists k :: LastSep(stem) < k < |stem| && stem[k] != '.'
    ensures Format(stem + "." + e) == e
  {
    var p := stem + "." + e;
    assert forall j :: |stem| < j < |p| ==> p[j] == e[j - |stem| - 1];
    FormatAt(p, |stem|);
    var k :| LastSep(stem) < k < |stem| && stem[k] != '.';
    assert p[k] == stem[k];
    assert LastSep(p) <= LastSep(stem) by {
      if LastSep(p) >= 0 {
        assert p[LastSep(p)] == stem[LastSep(p)];
      }
    }
    assert p[|stem| + 1..] == e;
  }

  /** A file name without a dot has no extension. */
  lemma NoDotNoFormat(p: string)
    requires forall j :: LastSep(p) < j < |p| ==> p[j] != '.'
    ensures Format(p) == []
  {
  }

  /** A file name made of a dot and a name without dots, such as `.blend`, has no extension. */
  lemma DotFileNoFormat(dir: string, name: string)
    requires dir == [] || dir[|dir| - 1] == '\\' || dir[|dir| - 1] == '/'
    requires '.' !in name && '\\' !in name && '/' !in name
    ensures Format(dir + "." + name) == []
  {
    var p := dir + "." + name;
    assert forall j :: |dir| < j < |p| ==> p[j] == name[j - |dir| - 1];
    FormatAt(p, |dir|);
    if dir != [] {
      assert p[|dir| - 1] == dir[|dir| - 1];
    }
  }

  // ---------------------------------------------------------------------------
  // The menu and the gate.

  const MenuPrefix := "VIEW3D_MT_Space_Import_"

  /** `f"VIEW3D_MT_Space_Import_{ext[1:].upper()}"`. */
  function MenuName(path: string): (name: string)
    ensures StartsWith(name, MenuPrefix)
    ensures |name| == |MenuPrefix| + |Format(path)|
    ensures forall j :: |MenuPrefix| <= j < |name| ==> !('a' <= name[j] <= 'z')
  {
    UpperHasNoLowerCase(Format(path));
    MenuPrefix + Upper(Format(path))
  }

  /** A file `stem.e` is dispatched to the menu named after `e` in upper case. */
  lemma MenuOfFile(stem: string, e: string)
    requires '.' !in e && '\\' !in e && '/' !in e
    requires exists k :: LastSep(stem) < k < |stem| && stem[k] != '.'
    ensures MenuName(stem + "." + e) == MenuPrefix + Upper(e)
  {
    FormatOfFile(stem, e);
  }

  /** Without an extension the menu called is the bare prefix. */
  lemma NoFormatBareMenu(p: string)
    requires Format(p) == []
    ensures MenuName(p) == MenuPrefix
  {
    assert Upper([]) == [];
    assert MenuPrefix + [] == MenuPrefix;
  }

  /**
   * `conditionals`: formats whose importer comes from another add-on, with the
   * `bpy.ops.import_scene` operator whose presence allows them.
   */
  const Conditionals: map<string, string> := map["vrm" := "vrm"]

  /** The keys of `conditionals` are lower case, so the lower-cased lookup finds the key the membership test found. */
  lemma ConditionalKeysLower()
    ensures forall f :: f in Conditionals ==> Lower(f) == f && Lower(f) in Conditionals
  {
    assert Lower("vrm") == "vrm";
  }

  /**
   * Whether the menu is opened: a format listed in `conditionals` (compared
   * as written, so case matters) needs its operator among the importers.
   */
  predicate Admitted(path: string, importers: set<string>)
    ensures Format(path) !in Conditionals ==> Admitted(path, importers)
  {
    var f := Format(path);
    f in Conditionals ==> Lower(f) in Conditionals && Conditionals[Lower(f)] in importers
  }

  /** The `vrm` gate: a `.vrm` file is dispatched exactly when the `vrm` importer exists. */
  lemma VrmGate(path: string, importers: set<string>)
    requires Format(path) == "vrm"
    ensures Admitted(path, importers) <==> "vrm" in importers
  {
    ConditionalKeysLower();
  }

  /** Every format other than `vrm`, including `VRM` in upper case, is admitted. */
  lemma OnlyVrmGated(path: string, importers: set<string>)
    requires Format(path) != "vrm"
    ensures Admitted(path, importers)
  {
  }

  /**
   * The gate compares the extension as written: a file whose extension is
   * not exactly `vrm` is dispatched to the menu of its upper-cased extension
   * whatever the importers are.
   */
  lemma GateIsCaseSensitive(stem: string, e: string, importers: set<string>)
    requires '.' !in e && '\\' !in e && '/' !in e && e != "vrm"
    requires exists k :: LastSep(stem) < k < |stem| && stem[k] != '.'
    ensures Admitted(stem + "." + e, importers)
    ensures MenuName(stem + "." + e) == MenuPrefix + Upper(e)
  {
    FormatOfFile(stem, e);
  }

  /** So `x.VRM` reaches the menu `VIEW3D_MT_Space_Import_VRM` whether or not the `vrm` importer exists. */
  lemma UpperCaseVrmBypassesGate(stem: string, importers: set<string>)
    requires exists k :: LastSep(stem) < k < |stem| && stem[k] != '.'
    ensures Admitted(stem + ".VRM", importers)
    ensures MenuName(stem + ".VRM") == MenuPrefix + "VRM"
  {
    UpperVrm();
    assert stem + ".VRM" == stem + "." + "VRM";
    GateIsCaseSensitive(stem, "VRM", importers);
  }

  /** `VRM` is not the key `vrm`, and it is its own upper case. */
  lemma UpperVrm()
    ensures "VRM" != "vrm" && '.' !in "VRM" && '\\' !in "VRM" && '/' !in "VRM"
    ensures Upper("VRM") == "VRM"
  {
    assert "VRM"[0] != "vrm"[0];
    UpperNoop("VRM");
  }

  // ---------------------------------------------------------------------------
  // The operator.

  /** What `bpy.ops.wm.call_menu` does: shows the menu, or raises an exception of the named class. */
  datatype MenuOutcome = Shown | Raises(exception: string)

  /** `VIEW3D_MT_Space_Import_BASE`, whose class attribute `filename` every import menu reads. */
  class MenuBase {
    var filename: string

    constructor ()
      ensures filename == ""
    {
      filename := "";
    }
  }

  /** `DropEventListener`, with the file name Blender gives the dropped file. */
  class DropEventListener {
    var filename: string

    constructor (filename: string)
      ensures this.filename == filename
    {
      this.filename := filename;
    }

    /**
     * `inflate`: share the file name with the menus, then call the menu, which
     * therefore already sees the dropped file's name.
     */
    method Inflate(base: MenuBase, host: Blender, name: string)
      modifies base, host`calls
      ensures base.filename == filename
      ensures host.calls == old(host.calls) + [CallMenu(name, filename)]
    {
      base.filename := filename;
      host.CallMenuNamed(name, base.filename);
    }

    /**
     * `invoke`: always finishes, unless calling the menu raises something
     * other than a TypeError, which propagates. A format that is refused
     * calls no menu and leaves the shared file name alone.
     */
    method Invoke(base: MenuBase, host: Blender, outcome: MenuOutcome) returns (r: Result<string, string>)
      modifies base, host`calls
      ensures !Admitted(filename, host.importers) ==>
        r == Ok("FINISHED") && base.filename == old(base.filename) && host.calls == old(host.calls)
      ensures Admitted(filename, host.importers) ==>
        && base.filename == filename
        && host.calls == old(host.calls) + [CallMenu(MenuName(filename), filename)]
        && r == (if outcome.Raises? && outcome.exception != "TypeError" then Err(outcome.exception) else Ok("FINISHED"))
    {
      var path := filename;
      var parts := SplitExt(path);
      var ext := parts.1;
      var format := if ext == [] then [] else ext[1..];
      if format in Conditionals {
        ConditionalKeysLower();
        if Conditionals[Lower(format)] !in host.importers {
          return Ok("FINISHED");
        }
      }
      var name := MenuPrefix + Upper(format);
      Inflate(base, host, name);
      if outcome.Raises? && outcome.exception != "TypeError" {
        return Err(outcome.exception);
      }
      return Ok("FINISHED");
    }
  }
}
