/**
 * The import menus and file handlers the format modules register: which
 * format each menu reports to the preferences, which extensions Blender hands
 * to the drop operator, and `poll_drop`, which decides where a drop is taken.
 */
module Menus {
  import opened Outcomes
  import opened PyStr
  import opened Interop
  import opened Dispatch
  import AbcFormat
  import DaeFormat
  import UsdFormat

  /**
   * What a format module declares: its import menus, each named
   * `VIEW3D_MT_Space_Import_` followed by its key, with what their `format()`
   * returns; the file handlers it declares when `has_official_api()` holds, by
   * `bl_idname`, with their `bl_file_extensions` less the dot (each hands the
   * drop to `object.drop_event_listener`); and the
   * names its `from ..interop import …` asks for.
   */
  datatype FormatModule = FormatModule(menus: map<string, string>, handlers: seq<(string, string)>, imports: seq<string>)

  const AbcModule := FormatModule(map["ABC" := "abc"], [("VIEW3D_FH_Import_ABC", "abc")], AbcFormat.InteropImports)

  const DaeModule := FormatModule(map["DAE" := "dae"], [("VIEW3D_FH_Import_DAE", "dae")], DaeFormat.InteropImports)

  const UsdModule := FormatModule(
    map["USD" := "usd", "USDA" := "usd", "USDC" := "usd", "USDZ" := "usd"],
    [("VIEW3D_FH_Import_USD", "usd"), ("VIEW3D_FH_Import_USDA", "usda"),
     ("VIEW3D_FH_Import_USDC", "usdc"), ("VIEW3D_FH_Import_USDZ", "usdz")],
    UsdFormat.InteropImports)

  const FormatModules := [AbcModule, DaeModule, UsdModule]

  /** Every import menu the modules declare, by key. */
  const MenuFormats: map<string, string> := map[
    "ABC" := "abc",
    "DAE" := "dae",
    "USD" := "usd",
    "USDA" := "usd",
    "USDC" := "usd",
    "USDZ" := "usd"]

  /** Every file handler the modules declare. */
  const FileHandlers: seq<(string, string)> := [
    ("VIEW3D_FH_Import_ABC", "abc"),
    ("VIEW3D_FH_Import_DAE", "dae"),
    ("VIEW3D_FH_Import_USD", "usd"),
    ("VIEW3D_FH_Import_USDA", "usda"),
    ("VIEW3D_FH_Import_USDC", "usdc"),
    ("VIEW3D_FH_Import_USDZ", "usdz")]

  /** The declared menus and handlers are those of the three modules together. */
  lemma ModulesDeclare()
    ensures MenuFormats == AbcModule.menus + DaeModule.menus + UsdModule.menus
    ensures FileHandlers == AbcModule.handlers + DaeModule.handlers + UsdModule.handlers
  {
  }

  /**
   * A module defines its classes only when its `from ..interop import …`
   * succeeds; when the import raises, the module has no menu and no handler
   * to register.
   */
  predicate Loads(m: FormatModule)
  {
    ImportNames(m.imports).Ok?
  }

  /** The menus of the modules that load. */
  function LoadedMenus(ms: seq<FormatModule>): (menus: map<string, string>)
    ensures (forall i :: 0 <= i < |ms| ==> !Loads(ms[i])) ==> menus == map[]
    decreases |ms|
  {
    if ms == [] then map[]
    else (if Loads(ms[0]) then ms[0].menus else map[]) + LoadedMenus(ms[1..])
  }

  /**
   * The file handlers of the modules that load. A module declares its
   * handler classes only under `if has_official_api():`, so on a host
   * without the official API there are none.
   */
  function LoadedHandlers(ms: seq<FormatModule>, officialApi: bool): (handlers: seq<(string, string)>)
    ensures (forall i :: 0 <= i < |ms| ==> !Loads(ms[i])) ==> handlers == []
    decreases |ms|
  {
    if ms == [] then []
    else (if officialApi && Loads(ms[0]) then ms[0].handlers else []) + LoadedHandlers(ms[1..], officialApi)
  }

  /** Without the official API no module declares a file handler. */
  lemma {:induction false} NoHandlersWithoutApi(ms: seq<FormatModule>)
    ensures LoadedHandlers(ms, false) == []
    decreases |ms|
  {
    if ms != [] {
      NoHandlersWithoutApi(ms[1..]);
      var empty: seq<(string, string)> := [];
      assert LoadedHandlers(ms, false) == empty + empty;
    }
  }

  /** Of three modules of which only the first loads, only the first contributes menus and handlers. */
  lemma OnlyFirstOfThreeLoads(a: FormatModule, b: FormatModule, c: FormatModule)
    requires Loads(a) && !Loads(b) && !Loads(c)
    ensures LoadedMenus([a, b, c]) == a.menus
    ensures LoadedHandlers([a, b, c], true) == a.handlers
  {
    var ms := [a, b, c];
    assert ms[1..] == [b, c] && ms[1..][1..] == [c] && ms[1..][1..][1..] == [];
    var none: map<string, string> := map[];
    assert LoadedMenus([c]) == none + none == none;
    assert LoadedMenus([b, c]) == none + none == none;
    assert LoadedMenus(ms) == a.menus + none == a.menus;
    var empty: seq<(string, string)> := [];
    assert LoadedHandlers([c], true) == empty + empty == empty;
    assert LoadedHandlers([b, c], true) == empty + empty == empty;
    assert LoadedHandlers(ms, true) == a.handlers + empty == a.handlers;
  }

  lemma AbcLoads()
    ensures Loads(AbcModule)
  {
    AbcFormat.ImportsResolve();
  }

  lemma DaeFailsToLoad()
    ensures !Loads(DaeModule)
  {
    DaeFormat.ImportFails();
  }

  lemma UsdFailsToLoad()
    ensures !Loads(UsdModule)
  {
    UsdFormat.ImportFails();
  }

  /**
   * Only the Alembic module loads: the Collada and USD modules ask `interop`
   * for `parse_int`, which it does not define, so of the six menus and six
   * handlers declared only the ABC menu and the ABC handler can be registered,
   * and the handler only on a host with the official API.
   */
  lemma OnlyAbcLoads()
    ensures LoadedMenus(FormatModules) == map["ABC" := "abc"]
    ensures LoadedHandlers(FormatModules, true) == [("VIEW3D_FH_Import_ABC", "abc")]
    ensures LoadedHandlers(FormatModules, false) == []
  {
    NoHandlersWithoutApi(FormatModules);
    AbcLoads();
    DaeFailsToLoad();
    UsdFailsToLoad();
    OnlyFirstOfThreeLoads(AbcModule, DaeModule, UsdModule);
  }

  /** The `format()` of the registered menu of that class name, if there is one. */
  function MenuFormat(menu: string): (f: Option<string>)
    ensures f.Some? ==> StartsWith(menu, MenuPrefix) && menu[|MenuPrefix|..] in LoadedMenus(FormatModules)
  {
    if StartsWith(menu, MenuPrefix) then Lookup(LoadedMenus(FormatModules), menu[|MenuPrefix|..]) else None
  }

  /** The menu named by the prefix and a key reports that key's format, when a loaded module declares it. */
  lemma MenuFormatOf(suffix: string)
    ensures MenuFormat(MenuPrefix + suffix) == Lookup(LoadedMenus(FormatModules), suffix)
  {
    var m := MenuPrefix + suffix;
    assert m[..|MenuPrefix|] == MenuPrefix && m[|MenuPrefix|..] == suffix;
  }

  /** No declared handler's extension holds a dot or a separator, or is gated. */
  lemma HandlerExtensions(i: int)
    requires 0 <= i < |FileHandlers|
    ensures var e := FileHandlers[i].1;
      '.' !in e && '\\' !in e && '/' !in e && e !in Conditionals
  {
  }

  /**
   * Each declared handler's extension names a declared menu once upper-cased;
   * the ABC and DAE menus report their own extension and the four USD menus
   * report `usd`.
   */
  lemma HandlerMenu(i: int)
    requires 0 <= i < |FileHandlers|
    ensures var e := FileHandlers[i].1;
      && Upper(e) in MenuFormats
      && MenuFormats[Upper(e)] == (if i < 2 then e else "usd")
  {
    if i == 0 {
      assert Upper("abc") == "ABC";
    } else if i == 1 {
      assert Upper("dae") == "DAE";
    } else if i == 2 {
      assert Upper("usd") == "USD";
    } else if i == 3 {
      assert Upper("usda") == "USDA";
    } else if i == 4 {
      assert Upper("usdc") == "USDC";
    } else {
      assert Upper("usdz") == "USDZ";
    }
  }

  /** Every format a declared menu reports is the `extension` of one of the preset operators. */
  lemma FormatsServed()
    ensures forall key :: key in MenuFormats ==>
      MenuFormats[key] in {AbcFormat.Abc.extension, DaeFormat.Dae.extension, UsdFormat.Usd.extension}
  {
  }

  /**
   * A dropped file with the extension of a handler that can be registered
   * passes the gate and reaches a registered import menu.
   */
  lemma HandledFilesReachMenus(stem: string, i: int, importers: set<string>, officialApi: bool)
    requires 0 <= i < |LoadedHandlers(FormatModules, officialApi)|
    requires exists k :: LastSep(stem) < k < |stem| && stem[k] != '.'
    ensures Admitted(stem + "." + LoadedHandlers(FormatModules, officialApi)[i].1, importers)
    ensures MenuFormat(MenuName(stem + "." + LoadedHandlers(FormatModules, officialApi)[i].1))
      == Some(LoadedHandlers(FormatModules, officialApi)[i].1)
  {
    OnlyAbcLoads();
    SoleHandlerReachesMenu(stem, LoadedHandlers(FormatModules, officialApi), i, importers);
  }

  lemma SoleHandlerReachesMenu(stem: string, handlers: seq<(string, string)>, i: int, importers: set<string>)
    requires handlers == [("VIEW3D_FH_Import_ABC", "abc")] && 0 <= i < |handlers|
    requires exists k :: LastSep(stem) < k < |stem| && stem[k] != '.'
    ensures Admitted(stem + "." + handlers[i].1, importers)
    ensures MenuFormat(MenuName(stem + "." + handlers[i].1)) == Some(handlers[i].1)
  {
    assert handlers[i].1 == "abc";
    AbcFileReachesMenu(stem, importers);
  }

  lemma AbcFileReachesMenu(stem: string, importers: set<string>)
    requires exists k :: LastSep(stem) < k < |stem| && stem[k] != '.'
    ensures Admitted(stem + "." + "abc", importers)
    ensures MenuFormat(MenuName(stem + "." + "abc")) == Some("abc")
  {
    AbcFileAdmitted(stem, importers);
    AbcFileMenu(stem);
    AbcMenuFormat();
  }

  lemma AbcFileMenu(stem: string)
    requires exists k :: LastSep(stem) < k < |stem| && stem[k] != '.'
    ensures MenuName(stem + "." + "abc") == MenuPrefix + "ABC"
  {
    AbcSafeExtension();
    MenuOfFile(stem, "abc");
    assert Upper("abc") == "ABC";
  }

  lemma AbcMenuFormat()
    ensures MenuFormat(MenuPrefix + "ABC") == Some("abc")
  {
    MenuFormatOf("ABC");
    OnlyAbcLoads();
  }

  lemma AbcSafeExtension()
    ensures '.' !in "abc" && '\\' !in "abc" && '/' !in "abc" && "abc" !in Conditionals
  {
    HandlerExtensions(0);
  }

  lemma AbcFileAdmitted(stem: string, importers: set<string>)
    requires exists k :: LastSep(stem) < k < |stem| && stem[k] != '.'
    ensures Admitted(stem + "." + "abc", importers)
  {
    AbcSafeExtension();
    FormatOfFile(stem, "abc");
  }

  /** No key but `ABC` names a loaded menu. */
  lemma OnlyAbcMenuLoaded(key: string)
    requires key != "ABC"
    ensures Lookup(LoadedMenus(FormatModules), key).None?
  {
    OnlyAbcLoads();
  }

  /** The handlers after the first are not the ABC handler. */
  lemma LaterHandlersNotAbc(i: int)
    requires 1 <= i < |FileHandlers|
    ensures Upper(FileHandlers[i].1) != "ABC"
  {
    HandlerMenu(i);
    assert FileHandlers[1].1 == "dae";
  }

  /**
   * A `.dae` or USD file that still reaches the drop operator (through the
   * native hook, which takes every drop) is sent to an import menu that no
   * module registers: those menus are declared in modules whose import fails.
   */
  lemma UnloadedFormatsMissMenus(stem: string, i: int)
    requires 1 <= i < |FileHandlers|
    requires exists k :: LastSep(stem) < k < |stem| && stem[k] != '.'
    ensures MenuFormat(MenuName(stem + "." + FileHandlers[i].1)).None?
  {
    var e := FileHandlers[i].1;
    HandlerExtensions(i);
    MenuOfFile(stem, e);
    MenuFormatOf(Upper(e));
    LaterHandlersNotAbc(i);
    OnlyAbcMenuLoaded(Upper(e));
  }

  /**
   * The four USD menus, as `usd.py` declares them, all report `usd`, so the
   * four USD extensions would share one display-mode preference and one
   * preset.
   */
  lemma UsdExtensionsShareSettings(stem: string, i: int, prefs: Preferences)
    requires 2 <= i < |FileHandlers|
    requires exists k :: LastSep(stem) < k < |stem| && stem[k] != '.'
    ensures var menu := MenuName(stem + "." + FileHandlers[i].1);
      && StartsWith(menu, MenuPrefix)
      && var format := Lookup(MenuFormats, menu[|MenuPrefix|..]);
      && format == Some("usd")
      && GetMsgDispMode(prefs, format.value) == GetMsgDispMode(prefs, "usd")
      && GetCurrentPreset(prefs, format.value) == GetCurrentPreset(prefs, "usd")
  {
    var e := FileHandlers[i].1;
    HandlerExtensions(i);
    HandlerMenu(i);
    MenuOfFile(stem, e);
    var menu := MenuPrefix + Upper(e);
    assert menu[..|MenuPrefix|] == MenuPrefix && menu[|MenuPrefix|..] == Upper(e);
  }

  /** What `poll_drop` reads of the context: the area, when there is one, and its type. */
  datatype Area = Area(kind: string)
  datatype Context = Context(area: Option<Area>)

  /**
   * `poll_drop`: false without a context; otherwise the value of
   * `context and context.area and context.area.type == "VIEW_3D"`, taken as
   * the truth value Blender reads from it.
   */
  function PollDrop(context: Option<Context>): (accepted: bool)
    ensures context.None? ==> !accepted
    ensures accepted ==> context.value.area.Some? && context.value.area.value.kind == "VIEW_3D"
  {
    match context
    case None => false
    case Some(c) =>
      match c.area
      case None => false
      case Some(a) => a.kind == "VIEW_3D"
  }

  /** Every context whose area is the 3D viewport is accepted. */
  lemma PollDropAcceptsView3D(area: Area)
    requires area.kind == "VIEW_3D"
    ensures PollDrop(Some(Context(Some(area))))
  {
  }
}
