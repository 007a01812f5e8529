/**
 * The pure helpers of the add-on's `interop` module: `parse_bool`,
 * `parse_float`, the preference lookups with their fallbacks, the file-name
 * filtering of `list_presets`, and the names the module defines for
 * `from ..interop import …`.
 */
module Interop {
  import opened Outcomes
  import opened PyStr

  // ---------------------------------------------------------------------------
  // parse_bool and parse_float.

  /** `parse_bool`: `None` is false; otherwise the text is true exactly when its lower case is `true`. */
  function ParseBool(value: Option<string>): (b: bool)
    ensures value.None? ==> !b
    ensures b ==> |value.value| == 4
  {
    match value
    case None => false
    case Some(v) => Lower(v) == "true"
  }

  /** `c` is the letter `lower` in either case. */
  predicate EitherCase(c: char, lower: char)
    requires 'a' <= lower <= 'z'
  {
    c == lower || c as int == lower as int - 32
  }

  /**
   * `parse_bool` accepts exactly the sixteen spellings of `true` in mixed case,
   * and nothing else: not `1`, not `yes`, not ` true` with white space.
   */
  lemma ParseBoolSpellings(v: string)
    ensures ParseBool(Some(v)) <==>
      |v| == 4 && EitherCase(v[0], 't') && EitherCase(v[1], 'r') && EitherCase(v[2], 'u') && EitherCase(v[3], 'e')
  {
    if |v| == 4 {
      var w := "true";
      assert Lower(v) == w <==> forall i :: 0 <= i < 4 ==> LowerChar(v[i]) == w[i];
      forall i | 0 <= i < 4 ensures LowerChar(v[i]) == w[i] <==> EitherCase(v[i], w[i]) {
        LowerCharIs(v[i], w[i]);
      }
    } else {
      assert |Lower(v)| != |"true"|;
    }
  }

  lemma LowerCharIs(c: char, lower: char)
    requires 'a' <= lower <= 'z'
    ensures LowerChar(c) == lower <==> EitherCase(c, lower)
  {
  }

  /** The text Python writes for a boolean, as a preset file holds it. */
  function BoolRepr(b: bool): string
  {
    if b then "True" else "False"
  }

  /** A boolean written by Python is read back by `parse_bool`. */
  lemma ParseBoolRepr(b: bool)
    ensures ParseBool(Some(BoolRepr(b))) == b
  {
    ParseBoolSpellings(BoolRepr(b));
  }

  /**
   * `parse_float`: `None` and text that `float()` rejects give `0.0`. Python's
   * `float()` is the parameter `float`, which is `None` where it raises.
   */
  function ParseFloat(value: Option<string>, float: string -> Option<real>): (x: real)
    ensures x == 0.0 || (value.Some? && float(value.value) == Some(x))
  {
    match value
    case None => 0.0
    case Some(v) =>
      match float(v)
      case None => 0.0
      case Some(f) => f
  }

  /** `parse_float` falls back to `0.0` on `None` (TypeError) and on text `float()` rejects (ValueError). */
  lemma ParseFloatFallback(value: Option<string>, float: string -> Option<real>)
    requires value.None? || float(value.value).None?
    ensures ParseFloat(value, float) == 0.0
  {
  }

  /**
   * Text that `float()` reads as `x` is read back as `x`: in particular a
   * float Python printed with `repr`, since `float(repr(x)) == x`.
   */
  lemma ParseFloatReadsBack(x: real, text: string, float: string -> Option<real>)
    requires float(text) == Some(x)
    ensures ParseFloat(Some(text), float) == x
  {
  }

  // ---------------------------------------------------------------------------
  // Preference lookups.

  /** The add-on preferences, as the attributes they hold: name to value. */
  type Preferences = map<string, string>

  /** `selections`: the three display modes, as identifier, label and description. */
  const Selections: seq<(string, string, string)> := [
    ("ASKALWAYS", "Ask Always", "Displays import settings each time"),
    ("NEVERDEFAULT", "Always Default Settings", "Always import with default settings without showing import settings"),
    ("NEVERCUSTOM", "Always Custom Settings", "Always import with custom settings without showing import settings")
  ]

  /** One of the identifiers of `selections`. */
  predicate IsSelection(mode: string)
  {
    exists i :: 0 <= i < |Selections| && Selections[i].0 == mode
  }

  const DispOptionSuffix := "_disp_option"
  const PresetSuffix := "_preset"

  /** The preference attribute that holds the display mode of an extension. */
  function DispOptionKey(ext: string): string
  {
    Lower(ext) + DispOptionSuffix
  }

  /** The preference attribute that holds the chosen preset of an extension. */
  function PresetKey(ext: string): string
  {
    Lower(ext) + PresetSuffix
  }

  /** `get_msg_disp_mode`: the stored mode, or the first selection when the attribute is missing. */
  function GetMsgDispMode(prefs: Preferences, ext: string): (mode: string)
    ensures DispOptionKey(ext) !in prefs ==> mode == "ASKALWAYS"
  {
    match Lookup(prefs, DispOptionKey(ext))
    case Some(m) => m
    case None => Selections[0].0
  }

  /** `get_current_preset`: the stored preset name, or the empty name when the attribute is missing. */
  function GetCurrentPreset(prefs: Preferences, ext: string): (name: string)
    ensures PresetKey(ext) !in prefs ==> name == ""
  {
    match Lookup(prefs, PresetKey(ext))
    case Some(n) => n
    case None => ""
  }

  /** Preferences whose display-mode attributes each hold one of the selections, as the enum properties do. */
  predicate DispOptionsValid(prefs: Preferences)
  {
    forall key :: key in prefs && EndsWith(key, DispOptionSuffix) ==> IsSelection(prefs[key])
  }

  /** With well-formed preferences, the display mode is always one of the three selections. */
  lemma DispModeIsSelection(prefs: Preferences, ext: string)
    requires DispOptionsValid(prefs)
    ensures IsSelection(GetMsgDispMode(prefs, ext))
  {
    var key := DispOptionKey(ext);
    assert key[|key| - |DispOptionSuffix|..] == DispOptionSuffix;
    assert Selections[0].0 == "ASKALWAYS";
  }

  /** The extension is looked up in lower case, so its case does not matter to either lookup. */
  lemma LookupsIgnoreCase(prefs: Preferences, ext: string)
    ensures GetMsgDispMode(prefs, Upper(ext)) == GetMsgDispMode(prefs, ext)
    ensures GetMsgDispMode(prefs, Lower(ext)) == GetMsgDispMode(prefs, ext)
    ensures GetCurrentPreset(prefs, Upper(ext)) == GetCurrentPreset(prefs, ext)
    ensures GetCurrentPreset(prefs, Lower(ext)) == GetCurrentPreset(prefs, ext)
  {
    LowerOfUpper(ext);
    LowerIdempotent(ext);
  }

  // ---------------------------------------------------------------------------
  // list_presets.

  const PresetFileSuffix := ".py"

  /** `[f for f in names if f.endswith(".py")]`. */
  function PythonFiles(names: seq<string>): (files: seq<string>)
    ensures |files| <= |names|
    ensures forall f :: f in files <==> f in names && EndsWith(f, PresetFileSuffix)
    decreases |names|
  {
    if names == [] then []
    else
      var rest := PythonFiles(names[..|names| - 1]);
      assert forall f :: f in names <==> f in names[..|names| - 1] || f == names[|names| - 1];
      if EndsWith(names[|names| - 1], PresetFileSuffix) then rest + [names[|names| - 1]] else rest
  }

  /**
   * `list_presets` over the listing of the preset directory (`None` when the
   * directory does not exist): the Python files, each with every `.py` removed.
   */
  function ListPresets(listing: Option<seq<string>>): (presets: seq<string>)
    ensures listing.None? ==> presets == []
    ensures listing.Some? ==> |presets| == |PythonFiles(listing.value)|
  {
    match listing
    case None => []
    case Some(names) =>
      var files := PythonFiles(names);
      seq(|files|, i requires 0 <= i < |files| => RemoveAll(files[i], PresetFileSuffix))
  }

  /** The presets listed are exactly the names of the Python files with their `.py` removed. */
  lemma ListPresetsMembers(names: seq<string>, p: string)
    ensures p in ListPresets(Some(names)) <==>
      exists f :: f in names && EndsWith(f, PresetFileSuffix) && p == RemoveAll(f, PresetFileSuffix)
  {
    var files := PythonFiles(names);
    var presets := ListPresets(Some(names));
    if p in presets {
      var i :| 0 <= i < |presets| && presets[i] == p;
      assert files[i] in files;
    }
    if exists f :: f in names && EndsWith(f, PresetFileSuffix) && p == RemoveAll(f, PresetFileSuffix) {
      var f :| f in names && EndsWith(f, PresetFileSuffix) && p == RemoveAll(f, PresetFileSuffix);
      var i :| 0 <= i < |files| && files[i] == f;
      assert presets[i] == p;
    }
  }

  /** A preset saved as `<name>.py`, with no dot in the name, is listed as `<name>`. */
  lemma SavedPresetListed(names: seq<string>, name: string)
    requires '.' !in name && name + PresetFileSuffix in names
    ensures name in ListPresets(Some(names))
  {
    var f := name + PresetFileSuffix;
    assert f[|f| - |PresetFileSuffix|..] == PresetFileSuffix;
    RemoveAllAppended(name, PresetFileSuffix);
    ListPresetsMembers(names, name);
  }

  /** `[(p, p, p) for p in presets]`: enum items whose identifier, label and description are the preset name. */
  function EnumItems(presets: seq<string>): (items: seq<(string, string, string)>)
    ensures |items| == |presets|
    ensures forall i :: 0 <= i < |items| ==> items[i].0 == presets[i] && items[i].1 == presets[i] && items[i].2 == presets[i]
  {
    seq(|presets|, i requires 0 <= i < |presets| => (presets[i], presets[i], presets[i]))
  }

  // ---------------------------------------------------------------------------
  // What `from ..interop import …` finds.

  /** The names `interop` binds at module level: its imports, globals and functions. */
  const Defined: set<string> := {
    "bpy", "ctypes", "os", "typing",
    "is_load_native_library", "has_official_api", "log", "is_agree", "try_load", "try_unload",
    "selections", "get_msg_disp_mode", "get_current_preset", "list_presets", "load_preset",
    "parse_bool", "parse_float"
  }

  /** `from ..interop import names`: fails with ImportError on the first name `interop` does not define. */
  function ImportNames(names: seq<string>): (r: Result<(), string>)
    ensures r.Ok? <==> forall i :: 0 <= i < |names| ==> names[i] in Defined
    ensures r.Err? ==> r.error in names && r.error !in Defined
  {
    if names == [] then Ok(())
    else if names[0] !in Defined then Err(names[0])
    else
      var r := ImportNames(names[1..]);
      assert forall i :: 1 <= i < |names| ==> names[i] == names[1..][i - 1];
      r
  }
}
