/**
 * Blender as the add-on sees it: the preferences, the importers that exist,
 * where `bpy.utils.preset_find` finds presets, the files it can open, and a
 * record of every call the add-on makes into it.
 */
module HostApi {
  import opened Outcomes
  import opened Options
  import opened Interop

  /**
   * A call into Blender: `bpy.ops.wm.call_menu`, with the file name the menus
   * share at the moment of the call; `bpy.utils.preset_find`; or an importer
   * operator with its keyword arguments.
   */
  datatype HostCall =
    | CallMenu(name: string, sharedFilename: string)
    | PresetFind(name: string, presetPath: string)
    | RunOperator(idname: string, args: seq<(string, Value)>)

  class Blender {
    /** The add-on preferences. */
    const prefs: Preferences
    /** The operators `bpy.ops.import_scene` offers, as `hasattr` sees them. */
    const importers: set<string>
    /** `preset_find(name, preset_path)`: the file of a preset, when there is one. */
    const presets: map<(string, string), string>
    /** The files that `open` can read, as lines. */
    const files: map<string, seq<string>>
    /** The file names `os.listdir` finds in each existing preset directory, by preset path. */
    const presetDirs: map<string, seq<string>>
    /** Every call made so far, oldest first. */
    var calls: seq<HostCall>

    constructor (prefs: Preferences, importers: set<string>, presets: map<(string, string), string>,
                 files: map<string, seq<string>>, presetDirs: map<string, seq<string>>)
      ensures this.prefs == prefs && this.importers == importers
      ensures this.presets == presets && this.files == files && this.presetDirs == presetDirs && calls == []
    {
      this.prefs, this.importers, this.presets, this.files, this.presetDirs := prefs, importers, presets, files, presetDirs;
      calls := [];
    }

    /** `bpy.ops.wm.call_menu(name=name)`, while the menus' shared file name is `shared`. */
    method CallMenuNamed(name: string, shared: string)
      modifies this`calls
      ensures calls == old(calls) + [CallMenu(name, shared)]
    {
      calls := calls + [CallMenu(name, shared)];
    }

    /**
     * What `bpy.utils.preset_find(name, preset_path)` returns: nothing for an
     * empty name, which it rejects before searching; otherwise the preset file
     * found for the name under the preset path, if there is one.
     */
    function PresetFile(name: string, presetPath: string): (file: Option<string>)
      ensures name == "" ==> file.None?
      ensures name != "" && (name, presetPath) !in presets ==> file.None?
      ensures file.Some? ==> name != "" && file.value == presets[(name, presetPath)]
    {
      if name == "" then None else Lookup(presets, (name, presetPath))
    }

    /** `bpy.utils.preset_find(name=name, preset_path=presetPath)`: the file, or `None`. */
    method FindPreset(name: string, presetPath: string) returns (file: Option<string>)
      modifies this`calls
      ensures file == PresetFile(name, presetPath)
      ensures calls == old(calls) + [PresetFind(name, presetPath)]
    {
      calls := calls + [PresetFind(name, presetPath)];
      if name == "" {
        return None;
      }
      file := Lookup(presets, (name, presetPath));
    }

    /** The lines of a file; `None` when `open` raises, which it does for the path `None`. */
    function ReadLines(file: Option<string>): (lines: Option<seq<string>>)
      ensures file.None? ==> lines.None?
    {
      match file
      case None => None
      case Some(f) => Lookup(files, f)
    }

    /** `bpy.ops.<idname>(**args)`. */
    method Run(idname: string, args: seq<(string, Value)>)
      modifies this`calls
      ensures calls == old(calls) + [RunOperator(idname, args)]
    {
      calls := calls + [RunOperator(idname, args)];
    }
  }
}
