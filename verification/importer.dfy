/**
 * The three operators every format module declares: `Import…WithDefaults`,
 * `Import…WithCustomSettings` and `Import…WithPresetSettings`, which inherits
 * the properties of the custom-settings operator. They differ between formats
 * only in the importer they call, the preset directory, the extension whose
 * preferences they read and the table of options; a `Format` holds those.
 */
module Importers {
  import opened Outcomes
  import opened Interop
  import opened Options
  import opened PresetReader
  import opened HostApi

  datatype Format = Format(
    /** The `extension` attribute of the preset operator, whose preferences it reads. */
    extension: string,
    /** The `bpy.ops` importer the operators call. */
    importerId: string,
    /** The preset path given to `preset_find` and `list_presets`. */
    presetSubdir: string,
    /** The option properties, in the order the importer call passes them. */
    options: seq<OptionSpec>,
    /** The boolean properties that only open and close panels of `draw`. */
    sections: seq<string>)

  /** `Import…WithDefaults.execute`: the importer is called with the file path alone. */
  method ExecuteDefaults(host: Blender, format: Format, filepath: string) returns (r: string)
    modifies host`calls
    ensures host.calls == old(host.calls) + [RunOperator(format.importerId, [("filepath", Text(filepath))])]
    ensures r == "FINISHED"
  {
    host.Run(format.importerId, [("filepath", Text(filepath))]);
    return "FINISHED";
  }

  /** `get_presets`: one enum item per preset found in the format's preset directory. */
  function GetPresets(host: Blender, format: Format): (items: seq<(string, string, string)>)
    ensures var presets := ListPresets(Lookup(host.presetDirs, format.presetSubdir));
      |items| == |presets| && forall i :: 0 <= i < |items| ==> items[i] == (presets[i], presets[i], presets[i])
  {
    EnumItems(ListPresets(Lookup(host.presetDirs, format.presetSubdir)))
  }

  /** The operator object of `Import…WithPresetSettings` (and of the custom-settings operator it extends). */
  class Importer {
    const format: Format
    /** The option properties, aligned with `format.options`. */
    var values: seq<Value>
    /** The panel toggles, aligned with `format.sections`. */
    var sections: seq<bool>

    ghost predicate Valid()
      reads this
    {
      Fits(format.options, values) && |sections| == |format.sections|
    }

    /** The operator with every property at its declared default; every panel starts open. */
    constructor (format: Format)
      ensures this.format == format && Valid()
      ensures values == Defaults(format.options)
      ensures sections == seq(|format.sections|, _ => true)
    {
      this.format := format;
      values := Defaults(format.options);
      sections := seq(|format.sections|, _ => true);
    }

    /** The custom-settings `execute`: the importer is called with the file path and every option by name. */
    method ExecuteCustom(host: Blender, filepath: string) returns (r: string)
      requires Valid()
      modifies host`calls
      ensures host.calls == old(host.calls) + [RunOperator(format.importerId, ImportArgs(format.options, filepath, values))]
      ensures r == "FINISHED"
    {
      host.Run(format.importerId, ImportArgs(format.options, filepath, values));
      return "FINISHED";
    }

    /**
     * The assignments of the preset `execute`, which the source writes out as
     * one `if` per option: each option named in the preset takes the converted
     * entry.
     */
    method ApplyPreset(config: map<string, string>, p: Parsers)
      requires Valid()
      modifies this`values
      ensures Valid()
      ensures values == Overlay(format.options, old(values), config, p)
    {
      ghost var goal := Overlay(format.options, values, config, p);
      OverlayEffect(format.options, values, config, p);
      var i := 0;
      while i < |format.options|
        invariant 0 <= i <= |format.options| == |values|
        invariant forall j :: 0 <= j < i ==> values[j] == goal[j]
        invariant forall j :: i <= j < |values| ==> values[j] == old(values)[j]
      {
        var spec := format.options[i];
        if spec.name in config {
          values := values[i := Convert(KindOf(spec.initial), config[spec.name], p)];
        }
        i := i + 1;
      }
    }

    /**
     * The preset `execute`: find the preset chosen for the extension, load it,
     * overlay it on the options, then import as the custom-settings `execute`
     * does. When the preset cannot be opened or parsed the exception leaves the
     * options as they were and nothing is imported. The panel toggles are
     * neither read nor changed.
     */
    method ExecutePreset(host: Blender, filepath: string, p: Parsers) returns (r: Result<string, PresetError>)
      requires Valid()
      modifies this`values, host`calls
      ensures Valid()
      ensures var name := GetCurrentPreset(host.prefs, format.extension);
        var loaded := ReadPreset(host.ReadLines(host.PresetFile(name, format.presetSubdir)));
        && (loaded.Err? ==>
              && r == Err(loaded.error) && values == old(values)
              && host.calls == old(host.calls) + [PresetFind(name, format.presetSubdir)])
        && (loaded.Ok? ==>
              && r == Ok("FINISHED") && values == Overlay(format.options, old(values), loaded.value, p)
              && host.calls == old(host.calls) +
                   [PresetFind(name, format.presetSubdir), RunOperator(format.importerId, ImportArgs(format.options, filepath, values))])
      ensures GetCurrentPreset(host.prefs, format.extension) == "" ==> r == Err(FileMissing) && values == old(values)
    {
      var name := GetCurrentPreset(host.prefs, format.extension);
      var file := host.FindPreset(name, format.presetSubdir);
      var lines := host.ReadLines(file);
      if lines.None? {
        return Err(FileMissing);
      }
      var loaded := LoadPreset(lines.value);
      if loaded.Err? {
        return Err(loaded.error);
      }
      ApplyPreset(loaded.value, p);
      var _ := ExecuteCustom(host, filepath);
      return Ok("FINISHED");
    }
  }
}
