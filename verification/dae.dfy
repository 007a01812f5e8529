/**
 * The Collada operators of `formats/dae.py`: their option table with its
 * defaults, what a preset does to the options, what the importer
 * `wm.collada_import` receives, and the import of `parse_int`, which
 * `interop` does not define.
 */
module DaeFormat {
  import opened Outcomes
  import opened Interop
  import opened Options
  import opened Importers

  const Dae := Format(
    extension := "dae",
    importerId := "wm.collada_import",
    presetSubdir := "operator\\wm.collada_import",
    options := [
      OptionSpec("import_units", Bool(false)),
      OptionSpec("custom_normals", Bool(true)),
      OptionSpec("fix_orientation", Bool(false)),
      OptionSpec("find_chains", Bool(false)),
      OptionSpec("auto_connect", Bool(false)),
      OptionSpec("min_chain_length", Int(0)),
      OptionSpec("keep_bind_info", Bool(false))
    ],
    sections := ["import_data_options_section", "armature_options_section"])

  /** What the module takes from `interop`. */
  const InteropImports := ["get_current_preset", "has_official_api", "list_presets", "load_preset", "log", "parse_bool", "parse_int"]

  /**
   * `interop` defines no `parse_int`, so importing the module raises
   * ImportError naming it: the operators below are never registered.
   */
  lemma ImportFails()
    ensures ImportNames(InteropImports) == Err("parse_int")
  {
  }

  /** No two options share a name. */
  lemma NamesDistinct()
    ensures DistinctNames(Dae.options)
  {
  }

  /** No option is called `filepath`, the keyword that carries the file. */
  lemma NoFilepath()
    ensures !Declares(Dae.options, "filepath")
  {
  }

  /** The panel toggles are not options. */
  lemma SectionsNotOptions()
    ensures forall s :: s in Dae.sections ==> !Declares(Dae.options, s) && s != "filepath"
  {
  }

  /**
   * The importer receives the file path and the seven options, each under its
   * own name, and nothing under any other name; in particular the panel
   * toggles `import_data_options_section` and `armature_options_section` are
   * not passed.
   */
  lemma ForwardsOptions(filepath: string, values: seq<Value>)
    requires Fits(Dae.options, values)
    ensures var args := ImportArgs(Dae.options, filepath, values);
      && |args| == 8
      && Argument(args, "filepath") == Some(Text(filepath))
      && (forall i :: 0 <= i < |values| ==> Argument(args, Dae.options[i].name) == Some(values[i]))
      && (forall name :: name != "filepath" && !Declares(Dae.options, name) ==> Argument(args, name).None?)
      && (forall s :: s in Dae.sections ==> Argument(args, s).None?)
  {
    NamesDistinct();
    NoFilepath();
    SectionsNotOptions();
    ImportArgsForward(Dae.options, filepath, values);
  }

  /**
   * A preset sets `min_chain_length` to `parse_int` of its entry and each of
   * the six boolean options it names to `parse_bool` of the entry; the options
   * it does not name keep their values.
   */
  lemma PresetEffect(values: seq<Value>, config: map<string, string>, p: Parsers)
    requires Fits(Dae.options, values)
    ensures var r := Overlay(Dae.options, values, config, p);
      && Fits(Dae.options, r)
      && ("min_chain_length" in config ==> r[5] == Int(p.parseInt(Some(config["min_chain_length"]))))
      && (forall i :: 0 <= i < |r| && i != 5 && Dae.options[i].name in config ==>
            r[i] == Bool(ParseBool(Some(config[Dae.options[i].name]))))
      && (forall i :: 0 <= i < |r| && Dae.options[i].name !in config ==> r[i] == values[i])
  {
    OverlayEffect(Dae.options, values, config, p);
    assert Dae.options[5].name == "min_chain_length";
  }

  /** A new custom-settings operator passes the declared defaults. */
  lemma DefaultImport(filepath: string)
    ensures ImportArgs(Dae.options, filepath, Defaults(Dae.options)) == [
      ("filepath", Text(filepath)),
      ("import_units", Bool(false)),
      ("custom_normals", Bool(true)),
      ("fix_orientation", Bool(false)),
      ("find_chains", Bool(false)),
      ("auto_connect", Bool(false)),
      ("min_chain_length", Int(0)),
      ("keep_bind_info", Bool(false))]
  {
  }
}
