/**
 * The Alembic operators of `formats/abc.py`: their option table with its
 * defaults, what a preset does to the options, and what the importer
 * `wm.alembic_import` receives.
 */
module AbcFormat {
  import opened Outcomes
  import opened Interop
  import opened Options
  import opened Importers

  const Abc := Format(
    extension := "abc",
    importerId := "wm.alembic_import",
    presetSubdir := "operator\\wm.alembic_import",
    options := [
      OptionSpec("relative_path", Bool(true)),
      OptionSpec("scale", Float(1.0)),
      OptionSpec("set_frame_range", Bool(true)),
      OptionSpec("validate_meshes", Bool(false)),
      OptionSpec("always_add_cache_reader", Bool(false)),
      OptionSpec("is_sequence", Bool(false))
    ],
    sections := ["manual_transform_section", "options_section"])

  /** What the module takes from `interop`. */
  const InteropImports := ["get_current_preset", "has_official_api", "list_presets", "load_preset", "log", "parse_bool", "parse_float"]

  /** Every name the module imports from `interop` is defined there, so the module loads. */
  lemma ImportsResolve()
    ensures ImportNames(InteropImports).Ok?
  {
  }

  /** No two options share a name. */
  lemma NamesDistinct()
    ensures DistinctNames(Abc.options)
  {
  }

  /** No option is called `filepath`, the keyword that carries the file. */
  lemma NoFilepath()
    ensures !Declares(Abc.options, "filepath")
  {
  }

  /** The panel toggles are not options. */
  lemma SectionsNotOptions()
    ensures forall s :: s in Abc.sections ==> !Declares(Abc.options, s) && s != "filepath"
  {
  }

  /**
   * The importer receives the file path and the six options, each under its
   * own name, and nothing under any other name; in particular the panel
   * toggles are not passed.
   */
  lemma ForwardsOptions(filepath: string, values: seq<Value>)
    requires Fits(Abc.options, values)
    ensures var args := ImportArgs(Abc.options, filepath, values);
      && |args| == 7
      && Argument(args, "filepath") == Some(Text(filepath))
      && (forall i :: 0 <= i < |values| ==> Argument(args, Abc.options[i].name) == Some(values[i]))
      && (forall name :: name != "filepath" && !Declares(Abc.options, name) ==> Argument(args, name).None?)
      && (forall s :: s in Abc.sections ==> Argument(args, s).None?)
  {
    NamesDistinct();
    NoFilepath();
    SectionsNotOptions();
    ImportArgsForward(Abc.options, filepath, values);
  }

  /**
   * A preset sets `scale` to `parse_float` of its entry and each of the five
   * boolean options it names to `parse_bool` of the entry; the options it does
   * not name keep their values.
   */
  lemma PresetEffect(values: seq<Value>, config: map<string, string>, p: Parsers)
    requires Fits(Abc.options, values)
    ensures var r := Overlay(Abc.options, values, config, p);
      && Fits(Abc.options, r)
      && ("scale" in config ==> r[1] == Float(ParseFloat(Some(config["scale"]), p.float)))
      && (forall i :: 0 <= i < |r| && i != 1 && Abc.options[i].name in config ==>
            r[i] == Bool(ParseBool(Some(config[Abc.options[i].name]))))
      && (forall i :: 0 <= i < |r| && Abc.options[i].name !in config ==> r[i] == values[i])
  {
    OverlayEffect(Abc.options, values, config, p);
    assert Abc.options[1].name == "scale";
  }

  /** A new custom-settings operator passes the declared defaults. */
  lemma DefaultImport(filepath: string)
    ensures ImportArgs(Abc.options, filepath, Defaults(Abc.options)) == [
      ("filepath", Text(filepath)),
      ("relative_path", Bool(true)),
      ("scale", Float(1.0)),
      ("set_frame_range", Bool(true)),
      ("validate_meshes", Bool(false)),
      ("always_add_cache_reader", Bool(false)),
      ("is_sequence", Bool(false))]
  {
  }
}
