/**
 * The Universal Scene Description operators of `formats/usd.py`: their option
 * table with its defaults, what a preset does to the options, and the import
 * of `parse_int`, which `interop` does not define.
 */
module UsdFormat {
  import opened Outcomes
  import opened Interop
  import opened Options
  import opened Importers

  const Usd := Format(
    extension := "usd",
    importerId := "wm.usd_import",
    presetSubdir := "operator\\wm.usd_import",
    options := [
      OptionSpec("relative_path", Bool(true)),
      OptionSpec("scale", Float(1.0)),
      OptionSpec("set_frame_range", Bool(true)),
      OptionSpec("import_cameras", Bool(true)),
      OptionSpec("import_curves", Bool(true)),
      OptionSpec("import_lights", Bool(true)),
      OptionSpec("import_materials", Bool(true)),
      OptionSpec("import_meshes", Bool(true)),
      OptionSpec("import_volumes", Bool(true)),
      OptionSpec("import_shapes", Bool(true)),
      OptionSpec("import_skeletons", Bool(true)),
      OptionSpec("import_blendshapes", Bool(true)),
      OptionSpec("import_subdiv", Bool(false)),
      OptionSpec("import_instance_proxies", Bool(true)),
      OptionSpec("import_visible_only", Bool(true)),
      OptionSpec("create_collection", Bool(false)),
      OptionSpec("read_mesh_uvs", Bool(true)),
      OptionSpec("read_mesh_colors", Bool(true)),
      OptionSpec("read_mesh_attributes", Bool(true)),
      OptionSpec("prim_path_mask", Text("")),
      OptionSpec("import_guide", Bool(false)),
      OptionSpec("import_proxy", Bool(true)),
      OptionSpec("import_render", Bool(true)),
      OptionSpec("import_all_materials", Bool(false)),
      OptionSpec("import_usd_preview", Bool(true)),
      OptionSpec("set_material_blend", Bool(true)),
      OptionSpec("light_intensity_scale", Float(1.0)),
      OptionSpec("mtl_name_collision_mode", Text("MAKE_UNIQUE")),
      OptionSpec("import_textures_mode", Text("IMPORT_PACK")),
      OptionSpec("import_textures_dir", Text("//textures/")),
      OptionSpec("tex_name_collision_mode", Text("USE_EXISTING"))
    ],
    sections := [])

  /** The items of the three enum options; nothing holds a value to them. */
  const MtlNameCollisionModes := ["MAKE_UNIQUE", "REFERENCE_EXISTING"]
  const ImportTexturesModes := ["IMPORT_NONE", "IMPORT_PACK", "IMPORT_COPY"]
  const TexNameCollisionModes := ["USE_EXISTING", "OVERWRITE"]

  /** What the module takes from `interop`. */
  const InteropImports := ["get_current_preset", "has_official_api", "list_presets", "load_preset", "log", "parse_bool", "parse_int", "parse_float"]

  /**
   * `interop` defines no `parse_int`, so importing the module raises
   * ImportError naming it, although nothing in the module calls `parse_int`.
   */
  lemma ImportFails()
    ensures ImportNames(InteropImports) == Err("parse_int")
  {
  }

  /** No option is called `filepath`, the keyword that carries the file. */
  lemma NoFilepath()
    ensures !Declares(Usd.options, "filepath")
  {
  }

  /**
   * A preset sets each boolean option it names to `parse_bool` of the entry;
   * the options it does not name keep their values.
   */
  lemma PresetBooleans(values: seq<Value>, config: map<string, string>, p: Parsers)
    requires Fits(Usd.options, values)
    ensures var r := Overlay(Usd.options, values, config, p);
      && Fits(Usd.options, r)
      && (forall i :: 0 <= i < |r| && Usd.options[i].initial.Bool? && Usd.options[i].name in config ==>
            r[i] == Bool(ParseBool(Some(config[Usd.options[i].name]))))
      && (forall i :: 0 <= i < |r| && Usd.options[i].name !in config ==> r[i] == values[i])
  {
    OverlayEffect(Usd.options, values, config, p);
    OverlayBooleans(Usd.options, values, config, p);
  }

  /** A preset sets `scale` and `light_intensity_scale` to `parse_float` of their entries. */
  lemma PresetFloats(values: seq<Value>, config: map<string, string>, p: Parsers)
    requires |values| == |Usd.options|
    ensures var r := Overlay(Usd.options, values, config, p);
      && ("scale" in config ==> r[1] == Float(ParseFloat(Some(config["scale"]), p.float)))
      && ("light_intensity_scale" in config ==> r[26] == Float(ParseFloat(Some(config["light_intensity_scale"]), p.float)))
  {
  }

  /**
   * A preset's entries for the string and enum options are taken verbatim,
   * with no check against the enum items.
   */
  lemma PresetTexts(values: seq<Value>, config: map<string, string>, p: Parsers)
    requires |values| == |Usd.options|
    ensures var r := Overlay(Usd.options, values, config, p);
      && ("prim_path_mask" in config ==> r[19] == Text(config["prim_path_mask"]))
      && ("mtl_name_collision_mode" in config ==> r[27] == Text(config["mtl_name_collision_mode"]))
      && ("import_textures_mode" in config ==> r[28] == Text(config["import_textures_mode"]))
      && ("import_textures_dir" in config ==> r[29] == Text(config["import_textures_dir"]))
      && ("tex_name_collision_mode" in config ==> r[30] == Text(config["tex_name_collision_mode"]))
  {
    forall i | i in [19, 27, 28, 29, 30] && Usd.options[i].name in config
      ensures Overlay(Usd.options, values, config, p)[i] == Text(config[Usd.options[i].name])
    {
      OverlayText(Usd.options, values, config, p, i);
    }
  }

  /**
   * The preset `execute` checks no enum entry against the enum's items before
   * assigning it: the value it hands to the assignment is the entry verbatim,
   * even one that is none of the items. Blender itself rejects such an
   * assignment with a `TypeError`; that check belongs to Blender and is not
   * part of `Overlay`.
   */
  lemma EnumNotChecked(values: seq<Value>, p: Parsers)
    requires Fits(Usd.options, values)
    ensures var r := Overlay(Usd.options, values, map["import_textures_mode" := "IMPORT_ALL"], p);
      r[28] == Text("IMPORT_ALL") && "IMPORT_ALL" !in ImportTexturesModes
  {
    OverlayEffect(Usd.options, values, map["import_textures_mode" := "IMPORT_ALL"], p);
    assert Usd.options[28].name == "import_textures_mode";
  }

  /** A new custom-settings operator passes the declared defaults. */
  lemma DefaultImport(filepath: string)
    ensures var args := ImportArgs(Usd.options, filepath, Defaults(Usd.options));
      && |args| == 32 && args[0] == ("filepath", Text(filepath))
      && args[13] == ("import_subdiv", Bool(false))
      && args[16] == ("create_collection", Bool(false))
      && args[28] == ("mtl_name_collision_mode", Text("MAKE_UNIQUE"))
      && args[29] == ("import_textures_mode", Text("IMPORT_PACK"))
      && args[30] == ("import_textures_dir", Text("//textures/"))
  {
  }
}
