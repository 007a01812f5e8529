# Drag-and-drop import for Blender, modelled in Dafny

The add-on lets a user drop a 3D file onto Blender's 3D viewport and import it.
It has two ways in, depending on the Blender version:

- **Older Blender, on Windows:** a native library hooks the drop. It is loaded by `try_load` only after the user has accepted the security notice.
- **Newer Blender:** the official `FileHandler` classes route the drop to the operator `object.drop_event_listener`.

Either way, the operator takes the extension of the dropped file. It refuses `vrm` when no VRM importer is installed, and otherwise opens the menu `VIEW3D_MT_Space_Import_<EXT>`. From that menu the user imports with defaults, with custom settings, or with a saved operator preset. A preset is a Python file that Blender writes: the lines `import bpy` and `op = bpy.context.active_operator`, an empty line, then one line `op.<name> = <value>` per option, the value printed with Python's `repr` (bare for a number or a boolean, between quotes for a string). `load_preset` reads it into a map, and the preset operator of each format (Alembic, Collada, USD) overlays the map on its options before calling Blender's importer.

The model is split into these modules:

- `PyStr` (`pystr.dfy`): the Python string operations the add-on uses.
- `PresetReader` (`preset_reader.dfy`): `load_preset`, as a loop method proved equal to a fold over the classified lines. Reference definitions read those lines backwards, and a round trip covers files laid out as Blender writes them, header included.
- `PresetWriter` (`preset_writer.dfy`): Blender's preset writer, which is not part of the add-on. It serves as the partner of `load_preset` and the preset `execute`. `Render` prints a value as `%r` does: `True`/`False`, decimal digits (`DigitChar`, `Digits`, `IntRepr`), Python's float `repr` as a parameter, or a string between quotes. `Saved` gives one entry per option. These definitions are a reference, not a model of add-on code, so they have no rows in the table below. The lemmas that tie them to the reader and the overlay do: options saved as a preset and loaded back are restored.
- `Interop` (`interop.dfy`): `parse_bool`, `parse_float`, the preference lookups with their fallbacks, `list_presets`, and what `from ..interop import …` finds.
- `NativeLoader` (`native.dfy`): `try_load`/`try_unload`. They are written as a step function with lemmas over whole runs, and as a class whose methods update the two module globals.
- `HostApi` (`host.dfy`): Blender as the add-on sees it. It holds the preferences, the importers, the preset files and a record of every call made into it.
- `Options` (`options.dfy`): an importer's option table and the meaning shared by the three preset `execute` methods. Each option named in the preset takes the converted entry, and the importer receives every option by name.
- `Importers` (`importer.dfy`): the three operators of a format, as methods of a class that holds the option values.
- `AbcFormat`, `DaeFormat`, `UsdFormat` (`abc.dfy`, `dae.dfy`, `usd.dfy`): each format's option table, defaults, preset effect and imports.
- `Dispatch` (`dispatch.dfy`): `os.path.splitext` as Windows' `ntpath` defines it, the menu name, the `conditionals` gate, and the `DropEventListener` operator.
- `Menus` (`menus.dfy`): the menus and file handlers each format module declares, which modules load, the menus' `format()`, and `poll_drop`.

A few behaviours of the code are easy to miss, and the model follows the code in each case:

- A final `=` line without the `op.` prefix still lands in the preset map. This is the store after the loop at `src/addon/interop.py:133`, so a file holding only `foo = "bar"` yields `{"foo": "bar"}` and not an empty map.
- `invoke` returns `FINISHED` unless `bpy.ops.wm.call_menu` raises something other than a `TypeError`. Such an exception propagates, because only `TypeError` is caught (`src/addon/operator.py:39-51`).
- Both `dae.py` and `usd.py` import `parse_int`, which `interop` does not define. Only the Alembic module loads, so only its menu and file handler can be registered. Every module declares its file handlers only when `has_official_api()` holds, so on an older host there is no handler at all.

## Model

| member | source | states |
|---|---|---|
| PyStr.Strip | src/addon/interop.py:114 | `strip()` leaves no white space at either end and never lengthens the text |
| PyStr.StripPadded | src/addon/interop.py:114 | `strip()` removes exactly the white space around the text and keeps the text |
| PyStr.IndexOf | src/addon/interop.py:116 | the first `=` found is an `=` with none before it |
| PyStr.RemoveAll | src/addon/interop.py:103 | `replace(pat, "")` never lengthens and is the identity when `pat` does not occur |
| PyStr.RemoveAllAppended | src/addon/interop.py:103 | a trailing `.py` is removed from a name that holds no other `.` |
| PyStr.LowerIdempotent | src/addon/interop.py:84 | lower-casing twice is lower-casing once |
| PyStr.LowerOfUpper | src/addon/interop.py:84 | lower-casing forgets an earlier upper-casing |
| PyStr.UpperHasNoLowerCase | src/addon/operator.py:48 | upper-cased text holds no lower-case ASCII letter |
| PresetReader.ClassifyStripped | src/addon/interop.py:115-126 | a stripped line is skipped exactly when it holds no `=`; an assignment's key and value carry no surrounding white space |
| PresetReader.Step | src/addon/interop.py:114-132 | one iteration raises exactly on a line with two or more `=`; a line without `=` changes nothing; an `=` line binds `key`/`value` and never removes a key from the map |
| PresetReader.Fold | src/addon/interop.py:112-132 | when the loop completes, no line held two `=`; when it raises, it names a line that did |
| PresetReader.Conclude | src/addon/interop.py:133 | the store after the loop fails exactly when no `key` was bound, passes a loop error on unchanged, and keeps every key of the loop's map plus the last bound key |
| PresetReader.ParsePreset | src/addon/interop.py:108-135 | a returned map means no line held two `=`; otherwise the error is the unbound `key` or a line number of the file |
| PresetReader.Kinds | src/addon/interop.py:113-114 | each line of the file is classified on its own |
| PresetReader.LoadPreset | src/addon/interop.py:108-135 | the loop over the lines, followed by the store after it, returns what `ParsePreset` specifies |
| PresetReader.ReadLine | src/addon/interop.py:114-116 | the head of the loop body classifies the stripped line |
| PresetReader.ReadStripped | src/addon/interop.py:115-126 | split at `=`, strip the key, then strip, unquote once and strip the value |
| PresetReader.ClassifyMultiple | src/addon/interop.py:116 | a second `=` makes the two-target unpacking raise |
| PresetReader.ClassifySingle | src/addon/interop.py:116-126 | a single `=` yields the stripped key and the cleaned value |
| PresetReader.RaisesAt | src/addon/interop.py:113-116 | the loop raises at the first line holding two `=` |
| PresetReader.FoldStopsAtError | src/addon/interop.py:113-116 | once raised, the rest of the file is not read |
| PresetReader.FoldFailsAtFirstMultipleEquals | src/addon/interop.py:113-116 | the loop raises if and only if some line holds two or more `=`, and it names the first such line |
| PresetReader.FoldComputes | src/addon/interop.py:113-132 | otherwise each key maps to the value of its last accepted line, and `key`/`value` hold the last `=` line |
| PresetReader.LastAssignmentIsLastValue | src/addon/interop.py:128-133 | an accepted last `=` line is the last line for its key |
| PresetReader.ConcludeLastWins | src/addon/interop.py:133 | when the last `=` line is accepted, the store after the loop changes nothing |
| PresetReader.NoAssignmentLines | src/addon/interop.py:133 | there is no last `=` line if and only if no line holds exactly one `=` |
| PresetReader.ParsePresetOutcome | src/addon/interop.py:108-135 | ValueError if and only if a line holds two `=` (the first is named); the unbound `key` error if and only if no stripped line holds `=`; a map otherwise |
| PresetReader.ParsePresetEntries | src/addon/interop.py:113-133 | the returned map: the last `=` line's pair, and otherwise the last accepted value per key |
| PresetReader.ParsePresetLastWins | src/addon/interop.py:128-133 | later lines overwrite earlier ones for the same key |
| PresetReader.ParsePresetLeaksLastLine | src/addon/interop.py:128-133 | a final `=` line without `op.` still adds its raw key and value |
| PresetReader.UnquoteRendered | src/addon/interop.py:121-124 | the quotes `repr` puts around a string are removed, and a bare value is kept |
| PresetReader.RenderedNoSpace | src/addon/interop.py:119-126 | a written value, quoted or bare, has no white space at its ends and no `=` |
| PresetReader.CleanRendered | src/addon/interop.py:119-126 | the text after ` = ` of a written line cleans to the value |
| PresetReader.StripKeyPart | src/addon/interop.py:117 | the key part of a written line strips to the key |
| PresetReader.WrittenLineUnstripped | src/addon/interop.py:114 | a written line is not changed by `strip()` |
| PresetReader.ClassifySplit | src/addon/interop.py:115-126 | a line with one `=` is cut there into the stripped key and the cleaned value |
| PresetReader.ClassifyWritten | src/addon/interop.py:115-126 | a stripped `k = v` line, bare or quoted, is read as key `k` and value `v` |
| PresetReader.ClassifyAssignmentLine | src/addon/interop.py:114-126 | so is the line before stripping |
| PresetReader.KeyOfPrefixed | src/addon/interop.py:131 | `replace("op.", "")` removes exactly the prefix from `op.<key>` |
| PresetReader.ReadPresetLine | src/addon/interop.py:114-126 | a written `op.<key> = <value>` line classifies as that assignment |
| PresetReader.WrittenKindBinds | src/addon/interop.py:128-132 | such a line is accepted and binds its key and value |
| PresetReader.HeaderLineKind | src/addon/interop.py:114-126 | `import bpy` and the empty line are skipped; `op = bpy.context.active_operator` holds one `=` |
| PresetReader.KindsOfWrittenPreset | src/addon/interop.py:113-126 | a written file classifies as the header's kinds followed by one assignment per option |
| PresetReader.LastValueForAppend | src/addon/interop.py:128-132 | in two runs of lines, a key's last accepted value comes from the second run if it has one |
| PresetReader.LastValueForWritten | src/addon/interop.py:128-132 | over written lines, the last value per key is the last entry's |
| PresetReader.HeaderAcceptsNothing | src/addon/interop.py:128-129 | the header's `op = …` line is not an `op.` line, so the loop adds nothing for it |
| PresetReader.WrittenNoMultipleEquals | src/addon/interop.py:116 | no line of a written file holds two `=` |
| PresetReader.ParseWrittenKinds | src/addon/interop.py:113-133 | the loop and the store after it give each written key its last value, the header adding nothing |
| PresetReader.PresetRoundTrip | src/addon/interop.py:108-135 | a file written by Blender with at least one option parses to each option's last value, quotes removed |
| PresetReader.HeaderOnlyPreset | src/addon/interop.py:128-133 | a written file without options gives `{"op": "bpy.context.active_operator"}`, added by the store after the loop |
| PresetReader.LastEntryDistinct | src/addon/interop.py:128-132 | with distinct keys, each key's last entry is its only one |
| PresetReader.PresetRoundTripSize | src/addon/interop.py:108-135 | with distinct keys, the map has exactly those keys, as many entries as options, each holding its own value |
| PresetReader.ConcludeOneAssignment | src/addon/interop.py:133 | one `=` line gives the one-entry map of its binding |
| PresetReader.SingleLinePreset | src/addon/interop.py:108-135 | the file `op.k = v`, bare or quoted, gives `{k: v}` |
| PresetReader.SingleUnprefixedLine | src/addon/interop.py:128-133 | the file `k = v` without `op.` still gives `{k: v}` |
| PresetReader.EmptyFileExample | src/addon/interop.py:133 | an empty file fails on the unbound `key` |
| PresetWriter.RenderWritable | src/addon/interop.py:114-126 | the written text of a restorable value passes through a preset line unchanged |
| PresetWriter.ConvertRendered | src/addon/formats/abc.py:92-108 | the written text of a restorable value converts back to it: `parse_bool`, `parse_float`, `parse_int` or verbatim |
| PresetWriter.SavedWritable | src/addon/interop.py:114-126 | options with writable names and restorable values are saved as entries a preset line carries unchanged |
| PresetWriter.SavedDistinct | src/addon/formats/abc.py:35-40 | options with distinct names are saved under distinct keys |
| PresetWriter.SavedPresetRestoresOptions | src/addon/formats/abc.py:84-108 | options saved as a Blender preset, then loaded and overlaid on any option values, are restored exactly |
| PresetWriter.RestoresOption | src/addon/formats/abc.py:92-108 | an option whose saved text the preset holds under its name gets its saved value back, whatever it held before |
| Interop.ParseBool | src/addon/interop.py:138-141 | `None` gives false, and only a four-letter text can give true |
| Interop.ParseBoolSpellings | src/addon/interop.py:138-141 | `parse_bool` is true exactly for the sixteen mixed-case spellings of `true` |
| Interop.ParseBoolRepr | src/addon/interop.py:138-141 | the text Python writes for a boolean reads back as that boolean |
| Interop.ParseFloat | src/addon/interop.py:144-150 | the result is `0.0` or the number `float()` reads from the text |
| Interop.ParseFloatFallback | src/addon/interop.py:144-150 | `None` and text that `float()` rejects give `0.0` |
| Interop.ParseFloatReadsBack | src/addon/interop.py:144-150 | text that `float()` reads as `x`, such as `repr(x)`, gives `x` |
| Interop.GetMsgDispMode | src/addon/interop.py:82-87 | a missing `<ext>_disp_option` falls back to `ASKALWAYS` |
| Interop.GetCurrentPreset | src/addon/interop.py:90-95 | a missing `<ext>_preset` falls back to the empty name |
| Interop.DispModeIsSelection | src/addon/interop.py:75-87 | with enum-valued preferences the mode is always one of the three selections |
| Interop.LookupsIgnoreCase | src/addon/interop.py:82-95 | both lookups give the same answer for an extension in any case |
| Interop.PythonFiles | src/addon/interop.py:102 | exactly the names ending in `.py` are kept |
| Interop.ListPresets | src/addon/interop.py:98-105 | a missing directory gives `[]`; otherwise there is one preset per Python file |
| Interop.ListPresetsMembers | src/addon/interop.py:98-105 | a name is listed if and only if it is a `.py` file name with every `.py` removed |
| Interop.SavedPresetListed | src/addon/interop.py:98-105 | a preset saved as `<name>.py` is listed as `<name>` |
| Interop.EnumItems | src/addon/formats/abc.py:82 | each preset `p` becomes the item `(p, p, p)`, in order |
| Interop.ImportNames | src/addon/formats/abc.py:18 | the import succeeds if and only if `interop` defines every name; otherwise it names a missing one |
| NativeLoader.Apply | src/addon/interop.py:32-72 | every request keeps "loaded implies a handle" |
| NativeLoader.Run | src/addon/interop.py:32-72 | so does every run of requests |
| NativeLoader.LoadStep | src/addon/interop.py:32-55 | with the official API nothing happens; the flag ends raised iff it was raised or a consented load succeeded, keeping the new handle; `LoadLibrary` is called iff consent was given, without the API, while not loaded |
| NativeLoader.UnloadStep | src/addon/interop.py:58-72 | the flag ends raised iff it was raised and `FreeLibrary` failed; the handle is kept; `FreeLibrary` is called iff the library was loaded |
| NativeLoader.LoadGating | src/addon/interop.py:32-55 | with the official API nothing happens; without consent it only logs; while loaded it only logs; the flag rises only with consent and a successful load |
| NativeLoader.LoadOutcome | src/addon/interop.py:44-53 | an attempted load calls `LoadLibrary` and sets the flag exactly when it returned, keeping the handle |
| NativeLoader.UnloadOutcome | src/addon/interop.py:58-72 | nothing happens when not loaded; otherwise `FreeLibrary` is called on the handle and the flag clears exactly when it returned |
| NativeLoader.BalanceAppend | src/addon/interop.py:32-72 | counting successful loads minus unloads is additive over a log |
| NativeLoader.ApplyBalance | src/addon/interop.py:32-72 | one request moves that count by the change of the flag |
| NativeLoader.RunBalance | src/addon/interop.py:32-72 | over a whole run, the count of successful loads minus unloads is the flag at the end minus the flag at the start |
| NativeLoader.ApplyAlternates | src/addon/interop.py:32-72 | within one request's effects the count never leaves 0 or 1 |
| NativeLoader.RunAlternates | src/addon/interop.py:32-72 | at every point of any run's log the count is 0 or 1: never two successful loads without an unload between, never an unload before a load |
| NativeLoader.BalanceWithoutUnload | src/addon/interop.py:59-72 | a stretch of log with no successful unload never lowers the count |
| NativeLoader.BalanceWithoutLoad | src/addon/interop.py:32-55 | a stretch of log with no successful load never raises the count |
| NativeLoader.AlternatingSeparates | src/addon/interop.py:32-72 | in a log whose count stays at 0 or 1, two successful loads have a successful unload between them, and two unloads a load |
| NativeLoader.LoadsAndUnloadsAlternate | src/addon/interop.py:32-72 | along any run, between any two successful loads the log shows a successful unload and between any two successful unloads a successful load: never loaded twice, never freed twice |
| NativeLoader.LoadedOnlyWithConsent | src/addon/interop.py:36-50 | from the unloaded state, ending loaded needs a consented, successful load without the official API |
| NativeLoader.OfficialApiNeverLoads | src/addon/interop.py:19-37 | with the official API no run ever calls `LoadLibrary` or `FreeLibrary` |
| NativeLoader.NativeLibrary.constructor | src/addon/interop.py:15-16 | the module starts unloaded, with no handle |
| NativeLoader.NativeLibrary.TryLoad | src/addon/interop.py:32-55 | the globals become the load step's state, and its effects are appended |
| NativeLoader.NativeLibrary.TryUnload | src/addon/interop.py:58-72 | the globals become the unload step's state, and its effects are appended |
| HostApi.Blender.CallMenuNamed | src/addon/operator.py:35 | the `call_menu` call is recorded, with the file name the menus share when it is made |
| HostApi.Blender.PresetFile | src/addon/formats/abc.py:84-86 | `preset_find` finds nothing for the empty name that `get_current_preset` falls back to, and otherwise the preset file of that name, if any |
| HostApi.Blender.FindPreset | src/addon/formats/abc.py:84-86 | the call returns what `PresetFile` says, and is recorded |
| HostApi.Blender.ReadLines | src/addon/interop.py:112 | `open(None)` fails |
| HostApi.Blender.Run | src/addon/formats/abc.py:63-71 | the importer call is recorded with its keyword arguments |
| Options.Convert | src/addon/formats/usd.py:195-286 | a preset entry becomes a value of the option's own kind |
| Options.Overlaid | src/addon/formats/abc.py:92-108 | an option without a preset entry keeps its value; with one it takes a value of its own kind |
| Options.OverlaidEffect | src/addon/formats/abc.py:92-108 | an option is untouched without an entry; with one it becomes `parse_bool`, `parse_float`, `parse_int` or the verbatim entry, as its kind says |
| Options.Defaults | src/addon/formats/abc.py:35-40 | a new operator holds every declared default |
| Options.Overlay | src/addon/formats/abc.py:92-108 | one value per option, and every option whose name is not a preset key keeps its value |
| Options.OverlayEffect | src/addon/formats/abc.py:92-108 | only options whose names are preset keys change, each to its converted entry; kinds are kept |
| Options.OverlayBooleans | src/addon/formats/usd.py:195-271 | every boolean option named in the preset becomes `parse_bool` of its entry |
| Options.OverlayEmpty | src/addon/formats/abc.py:92-108 | an empty preset changes nothing |
| Options.OverlayIgnoresOtherKeys | src/addon/formats/abc.py:92-108 | preset keys that name no option have no effect |
| Options.OverlayTwice | src/addon/formats/abc.py:92-108 | two presets applied in turn act as their merge, the later winning; applying one twice is applying it once |
| Options.ImportArgs | src/addon/formats/abc.py:63-71 | the importer gets the file path and then one argument per option |
| Options.Argument | src/addon/formats/abc.py:63-71 | a keyword is found if and only if some argument carries it |
| Options.ArgumentAt | src/addon/formats/abc.py:63-71 | the value found is that of the first argument with the name |
| Options.ImportArgsForward | src/addon/formats/abc.py:63-71 | with distinct names, the importer finds the file path, each option's value under its name, and nothing else |
| Importers.ExecuteDefaults | src/addon/formats/abc.py:25-27 | the importer is called with the file path alone; `FINISHED` |
| Importers.GetPresets | src/addon/formats/abc.py:81-82 | one `(p, p, p)` item per preset in the format's preset directory |
| Importers.Importer.constructor | src/addon/formats/abc.py:35-43 | every option at its declared default; every panel open |
| Importers.Importer.ExecuteCustom | src/addon/formats/abc.py:62-73 | the importer is called with the file path and every option by name; `FINISHED` |
| Importers.Importer.ApplyPreset | src/addon/formats/abc.py:92-108 | the run of `if config.get(name) is not None` assignments yields the overlay of the preset |
| Importers.Importer.ExecutePreset | src/addon/formats/abc.py:84-111 | the preset of the format's extension is found and loaded; on failure nothing changes and nothing is imported; otherwise the overlaid options are imported; `FINISHED`; with no preset chosen nothing is found and nothing changes |
| AbcFormat.ImportsResolve | src/addon/formats/abc.py:18 | every name `abc.py` imports from `interop` exists |
| AbcFormat.NamesDistinct | src/addon/formats/abc.py:35-40 | no two options share a name |
| AbcFormat.NoFilepath | src/addon/formats/abc.py:35-40 | no option is called `filepath` |
| AbcFormat.SectionsNotOptions | src/addon/formats/abc.py:42-43 | the panel toggles are not options |
| AbcFormat.ForwardsOptions | src/addon/formats/abc.py:62-73 | the importer receives the file path and exactly the six options, and not the panel toggles |
| AbcFormat.PresetEffect | src/addon/formats/abc.py:92-108 | `scale` takes `parse_float`, the five booleans take `parse_bool`, unnamed options keep their values |
| AbcFormat.DefaultImport | src/addon/formats/abc.py:35-40 | a new operator passes relative_path=True, scale=1.0, set_frame_range=True, and False for the rest |
| DaeFormat.ImportFails | src/addon/formats/dae.py:18 | importing the module fails on `parse_int` |
| DaeFormat.NamesDistinct | src/addon/formats/dae.py:35-41 | no two options share a name |
| DaeFormat.NoFilepath | src/addon/formats/dae.py:35-41 | no option is called `filepath` |
| DaeFormat.SectionsNotOptions | src/addon/formats/dae.py:43-44 | the panel toggles are not options |
| DaeFormat.ForwardsOptions | src/addon/formats/dae.py:64-76 | the importer receives the file path and exactly the seven options, and not the panel toggles |
| DaeFormat.PresetEffect | src/addon/formats/dae.py:95-114 | `min_chain_length` takes `parse_int`, the six booleans take `parse_bool`, unnamed options keep their values |
| DaeFormat.DefaultImport | src/addon/formats/dae.py:35-41 | the defaults passed are import_units=False, custom_normals=True, fix_orientation=False, find_chains=False, auto_connect=False, min_chain_length=0, keep_bind_info=False |
| UsdFormat.ImportFails | src/addon/formats/usd.py:17 | importing the module fails on `parse_int` |
| UsdFormat.NoFilepath | src/addon/formats/usd.py:33-82 | no option is called `filepath` |
| UsdFormat.PresetBooleans | src/addon/formats/usd.py:195-271 | each boolean named in the preset takes `parse_bool`; unnamed options keep their values |
| UsdFormat.PresetFloats | src/addon/formats/usd.py:198-199 | `scale` and `light_intensity_scale` take `parse_float` |
| UsdFormat.PresetTexts | src/addon/formats/usd.py:252-286 | the string and enum options take their entries verbatim |
| UsdFormat.EnumNotChecked | src/addon/formats/usd.py:279-280 | the add-on hands an enum entry outside the enum's items to the assignment unchecked |
| UsdFormat.DefaultImport | src/addon/formats/usd.py:45-82 | the defaults passed include import_subdiv=False, create_collection=False, MAKE_UNIQUE, IMPORT_PACK and `//textures/` |
| Dispatch.RFind | src/addon/operator.py:41 | the last occurrence, or -1 |
| Dispatch.LastSep | src/addon/operator.py:41 | the last `\` or `/`, with no separator after it |
| Dispatch.SplitExt | src/addon/operator.py:41 | root and extension rejoin to the path; the extension is empty, or one `.` with no other `.` or separator |
| Dispatch.Format | src/addon/operator.py:43 | `ext[1:]` holds no dot |
| Dispatch.FormatAt | src/addon/operator.py:41-43 | the extension starts at the last dot of the file name, unless only dots precede that dot |
| Dispatch.FormatOfFile | src/addon/operator.py:41-43 | `stem.e` has extension `e` |
| Dispatch.NoDotNoFormat | src/addon/operator.py:41-43 | a file name without a dot has no extension |
| Dispatch.DotFileNoFormat | src/addon/operator.py:41-43 | `.name` has no extension |
| Dispatch.MenuName | src/addon/operator.py:48 | the prefix followed by the extension, upper-cased |
| Dispatch.MenuOfFile | src/addon/operator.py:41-48 | `stem.e` is dispatched to the prefix followed by `e` upper-cased |
| Dispatch.NoFormatBareMenu | src/addon/operator.py:41-48 | with no extension the bare prefix is called |
| Dispatch.ConditionalKeysLower | src/addon/operator.py:22-44 | the second lookup finds the key the membership test found |
| Dispatch.Admitted | src/addon/operator.py:43-45 | every format not listed in `conditionals` is admitted |
| Dispatch.VrmGate | src/addon/operator.py:22-45 | `.vrm` is dispatched if and only if the `vrm` importer exists |
| Dispatch.OnlyVrmGated | src/addon/operator.py:43-45 | every other extension is dispatched |
| Dispatch.GateIsCaseSensitive | src/addon/operator.py:43-48 | an extension that is not exactly `vrm` passes whatever the importers are |
| Dispatch.UpperCaseVrmBypassesGate | src/addon/operator.py:43-48 | `x.VRM` reaches `VIEW3D_MT_Space_Import_VRM` without the `vrm` importer |
| Dispatch.DropEventListener.Inflate | src/addon/operator.py:33-36 | the file name is shared with the menus before the menu is called: the recorded call carries the dropped file's name |
| Dispatch.DropEventListener.Invoke | src/addon/operator.py:38-53 | a refused format changes nothing; otherwise the shared name is set and the named menu is called while the menus already share the dropped file's name; `FINISHED` unless a non-`TypeError` propagates |
| Menus.ModulesDeclare | src/addon/formats/usd.py:292-382 | the declared menus and handlers are those of the three modules together |
| Menus.LoadedMenus | src/addon/formats/abc.py:114-126 | modules whose import fails contribute no menu |
| Menus.LoadedHandlers | src/addon/formats/abc.py:129-141 | modules whose import fails contribute no file handler |
| Menus.OnlyFirstOfThreeLoads | src/addon/formats/abc.py:18 | when only the first module's import succeeds, only its menus and, with the official API, its handlers are loaded |
| Menus.NoHandlersWithoutApi | src/addon/formats/abc.py:129-141 | without the official API no module declares a file handler |
| Menus.AbcLoads | src/addon/formats/abc.py:18 | the Alembic module's import succeeds |
| Menus.DaeFailsToLoad | src/addon/formats/dae.py:18 | the Collada module's import fails |
| Menus.UsdFailsToLoad | src/addon/formats/usd.py:17 | the USD module's import fails |
| Menus.OnlyAbcLoads | src/addon/formats/abc.py:114-141 | of the six menus and six handlers declared, only the ABC menu is loaded, and the ABC handler on a host with the official API; without it, no handler |
| Menus.MenuFormat | src/addon/formats/abc.py:114-119 | only a menu of a module that loads has a `format()` |
| Menus.MenuFormatOf | src/addon/formats/abc.py:114-119 | the menu `VIEW3D_MT_Space_Import_<KEY>` reports its key's format when a loaded module declares it |
| Menus.HandlerExtensions | src/addon/formats/usd.py:336-382 | no declared handler's extension holds a dot or separator, or is gated |
| Menus.HandlerMenu | src/addon/formats/usd.py:292-321 | each declared handler's extension names a declared menu; ABC and DAE report their own, the four USD menus report `usd` |
| Menus.FormatsServed | src/addon/preferences.py:27-28 | every declared format is the extension of a preset operator |
| Menus.AbcFileReachesMenu | src/addon/formats/abc.py:131-141 | a `.abc` file passes the gate and reaches the ABC menu, which reports `abc` |
| Menus.HandledFilesReachMenus | src/addon/formats/abc.py:129-141 | on either kind of host, a file handled by a loaded handler passes the gate and reaches a loaded menu that reports its extension |
| Menus.OnlyAbcMenuLoaded | src/addon/formats/abc.py:114-119 | no other key names a loaded menu |
| Menus.LaterHandlersNotAbc | src/addon/formats/dae.py:138-142 | the DAE and USD handlers' extensions do not name the ABC menu |
| Menus.UnloadedFormatsMissMenus | src/addon/operator.py:41-48 | a `.dae` or USD file that reaches the drop operator is sent to a menu no module registers |
| Menus.UsdExtensionsShareSettings | src/addon/formats/usd.py:292-321 | as declared, `.usd`, `.usda`, `.usdc` and `.usdz` would share one display mode and one preset |
| Menus.PollDrop | src/addon/formats/usd.py:342-346 | false without a context; true only for a `VIEW_3D` area |
| Menus.PollDropAcceptsView3D | src/addon/formats/usd.py:342-346 | every `VIEW_3D` area is accepted |

## Left out

- File-system access is not modelled. `open` is replaced by the lines of a file, and `os.listdir`/`os.path.exists` by an optional listing. The path `os.path.join(user_resource("SCRIPTS"), "presets", subdir)` is not built.
- How Python splits a file into lines (newline handling) is not modelled; `load_preset` works on the lines as given.
- `LoadLibrary`, `FreeLibrary`, the path of the DLL and `has_official_api`/`is_agree` are inputs, not foreign calls.
- Python's `float()` and the undefined `parse_int` are function-valued parameters. Floats are `real`.
- Blender's preset writer is not part of the add-on. `PresetWriter` models the lines it writes for booleans, integers, floats and strings. Strings that `repr` escapes (a backslash, both kinds of quote, non-ASCII) and set- or array-valued options are left out.
- `bpy.utils.preset_find` searches several preset directories; here it is a map from name and preset path to a file, and only its refusal of an empty name is spelled out.
- `src/addon/formats/__init__.py` is not part of this model, so how the package imports the three format modules is not known. The model takes a module whose `from ..interop import …` raises as defining no menu and no handler. If the package imports all three without a guard, the error stops the whole add-on, the Alembic module included; that is not modelled.
- Menus.UsdExtensionsShareSettings: states what `usd.py` declares. Those menus are never registered, because the module's import fails (`Menus.UnloadedFormatsMissMenus`).
- UsdFormat.EnumNotChecked: states the value the add-on hands to the assignment. Blender rejects an unknown enum item with a `TypeError`, and that rejection is not modelled.
- Blender's own checks on property assignment are not modelled. An unknown enum item raising `TypeError` and the `min`/`max` clamp of `scale` and `light_intensity_scale` are examples.
- `str.lower()`/`str.upper()` are ASCII-only here. `strip()` uses Python's full white-space set.
- `log`, `print` and their texts are not modelled; the loader's log lines are kept only as the messages `Message` names.
- The `draw` methods, `get_expand_column` and the preferences page are left out. So is the `exec` that declares the preference properties (`src/addon/preferences.py:40-42`), which is taken as read: one `<ext>_disp_option` and one `<ext>_preset` per preset operator.
- `src/addon/formats/super.py` is not part of this model: `filepath()` is taken as the file name the menu stored, and the menus' own `draw` is left out.
- The `*WithDefaults` operators of `src/addon/operator.py:56-125` and their `bl_idname` clash at lines 101-102 and 110-111 are left out.
- Registration and unregistration (`src/blender-extension/__init__.py`) and the native hook (`src/blender-injection/BlenderPatcher.h`) are left out.
- The operators hold their options as a sequence aligned with a declaration table, not as one named field per Blender property.
- For USD, distinct option names are not proved for the 31 options, so the name-by-name forwarding lemma proved for the other formats is not stated. `UsdFormat.DefaultImport` checks the argument positions instead.
- Menus.PollDrop: the falsy object Python returns when there is no area is modelled as `false`.
- Dispatch.DropEventListener.Invoke: the exception `call_menu` may raise is an input; which exception Blender raises for an unregistered menu is not modelled.
- Dispatch.SplitExt: `os.path.splitext` is modelled as Windows' `ntpath`, where `\` and `/` both separate. Under `posixpath`, on other systems, `\` is an ordinary character, so a name like `a.b\c` splits differently; that behaviour is not modelled.
