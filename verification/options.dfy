/**
 * The options of an importer operator and what the `execute` methods of the
 * preset operators do with a loaded preset: every option whose name is a key
 * of the preset map is replaced by that entry, converted according to the
 * option's kind; every other option keeps its value. The operators hold their
 * options as Blender properties, which are named; here an importer's options
 * are a table of declarations and a sequence of values aligned with it.
 */
module Options {
  import opened Outcomes
  import opened Interop

  /** The Blender property kinds the importers' options use (`EnumProperty` and `StringProperty` are both text). */
  datatype Kind = BoolOption | FloatOption | IntOption | TextOption

  /** An option's value, as the importer receives it. */
  datatype Value = Bool(b: bool) | Float(x: real) | Int(i: int) | Text(s: string)

  function KindOf(v: Value): Kind
  {
    match v
    case Bool(_) => BoolOption
    case Float(_) => FloatOption
    case Int(_) => IntOption
    case Text(_) => TextOption
  }

  /**
   * The conversions the add-on cannot define itself: Python's `float()` (for
   * `parse_float`), and `parse_int`, which the `interop` module never defines.
   */
  datatype Parsers = Parsers(float: string -> Option<real>, parseInt: Option<string> -> int)

  /**
   * The value an option takes from the text of a preset entry: `parse_bool`
   * for a boolean, `parse_float` for a float, `parse_int` for an integer, and
   * the text itself for a string or enum option.
   */
  function Convert(kind: Kind, raw: string, p: Parsers): (v: Value)
    ensures KindOf(v) == kind
  {
    match kind
    case BoolOption => Bool(ParseBool(Some(raw)))
    case FloatOption => Float(ParseFloat(Some(raw), p.float))
    case IntOption => Int(p.parseInt(Some(raw)))
    case TextOption => Text(raw)
  }

  /** One option after `if config.get(name, None) is not None: self.name = convert(config.get(name))`. */
  function Overlaid(current: Value, kind: Kind, entry: Option<string>, p: Parsers): (v: Value)
    ensures entry.None? ==> v == current
    ensures entry.Some? ==> KindOf(v) == kind
  {
    match entry
    case None => current
    case Some(raw) => Convert(kind, raw, p)
  }

  /**
   * An option changes only when the preset holds its name; then it becomes
   * `parse_bool`, `parse_float` or `parse_int` of the entry, or for a string or
   * enum option the entry verbatim, with no check against the enum's items.
   * The option keeps its kind either way.
   */
  lemma OverlaidEffect(current: Value, entry: Option<string>, p: Parsers)
    ensures entry.None? ==> Overlaid(current, KindOf(current), entry, p) == current
    ensures entry.Some? && current.Bool? ==> Overlaid(current, KindOf(current), entry, p) == Bool(ParseBool(entry))
    ensures entry.Some? && current.Float? ==> Overlaid(current, KindOf(current), entry, p) == Float(ParseFloat(entry, p.float))
    ensures entry.Some? && current.Int? ==> Overlaid(current, KindOf(current), entry, p) == Int(p.parseInt(entry))
    ensures entry.Some? && current.Text? ==> Overlaid(current, KindOf(current), entry, p) == Text(entry.value)
    ensures KindOf(Overlaid(current, KindOf(current), entry, p)) == KindOf(current)
  {
  }

  // ---------------------------------------------------------------------------
  // Option tables.

  /** A property declaration of a custom-settings operator: its name and its declared default. */
  datatype OptionSpec = OptionSpec(name: string, initial: Value)

  /** Values, one per declared option, each of the declared kind. */
  predicate Fits(specs: seq<OptionSpec>, values: seq<Value>)
  {
    |values| == |specs| && forall i :: 0 <= i < |specs| ==> KindOf(values[i]) == KindOf(specs[i].initial)
  }

  /** No two options share a name. */
  predicate DistinctNames(specs: seq<OptionSpec>)
  {
    forall i, j :: 0 <= i < j < |specs| ==> specs[i].name != specs[j].name
  }

  /** The name is declared by one of the options. */
  predicate Declares(specs: seq<OptionSpec>, name: string)
  {
    exists i :: 0 <= i < |specs| && specs[i].name == name
  }

  /** The options of a freshly created operator: every property at its declared default. */
  function Defaults(specs: seq<OptionSpec>): (values: seq<Value>)
    ensures Fits(specs, values)
    ensures forall i :: 0 <= i < |specs| ==> values[i] == specs[i].initial
  {
    seq(|specs|, i requires 0 <= i < |specs| => specs[i].initial)
  }

  /** The options after the preset `execute`'s `if config.get(name, None) is not None` assignments, one per option. */
  function Overlay(specs: seq<OptionSpec>, values: seq<Value>, config: map<string, string>, p: Parsers): (r: seq<Value>)
    requires |values| == |specs|
    ensures |r| == |specs|
    ensures forall i :: 0 <= i < |specs| && specs[i].name !in config ==> r[i] == values[i]
  {
    seq(|specs|, i requires 0 <= i < |specs| =>
      Overlaid(values[i], KindOf(specs[i].initial), Lookup(config, specs[i].name), p))
  }

  /**
   * What the overlay does to each option: an option whose name the preset
   * does not hold keeps its value; one whose name it holds becomes the entry
   * converted to the option's kind; every option keeps its kind.
   */
  lemma OverlayEffect(specs: seq<OptionSpec>, values: seq<Value>, config: map<string, string>, p: Parsers)
    requires Fits(specs, values)
    ensures Fits(specs, Overlay(specs, values, config, p))
    ensures forall i :: 0 <= i < |specs| && specs[i].name !in config ==> Overlay(specs, values, config, p)[i] == values[i]
    ensures forall i :: 0 <= i < |specs| && specs[i].name in config ==>
      Overlay(specs, values, config, p)[i] == Convert(KindOf(values[i]), config[specs[i].name], p)
  {
  }

  /** A text option the preset names takes its entry verbatim. */
  lemma OverlayText(specs: seq<OptionSpec>, values: seq<Value>, config: map<string, string>, p: Parsers, i: nat)
    requires |values| == |specs| && i < |specs| && specs[i].initial.Text? && specs[i].name in config
    ensures Overlay(specs, values, config, p)[i] == Text(config[specs[i].name])
  {
  }

  /** Every boolean option the preset names becomes `parse_bool` of its entry. */
  lemma OverlayBooleans(specs: seq<OptionSpec>, values: seq<Value>, config: map<string, string>, p: Parsers)
    requires Fits(specs, values)
    ensures forall i :: 0 <= i < |specs| && specs[i].initial.Bool? && specs[i].name in config ==>
      Overlay(specs, values, config, p)[i] == Bool(ParseBool(Some(config[specs[i].name])))
  {
    OverlayEffect(specs, values, config, p);
  }

  /** A preset with no entries changes nothing. */
  lemma OverlayEmpty(specs: seq<OptionSpec>, values: seq<Value>, p: Parsers)
    requires |values| == |specs|
    ensures Overlay(specs, values, map[], p) == values
  {
  }

  /** Preset entries whose keys name no option have no effect. */
  lemma OverlayIgnoresOtherKeys(specs: seq<OptionSpec>, values: seq<Value>, c1: map<string, string>, c2: map<string, string>, p: Parsers)
    requires |values| == |specs|
    requires forall name :: Declares(specs, name) ==> Lookup(c1, name) == Lookup(c2, name)
    ensures Overlay(specs, values, c1, p) == Overlay(specs, values, c2, p)
  {
    forall i | 0 <= i < |specs|
      ensures Overlay(specs, values, c1, p)[i] == Overlay(specs, values, c2, p)[i]
    {
      assert Declares(specs, specs[i].name);
    }
  }

  /**
   * Applying one preset and then another is applying the two merged, the later
   * one winning where both hold a key; in particular applying a preset twice
   * is applying it once.
   */
  lemma OverlayTwice(specs: seq<OptionSpec>, values: seq<Value>, c1: map<string, string>, c2: map<string, string>, p: Parsers)
    requires Fits(specs, values)
    ensures Overlay(specs, Overlay(specs, values, c1, p), c2, p) == Overlay(specs, values, c1 + c2, p)
    ensures Overlay(specs, Overlay(specs, values, c1, p), c1, p) == Overlay(specs, values, c1, p)
  {
    assert c1 + c1 == c1;
  }

  // ---------------------------------------------------------------------------
  // The importer call.

  /** The keyword arguments of the importer call in the custom-settings `execute`: the file path, then every option by name. */
  function ImportArgs(specs: seq<OptionSpec>, filepath: string, values: seq<Value>): (args: seq<(string, Value)>)
    requires |values| == |specs|
    ensures |args| == |specs| + 1
  {
    [("filepath", Text(filepath))] + seq(|specs|, i requires 0 <= i < |specs| => (specs[i].name, values[i]))
  }

  /** The value passed under a keyword: the first argument with that name. */
  function Argument(args: seq<(string, Value)>, name: string): (v: Option<Value>)
    ensures v.Some? <==> exists i :: 0 <= i < |args| && args[i].0 == name
  {
    if args == [] then None
    else if args[0].0 == name then Some(args[0].1)
    else
      var v := Argument(args[1..], name);
      assert forall i :: 1 <= i < |args| ==> args[i] == args[1..][i - 1];
      v
  }

  /** The argument found under a name is the one at the first position holding that name. */
  lemma {:induction false} ArgumentAt(args: seq<(string, Value)>, k: nat)
    requires k < |args| && forall j :: 0 <= j < k ==> args[j].0 != args[k].0
    ensures Argument(args, args[k].0) == Some(args[k].1)
  {
    if k > 0 {
      assert args[1..][k - 1] == args[k];
      ArgumentAt(args[1..], k - 1);
    }
  }

  /**
   * With distinct option names other than `filepath`, the importer finds the
   * file path under `filepath` and every option's value under its name, and
   * nothing under a name that is neither.
   */
  lemma ImportArgsForward(specs: seq<OptionSpec>, filepath: string, values: seq<Value>)
    requires |values| == |specs| && DistinctNames(specs) && !Declares(specs, "filepath")
    ensures Argument(ImportArgs(specs, filepath, values), "filepath") == Some(Text(filepath))
    ensures forall i :: 0 <= i < |specs| ==> Argument(ImportArgs(specs, filepath, values), specs[i].name) == Some(values[i])
    ensures forall name :: name != "filepath" && !Declares(specs, name) ==> Argument(ImportArgs(specs, filepath, values), name).None?
  {
    var args := ImportArgs(specs, filepath, values);
    forall i | 0 <= i < |specs| ensures Argument(args, specs[i].name) == Some(values[i]) {
      assert args[i + 1] == (specs[i].name, values[i]);
      forall j | 0 <= j < i + 1 ensures args[j].0 != args[i + 1].0 {
        if j == 0 {
          assert !(specs[i].name == "filepath");
        } else {
          assert args[j].0 == specs[j - 1].name;
        }
      }
      ArgumentAt(args, i + 1);
    }
    forall name | name != "filepath" && !Declares(specs, name) ensures Argument(args, name).None? {
      forall k | 0 <= k < |args| ensures args[k].0 != name {
        if k > 0 {
          assert args[k].0 == specs[k - 1].name;
        }
      }
    }
  }
}
