/**
 * Blender's side of an operator preset: the writer behind the "+" button of
 * an operator's preset menu saves every option as `op.<name> = %r`. The
 * writer is not part of the add-on; it is modelled here as the partner of
 * `load_preset` and of the preset `execute` methods, so that what the add-on
 * reads back can be compared with what was saved.
 */
module PresetWriter {
  import opened Outcomes
  import opened PyStr
  import opened Interop
  import opened PresetReader
  import opened Options

  /** The character of a decimal digit. */
  function DigitChar(d: nat): (c: char)
    requires d < 10
    ensures '0' <= c <= '9'
  {
    ('0' as int + d) as char
  }

  /** The decimal digits of a natural number, most significant first. */
  function Digits(n: nat): (s: string)
    ensures s != [] && forall i :: 0 <= i < |s| ==> '0' <= s[i] <= '9'
    decreases n
  {
    if n < 10 then [DigitChar(n)] else Digits(n / 10) + [DigitChar(n % 10)]
  }

  /** `repr` of an integer. */
  function IntRepr(i: int): (s: string)
    ensures s != [] && (s[0] == '-' || '0' <= s[0] <= '9')
    ensures forall k :: 0 < k < |s| ==> '0' <= s[k] <= '9'
  {
    if i < 0 then "-" + Digits(-i) else Digits(i)
  }

  /**
   * Text that `repr` prints between quotes as it is: printable ASCII without
   * a backslash, and not holding both kinds of quote.
   */
  predicate Verbatim(s: string)
  {
    && (forall k :: 0 <= k < |s| ==> ' ' <= s[k] <= '~' && s[k] != '\\')
    && !('\'' in s && '"' in s)
  }

  /**
   * `%r` of a value: a boolean as `True` or `False`, an integer in decimal, a
   * float as `floatRepr` (Python's `repr`) prints it, and a string between
   * single quotes, or double quotes when it holds a single quote.
   */
  function Render(v: Value, floatRepr: real -> string): (r: (string, Quoting))
    ensures !v.Text? <==> r.1.Bare?
  {
    match v
    case Bool(b) => (BoolRepr(b), Bare)
    case Int(i) => (IntRepr(i), Bare)
    case Float(x) => (floatRepr(x), Bare)
    case Text(s) => (s, if '\'' in s then DoubleQuotes else SingleQuotes)
  }

  /** The entries the writer saves for options `specs` holding `values`. */
  function Saved(specs: seq<OptionSpec>, values: seq<Value>, floatRepr: real -> string): (entries: seq<Entry>)
    requires |values| == |specs|
    ensures |entries| == |specs|
    ensures forall i :: 0 <= i < |specs| ==>
      entries[i] == Entry(specs[i].name, Render(values[i], floatRepr).0, Render(values[i], floatRepr).1)
  {
    seq(|specs|, i requires 0 <= i < |specs| =>
      Entry(specs[i].name, Render(values[i], floatRepr).0, Render(values[i], floatRepr).1))
  }

  /**
   * A value that survives being written and read back: a float whose `repr`
   * `float()` reads back, an integer `parse_int` reads back, a string that
   * `repr` prints as it is, with no `=` and no white space at its ends.
   */
  predicate Restorable(v: Value, floatRepr: real -> string, p: Parsers)
  {
    match v
    case Bool(_) => true
    case Int(i) => p.parseInt(Some(IntRepr(i))) == i
    case Float(x) => p.float(floatRepr(x)) == Some(x) && WritableValue(floatRepr(x), Bare)
    case Text(s) => Verbatim(s) && '=' !in s && NoSpaceAtEnds(s)
  }

  /** The text printed for a restorable value is carried through a preset line unchanged. */
  lemma RenderWritable(v: Value, floatRepr: real -> string, p: Parsers)
    requires Restorable(v, floatRepr, p)
    ensures WritableValue(Render(v, floatRepr).0, Render(v, floatRepr).1)
  {
    match v {
      case Bool(b) =>
        var t := BoolRepr(b);
        assert t[0] == (if b then 'T' else 'F') && t[|t| - 1] == 'e';
        assert forall k :: 0 <= k < |t| ==> t[k] != '=';
      case Int(i) =>
        var t := IntRepr(i);
        assert forall k :: 0 <= k < |t| ==> t[k] != '=';
      case Float(_) =>
      case Text(_) =>
    }
  }

  /** The text printed for a restorable value converts back to that value. */
  lemma ConvertRendered(v: Value, floatRepr: real -> string, p: Parsers)
    requires Restorable(v, floatRepr, p)
    ensures Convert(KindOf(v), Render(v, floatRepr).0, p) == v
  {
    match v {
      case Bool(b) => ParseBoolRepr(b);
      case Int(_) =>
      case Float(x) => ParseFloatReadsBack(x, floatRepr(x), p.float);
      case Text(_) =>
    }
  }

  /** Options with writable names and restorable values are saved as writable entries. */
  lemma SavedWritable(specs: seq<OptionSpec>, values: seq<Value>, floatRepr: real -> string, p: Parsers)
    requires |values| == |specs|
    requires forall i :: 0 <= i < |specs| ==> WritableKey(specs[i].name)
    requires forall i :: 0 <= i < |specs| ==> Restorable(values[i], floatRepr, p)
    ensures forall i :: 0 <= i < |specs| ==> WritableEntry(Saved(specs, values, floatRepr)[i])
  {
    forall i | 0 <= i < |specs| ensures WritableEntry(Saved(specs, values, floatRepr)[i]) {
      RenderWritable(values[i], floatRepr, p);
    }
  }

  /** Options with distinct names give entries with distinct keys. */
  lemma SavedDistinct(specs: seq<OptionSpec>, values: seq<Value>, floatRepr: real -> string)
    requires |values| == |specs| && DistinctNames(specs)
    ensures DistinctKeys(Saved(specs, values, floatRepr))
  {
  }

  /**
   * Saving the options as a Blender preset and running the preset `execute`
   * on it restores them: whatever the options held before, each becomes the
   * value it had when the preset was saved.
   */
  lemma SavedPresetRestoresOptions(specs: seq<OptionSpec>, values: seq<Value>, current: seq<Value>,
                                   floatRepr: real -> string, p: Parsers)
    requires Fits(specs, values) && Fits(specs, current) && DistinctNames(specs)
    requires forall i :: 0 <= i < |specs| ==> WritableKey(specs[i].name)
    requires forall i :: 0 <= i < |specs| ==> Restorable(values[i], floatRepr, p)
    ensures ParsePreset(WrittenPreset(Saved(specs, values, floatRepr))).Ok?
    ensures Overlay(specs, current, ParsePreset(WrittenPreset(Saved(specs, values, floatRepr))).value, p) == values
  {
    var entries := Saved(specs, values, floatRepr);
    if |specs| == 0 {
      HeaderOnlyPreset();
    } else {
      SavedWritable(specs, values, floatRepr, p);
      SavedDistinct(specs, values, floatRepr);
      PresetRoundTripSize(entries);
      var m := ParsePreset(WrittenPreset(entries)).value;
      forall i | 0 <= i < |specs| ensures Overlay(specs, current, m, p)[i] == values[i] {
        assert entries[i].key == specs[i].name;
        RestoresOption(specs, values, current, floatRepr, p, m, i);
      }
    }
  }

  /** An option whose saved text the preset holds under its name gets its saved value back. */
  lemma RestoresOption(specs: seq<OptionSpec>, values: seq<Value>, current: seq<Value>,
                       floatRepr: real -> string, p: Parsers, m: map<string, string>, i: nat)
    requires Fits(specs, values) && Fits(specs, current) && i < |specs|
    requires Restorable(values[i], floatRepr, p)
    requires specs[i].name in m && m[specs[i].name] == Render(values[i], floatRepr).0
    ensures Overlay(specs, current, m, p)[i] == values[i]
  {
    ConvertRendered(values[i], floatRepr, p);
  }
}
