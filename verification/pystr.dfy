/**
 * The Python `str` operations the add-on relies on, over `seq<char>`:
 * `strip`, `startswith`, `endswith`, `in`, `replace(pat, "")`, `lower`, `upper`.
 */
module PyStr {

  /** The characters Python's `str.isspace()` accepts; `str.strip()` with no argument removes them. */
  predicate IsSpace(c: char)
  {
    || ('\t' <= c <= '\r')
    || ('\U{1c}' <= c <= ' ')
    || c == '\U{85}' || c == '\U{a0}' || c == '\U{1680}'
    || ('\U{2000}' <= c <= '\U{200a}')
    || c == '\U{2028}' || c == '\U{2029}' || c == '\U{202f}' || c == '\U{205f}' || c == '\U{3000}'
  }

  predicate AllSpace(s: string)
  {
    forall i :: 0 <= i < |s| ==> IsSpace(s[i])
  }

  /** Neither the first nor the last character is white space: what `strip()` leaves. */
  predicate NoSpaceAtEnds(s: string)
  {
    s == [] || (!IsSpace(s[0]) && !IsSpace(s[|s| - 1]))
  }

  /** Python's `s.lstrip()`: the longest suffix that does not start with white space. */
  function TrimLeft(s: string): (r: string)
    ensures |r| <= |s| && r == s[|s| - |r|..]
    ensures r == [] || !IsSpace(r[0])
    decreases |s|
  {
    if |s| > 0 && IsSpace(s[0]) then TrimLeft(s[1..]) else s
  }

  /** Python's `s.rstrip()`: the longest prefix that does not end with white space. */
  function TrimRight(s: string): (r: string)
    ensures |r| <= |s| && r == s[..|r|]
    ensures r == [] || !IsSpace(r[|r| - 1])
    decreases |s|
  {
    if |s| > 0 && IsSpace(s[|s| - 1]) then
      assert forall k :: 0 <= k < |s| ==> s[..|s| - 1][..k] == s[..k];
      TrimRight(s[..|s| - 1])
    else s
  }

  /** Python's `s.strip()`. */
  function Strip(s: string): (r: string)
    ensures |r| <= |s|
    ensures NoSpaceAtEnds(r)
  {
    TrimRight(TrimLeft(s))
  }

  /** `lstrip()` drops exactly a leading run of white space that is followed by text or by nothing. */
  lemma {:induction false} TrimLeftDrops(s: string, k: nat)
    requires k <= |s| && AllSpace(s[..k]) && (k < |s| ==> !IsSpace(s[k]))
    ensures TrimLeft(s) == s[k..]
    decreases k
  {
    if k > 0 {
      assert s[..k][0] == s[0];
      var t := s[1..];
      var head, rest := s[..k], t[..k - 1];
      forall i | 0 <= i < |rest| ensures IsSpace(rest[i]) {
        assert rest[i] == head[i + 1];
      }
      TrimLeftDrops(t, k - 1);
    }
  }

  /** `rstrip()` drops exactly a trailing run of white space that follows text or nothing. */
  lemma {:induction false} TrimRightDrops(s: string, k: nat)
    requires k <= |s| && AllSpace(s[k..]) && (k > 0 ==> !IsSpace(s[k - 1]))
    ensures TrimRight(s) == s[..k]
    decreases |s| - k
  {
    if |s| > 0 && IsSpace(s[|s| - 1]) {
      var t := s[..|s| - 1];
      assert t[k..] == s[k..|s| - 1];
      TrimRightDrops(t, k);
      assert t[..k] == s[..k];
    }
  }

  /** `strip()` removes exactly the white space around the text: padding on both sides goes, the text stays. */
  lemma StripPadded(pre: string, x: string, post: string)
    requires AllSpace(pre) && AllSpace(post) && NoSpaceAtEnds(x)
    ensures Strip(pre + x + post) == x
  {
    var s := pre + x + post;
    if x == [] {
      assert s == pre + post;
      assert AllSpace(s[..|s|]) by {
        assert s[..|s|] == s;
        forall i | 0 <= i < |s| ensures IsSpace(s[i]) {
          if i < |pre| {
            assert s[i] == pre[i];
          } else {
            assert s[i] == post[i - |pre|];
          }
        }
      }
      TrimLeftDrops(s, |s|);
    } else {
      assert s[..|pre|] == pre;
      assert s[|pre|] == x[0];
      TrimLeftDrops(s, |pre|);
      var l := s[|pre|..];
      assert l == x + post;
      assert l[|x|..] == post;
      assert l[|x| - 1] == x[|x| - 1];
      TrimRightDrops(l, |x|);
      assert l[..|x|] == x;
    }
  }

  /** `strip()` removes white space after the text. */
  lemma StripTrailing(x: string, post: string)
    requires AllSpace(post) && NoSpaceAtEnds(x)
    ensures Strip(x + post) == x
  {
    StripPadded([], x, post);
    assert [] + x + post == x + post;
  }

  /** `strip()` removes white space before the text. */
  lemma StripLeading(pre: string, x: string)
    requires AllSpace(pre) && NoSpaceAtEnds(x)
    ensures Strip(pre + x) == x
  {
    StripPadded(pre, x, []);
    assert pre + x + [] == pre + x;
  }

  /** Text without surrounding white space is its own `strip()`. */
  lemma StripNoop(s: string)
    requires NoSpaceAtEnds(s)
    ensures Strip(s) == s
  {
    StripPadded([], s, []);
    assert [] + s + [] == s;
  }

  /** Python's `s.startswith(prefix)`. */
  predicate StartsWith(s: string, prefix: string)
  {
    |prefix| <= |s| && s[..|prefix|] == prefix
  }

  /** Python's `s.endswith(suffix)`. */
  predicate EndsWith(s: string, suffix: string)
  {
    |suffix| <= |s| && s[|s| - |suffix|..] == suffix
  }

  /** `pat` occurs in `s` starting at position `i`. */
  predicate OccursAt(s: string, pat: string, i: int)
  {
    0 <= i && i + |pat| <= |s| && s[i..i + |pat|] == pat
  }

  /** Python's `pat in s` for a string pattern. */
  predicate Contains(s: string, pat: string)
  {
    exists i :: 0 <= i <= |s| && OccursAt(s, pat, i)
  }

  /** Python's `s.index(c)`: the first position of `c`. */
  function IndexOf(s: string, c: char): (r: nat)
    requires c in s
    ensures r < |s| && s[r] == c && c !in s[..r]
  {
    if s[0] == c then 0
    else
      var r := 1 + IndexOf(s[1..], c);
      assert s[..r] == [s[0]] + s[1..][..r - 1];
      r
  }

  /** `s.index(c)` is `k` when `s[k]` is `c` and no earlier character is. */
  lemma {:induction false} IndexOfAt(s: string, c: char, k: nat)
    requires k < |s| && s[k] == c && c !in s[..k]
    ensures IndexOf(s, c) == k
  {
    if k > 0 {
      assert s[..k][0] == s[0];
      assert s[1..][..k - 1] == s[1..k];
      assert forall x :: x in s[1..k] ==> x in s[..k];
      IndexOfAt(s[1..], c, k - 1);
    }
  }

  /** A pattern found nowhere in `s` is found nowhere in its tail. */
  lemma NotContainsTail(s: string, pat: string)
    requires |s| > 0 && !Contains(s, pat)
    ensures !Contains(s[1..], pat)
  {
    if Contains(s[1..], pat) {
      var t := s[1..];
      var i :| 0 <= i <= |t| && OccursAt(t, pat, i);
      assert t[i..i + |pat|] == s[i + 1..i + 1 + |pat|];
      assert OccursAt(s, pat, i + 1);
    }
  }

  /**
   * Python's `s.replace(pat, "")` for a non-empty pattern: scanning from the left,
   * every non-overlapping occurrence is removed.
   */
  function RemoveAll(s: string, pat: string): (r: string)
    requires |pat| > 0
    ensures |r| <= |s|
    ensures !Contains(s, pat) ==> r == s
    decreases |s|
  {
    if |s| < |pat| then s
    else if s[..|pat|] == pat then
      assert OccursAt(s, pat, 0);
      RemoveAll(s[|pat|..], pat)
    else
      assert !Contains(s, pat) ==> !Contains(s[1..], pat) by {
        if !Contains(s, pat) { NotContainsTail(s, pat); }
      }
      [s[0]] + RemoveAll(s[1..], pat)
  }

  /** A pattern appended to text that does not hold its first character is the only occurrence `replace` removes. */
  lemma {:induction false} RemoveAllAppended(x: string, pat: string)
    requires |pat| > 0 && pat[0] !in x
    ensures RemoveAll(x + pat, pat) == x
    decreases |x|
  {
    var s := x + pat;
    if x == [] {
      assert s == pat;
      assert s[|pat|..] == [];
    } else {
      assert s[..|pat|][0] == x[0];
      assert s[1..] == x[1..] + pat;
      RemoveAllAppended(x[1..], pat);
      assert [x[0]] + x[1..] == x;
    }
  }

  /** Python's `str.lower()` on one character, for the ASCII letters. */
  function LowerChar(c: char): char
  {
    if 'A' <= c <= 'Z' then (c as int + 32) as char else c
  }

  /** Python's `str.upper()` on one character, for the ASCII letters. */
  function UpperChar(c: char): char
  {
    if 'a' <= c <= 'z' then (c as int - 32) as char else c
  }

  function Lower(s: string): (r: string)
    ensures |r| == |s|
  {
    seq(|s|, i requires 0 <= i < |s| => LowerChar(s[i]))
  }

  function Upper(s: string): (r: string)
    ensures |r| == |s|
  {
    seq(|s|, i requires 0 <= i < |s| => UpperChar(s[i]))
  }

  /** Lower-casing twice is lower-casing once. */
  lemma LowerIdempotent(s: string)
    ensures Lower(Lower(s)) == Lower(s)
  {
    assert forall i :: 0 <= i < |s| ==> LowerChar(LowerChar(s[i])) == LowerChar(s[i]);
  }

  /** Lower-casing forgets an earlier upper-casing. */
  lemma LowerOfUpper(s: string)
    ensures Lower(Upper(s)) == Lower(s)
  {
    assert forall i :: 0 <= i < |s| ==> LowerChar(UpperChar(s[i])) == LowerChar(s[i]);
  }

  /** Text without lower-case ASCII letters is its own upper case. */
  lemma UpperNoop(s: string)
    requires forall i :: 0 <= i < |s| ==> !('a' <= s[i] <= 'z')
    ensures Upper(s) == s
  {
  }

  /** Upper-cased text holds no lower-case ASCII letter. */
  lemma UpperHasNoLowerCase(s: string)
    ensures forall i :: 0 <= i < |s| ==> !('a' <= Upper(s)[i] <= 'z')
  {
  }
}
