/**
 * Character classes and the string operations of Python's `str` that the
 * chat core uses, restricted to ASCII: `lower`, `upper`, `strip` and
 * `replace(" ", "")`.
 */
module Text {

  /** Python's `str.isspace` on ASCII: tab, line feed, vertical tab, form feed,
      carriage return, the separators 0x1C-0x1F, and the space. The same set is
      what the `\s` class of a `str` regular expression matches in ASCII. */
  predicate IsSpace(c: char) {
    c == ' ' || ('\t' <= c <= '\r') || ('\U{1C}' <= c <= '\U{1F}')
  }

  predicate IsDigit(c: char) { '0' <= c <= '9' }

  predicate IsAsciiUpper(c: char) { 'A' <= c <= 'Z' }

  predicate IsAsciiLower(c: char) { 'a' <= c <= 'z' }

  /** The `\w` class of a regular expression, on ASCII. */
  predicate IsWordChar(c: char) {
    IsAsciiUpper(c) || IsAsciiLower(c) || IsDigit(c) || c == '_'
  }

  predicate AllSpaces(s: string) {
    forall k :: 0 <= k < |s| ==> IsSpace(s[k])
  }

  function LowerChar(c: char): (d: char)
    ensures !IsAsciiUpper(d)
    ensures IsAsciiUpper(c) <==> IsAsciiLower(d) && d != c
  {
    if IsAsciiUpper(c) then (c as int + 32) as char else c
  }

  function UpperChar(c: char): (d: char)
    ensures !IsAsciiLower(d)
    ensures IsAsciiLower(c) <==> IsAsciiUpper(d) && d != c
  {
    if IsAsciiLower(c) then (c as int - 32) as char else c
  }

  /** `str.lower()`: every ASCII capital becomes its small letter. */
  function Lower(s: string): (r: string)
    ensures |r| == |s|
    ensures forall k :: 0 <= k < |s| ==> r[k] == LowerChar(s[k])
  {
    seq(|s|, k requires 0 <= k < |s| => LowerChar(s[k]))
  }

  /** `str.upper()`: every ASCII small letter becomes its capital. */
  function Upper(s: string): (r: string)
    ensures |r| == |s|
    ensures forall k :: 0 <= k < |s| ==> r[k] == UpperChar(s[k])
  {
    seq(|s|, k requires 0 <= k < |s| => UpperChar(s[k]))
  }

  /** `str.strip()`: drops leading and trailing whitespace. */
  function Strip(s: string): (r: string)
    ensures |r| <= |s|
    ensures |r| > 0 ==> !IsSpace(r[0]) && !IsSpace(r[|r| - 1])
    decreases |s|
  {
    if |s| > 0 && IsSpace(s[0]) then Strip(s[1..])
    else if |s| > 0 && IsSpace(s[|s| - 1]) then Strip(s[..|s| - 1])
    else s
  }

  /** `str.replace(" ", "")`: deletes every space character, and nothing else. */
  function RemoveSpaces(s: string): (r: string)
    ensures ' ' !in r
    ensures ' ' !in s ==> r == s
    decreases |s|
  {
    if s == [] then []
    else if s[0] == ' ' then RemoveSpaces(s[1..])
    else [s[0]] + RemoveSpaces(s[1..])
  }

  lemma {:induction false} RemoveSpacesConcat(a: string, b: string)
    ensures RemoveSpaces(a + b) == RemoveSpaces(a) + RemoveSpaces(b)
    decreases |a|
  {
    if a == [] {
      assert a + b == b;
    } else {
      assert (a + b)[1..] == a[1..] + b;
      RemoveSpacesConcat(a[1..], b);
    }
  }

  /** A space between two parts is dropped. */
  lemma RemoveSpacesDropsSpace(pre: string, post: string)
    ensures RemoveSpaces(pre + " " + post) == RemoveSpaces(pre) + RemoveSpaces(post)
  {
    RemoveSpacesConcat(pre + " ", post);
    RemoveSpacesConcat(pre, " ");
    assert RemoveSpaces(" ") == [];
    assert RemoveSpaces(pre + " ") == RemoveSpaces(pre);
  }

  /** A character other than a space survives, so the result is empty only
      when the input is all spaces. */
  lemma {:induction false} RemoveSpacesKeepsOthers(s: string, k: nat)
    requires k < |s| && s[k] != ' '
    ensures |RemoveSpaces(s)| > 0
    decreases k
  {
    if k > 0 && s[0] == ' ' {
      RemoveSpacesKeepsOthers(s[1..], k - 1);
    }
  }

  /** Space removal adds no small letter. */
  lemma {:induction false} RemoveSpacesKeepsNoLower(s: string)
    requires forall k :: 0 <= k < |s| ==> !IsAsciiLower(s[k])
    ensures forall k :: 0 <= k < |RemoveSpaces(s)| ==> !IsAsciiLower(RemoveSpaces(s)[k])
    decreases |s|
  {
    if s != [] {
      RemoveSpacesKeepsNoLower(s[1..]);
    }
  }

  /** Space removal only deletes: it counts every other character as often
      as the input does, and every character it returns comes from the input. */
  lemma {:induction false} RemoveSpacesCounts(s: string)
    ensures forall c :: c != ' ' ==> multiset(RemoveSpaces(s))[c] == multiset(s)[c]
    ensures forall c :: c in RemoveSpaces(s) ==> c in s
    decreases |s|
  {
    if s != [] {
      RemoveSpacesCounts(s[1..]);
      assert s == [s[0]] + s[1..];
      assert multiset(s) == multiset([s[0]]) + multiset(s[1..]);
    }
  }

  /** The normalisation the email check applies on both sides: lower-case, then strip. */
  function Normalize(e: string): string {
    Strip(Lower(e))
  }

  /** Leading whitespace does not change what `strip` returns. */
  lemma {:induction false} StripIgnoresLeading(pre: string, x: string)
    requires AllSpaces(pre)
    ensures Strip(pre + x) == Strip(x)
    decreases |pre|
  {
    if pre == [] {
      assert pre + x == x;
    } else {
      assert IsSpace((pre + x)[0]);
      assert (pre + x)[1..] == pre[1..] + x;
      StripIgnoresLeading(pre[1..], x);
    }
  }

  /** A trailing whitespace character does not change what `strip` returns. */
  lemma {:induction false} StripIgnoresTrailingChar(x: string, c: char)
    requires IsSpace(c)
    ensures Strip(x + [c]) == Strip(x)
    decreases |x|
  {
    var xc := x + [c];
    if x == [] {
      assert xc[..|xc| - 1] == x;
    } else if IsSpace(x[0]) {
      assert xc[1..] == x[1..] + [c];
      StripIgnoresTrailingChar(x[1..], c);
    } else {
      assert xc[..|xc| - 1] == x;
    }
  }

  /** Trailing whitespace does not change what `strip` returns. */
  lemma {:induction false} StripIgnoresTrailing(x: string, post: string)
    requires AllSpaces(post)
    ensures Strip(x + post) == Strip(x)
    decreases |post|
  {
    if post == [] {
      assert x + post == x;
    } else {
      var last := post[|post| - 1];
      var front := post[..|post| - 1];
      assert x + post == (x + front) + [last];
      StripIgnoresTrailingChar(x + front, last);
      StripIgnoresTrailing(x, front);
    }
  }

  /** `strip` returns exactly the part of a string between its leading and
      trailing whitespace. */
  lemma StripRecoversCore(pre: string, core: string, post: string)
    requires AllSpaces(pre) && AllSpaces(post)
    requires |core| > 0 ==> !IsSpace(core[0]) && !IsSpace(core[|core| - 1])
    ensures Strip(pre + core + post) == core
  {
    assert pre + core + post == pre + (core + post);
    StripIgnoresLeading(pre, core + post);
    StripIgnoresTrailing(core, post);
  }

  /** `lower` is applied character by character, so it distributes over concatenation. */
  lemma LowerConcat(a: string, b: string)
    ensures Lower(a + b) == Lower(a) + Lower(b)
  {
    assert forall k :: 0 <= k < |a + b| ==> Lower(a + b)[k] == (Lower(a) + Lower(b))[k];
  }

  /** Lower-casing leaves whitespace alone. */
  lemma LowerKeepsSpaces(s: string)
    requires AllSpaces(s)
    ensures Lower(s) == s
  {
    assert forall k :: 0 <= k < |s| ==> Lower(s)[k] == s[k];
  }

  /** Normalisation does not see surrounding whitespace. */
  lemma NormalizeIgnoresPadding(pre: string, e: string, post: string)
    requires AllSpaces(pre) && AllSpaces(post)
    ensures Normalize(pre + e + post) == Normalize(e)
  {
    LowerConcat(pre + e, post);
    LowerConcat(pre, e);
    LowerKeepsSpaces(pre);
    LowerKeepsSpaces(post);
    assert Lower(pre + e + post) == pre + (Lower(e) + post);
    StripIgnoresLeading(pre, Lower(e) + post);
    StripIgnoresTrailing(Lower(e), post);
  }

  /** Normalisation does not see letter case: two strings that agree after
      lower-casing normalise alike, so in particular `e` and `upper(e)` do. */
  lemma NormalizeIgnoresCase(e1: string, e2: string)
    requires |e1| == |e2|
    requires forall k :: 0 <= k < |e1| ==> LowerChar(e1[k]) == LowerChar(e2[k])
    ensures Normalize(e1) == Normalize(e2)
  {
    assert Lower(e1) == Lower(e2);
  }

  lemma UpperThenLower(e: string)
    ensures Lower(Upper(e)) == Lower(e)
  {
    assert forall k :: 0 <= k < |e| ==> Lower(Upper(e))[k] == Lower(e)[k];
  }
}
