/**
 * The string operations the voice chat applies to text before it keys the
 * response cache (`text.strip().lower()`) and before it looks for an exit
 * phrase (`phrase in text.lower()`): Python's `str.strip()` with no argument,
 * `str.lower()` and the substring test `in`.
 */
module Text {

  /** Python's `str.isspace()` for one character: the code points `str.strip()` removes. */
  predicate IsSpace(c: char) {
    c == ' ' || '\t' <= c <= '\r' || '\U{1C}' <= c <= '\U{1F}'
    || c == '\U{85}' || c == '\U{A0}' || c == '\U{1680}' || '\U{2000}' <= c <= '\U{200A}'
    || c == '\U{2028}' || c == '\U{2029}' || c == '\U{202F}' || c == '\U{205F}' || c == '\U{3000}'
  }

  predicate AllSpace(s: string) {
    forall k :: 0 <= k < |s| ==> IsSpace(s[k])
  }

  /** True when `s` neither starts nor ends with white space. */
  predicate Trimmed(s: string) {
    s == [] || (!IsSpace(s[0]) && !IsSpace(s[|s| - 1]))
  }

  /** `s.lstrip()`: drop the leading white space. */
  function StripLeft(s: string): (r: string)
    ensures |r| <= |s|
  {
    if s != [] && IsSpace(s[0]) then StripLeft(s[1..]) else s
  }

  /** `s.rstrip()`: drop the trailing white space. */
  function StripRight(s: string): (r: string)
    ensures |r| <= |s|
  {
    if s != [] && IsSpace(s[|s| - 1]) then StripRight(s[..|s| - 1]) else s
  }

  /** `s.strip()`. */
  function Strip(s: string): (r: string)
    ensures |r| <= |s|
  {
    StripRight(StripLeft(s))
  }

  /** `lstrip()` keeps a suffix, drops only white space, and leaves no leading white space. */
  lemma {:induction false} StripLeftShape(s: string)
    ensures var r := StripLeft(s);
      && r == s[|s| - |r|..]
      && AllSpace(s[..|s| - |r|])
      && (r == [] || !IsSpace(r[0]))
  {
    if s != [] && IsSpace(s[0]) {
      var t := s[1..];
      StripLeftShape(t);
      var r := StripLeft(t);
      assert t[|t| - |r|..] == s[|s| - |r|..];
      assert s[..|s| - |r|] == [s[0]] + t[..|t| - |r|];
      AllSpaceAppend([s[0]], t[..|t| - |r|]);
    } else {
      assert s[|s| - |s|..] == s;
    }
  }

  /** `rstrip()` keeps a prefix, drops only white space, and leaves no trailing white space. */
  lemma {:induction false} StripRightShape(s: string)
    ensures var r := StripRight(s);
      && r == s[..|r|]
      && AllSpace(s[|r|..])
      && (r == [] || !IsSpace(r[|r| - 1]))
  {
    if s != [] && IsSpace(s[|s| - 1]) {
      var t := s[..|s| - 1];
      StripRightShape(t);
      var r := StripRight(t);
      assert t[..|r|] == s[..|r|];
      assert s[|r|..] == t[|r|..] + [s[|s| - 1]];
      AllSpaceAppend(t[|r|..], [s[|s| - 1]]);
    } else {
      assert s[..|s|] == s;
    }
  }

  /**
   * `strip()` returns a trimmed slice of `s`, and what lies before and after
   * that slice is white space.
   */
  lemma StripShape(s: string)
    ensures var r := Strip(s);
      var i := |s| - |StripLeft(s)|;
      && Trimmed(r)
      && i + |r| <= |s| && s[i..i + |r|] == r
      && AllSpace(s[..i]) && AllSpace(s[i + |r|..])
  {
    var left := StripLeft(s);
    var r := StripRight(left);
    var i := |s| - |left|;
    StripLeftShape(s);
    StripRightShape(left);
    assert left[..|r|] == s[i..i + |r|];
    assert left[|r|..] == s[i + |r|..];
  }

  /**
   * Python's `str.lower()` for one character, on the capitals of ASCII, of
   * Latin-1 and of Vietnamese (the letters the assistant's phrases use).
   */
  function LowerChar(c: char): char {
    if 'A' <= c <= 'Z' || ('\U{C0}' <= c <= '\U{DE}' && c != '\U{D7}') then
      (c as int + 32) as char
    else if c == '\U{102}' || c == '\U{110}' || c == '\U{128}' || c == '\U{168}'
         || c == '\U{1A0}' || c == '\U{1AF}'
         || ('\U{1EA0}' <= c <= '\U{1EF8}' && c as int % 2 == 0) then
      (c as int + 1) as char
    else
      c
  }

  /** `s.lower()`: character by character. */
  function Lower(s: string): (r: string)
    ensures |r| == |s|
  {
    seq(|s|, i requires 0 <= i < |s| => LowerChar(s[i]))
  }

  /** Python's `sub in s`, by walking the start position along `s`. */
  function IsSubstring(sub: string, s: string): (r: bool)
    ensures r ==> |sub| <= |s|
  {
    |sub| <= |s| && (s[..|sub|] == sub || IsSubstring(sub, s[1..]))
  }

  /** `sub` stands in `s` starting at position `i`. */
  predicate OccursAt(sub: string, s: string, i: int) {
    0 <= i <= |s| - |sub| && s[i..i + |sub|] == sub
  }

  /** Lower-casing a lower-cased character changes nothing; white space stays white space. */
  lemma LowerCharFacts(c: char)
    ensures LowerChar(LowerChar(c)) == LowerChar(c)
    ensures IsSpace(LowerChar(c)) == IsSpace(c)
  {
  }

  lemma {:induction false} LowerIdempotent(s: string)
    ensures Lower(Lower(s)) == Lower(s)
  {
    forall k | 0 <= k < |s| ensures Lower(Lower(s))[k] == Lower(s)[k] {
      LowerCharFacts(s[k]);
    }
  }

  lemma LowerAppend(a: string, b: string)
    ensures Lower(a + b) == Lower(a) + Lower(b)
  {
    assert forall k :: 0 <= k < |a + b| ==> Lower(a + b)[k] == (Lower(a) + Lower(b))[k];
  }

  /** `lower()` keeps white space where it is, so it preserves `AllSpace` and `Trimmed`. */
  lemma {:induction false} LowerKeepsSpaces(s: string)
    ensures AllSpace(Lower(s)) == AllSpace(s)
    ensures Trimmed(Lower(s)) == Trimmed(s)
  {
    forall k | 0 <= k < |s| ensures IsSpace(Lower(s)[k]) == IsSpace(s[k]) {
      LowerCharFacts(s[k]);
    }
  }

  lemma {:induction false} StripLeftPadded(a: string, x: string)
    requires AllSpace(a)
    requires x == [] || !IsSpace(x[0])
    ensures StripLeft(a + x) == x
  {
    if a != [] {
      assert (a + x)[1..] == a[1..] + x;
      StripLeftPadded(a[1..], x);
    } else {
      assert a + x == x;
    }
  }

  lemma {:induction false} StripRightPadded(x: string, b: string)
    requires AllSpace(b)
    requires x == [] || !IsSpace(x[|x| - 1])
    ensures StripRight(x + b) == x
  {
    if b != [] {
      assert (x + b)[..|x + b| - 1] == x + b[..|b| - 1];
      StripRightPadded(x, b[..|b| - 1]);
    } else {
      assert x + b == x;
    }
  }

  /**
   * `strip()` is determined by what it keeps: whatever white space surrounds a
   * trimmed core, stripping returns exactly that core.
   */
  lemma {:induction false} StripPadded(a: string, c: string, b: string)
    requires AllSpace(a) && AllSpace(b) && Trimmed(c)
    ensures Strip(a + c + b) == c
  {
    if c == [] {
      assert a + c + b == (a + b) + [];
      StripLeftPadded(a + b, []);
    } else {
      assert a + c + b == a + (c + b);
      StripLeftPadded(a, c + b);
      StripRightPadded(c, b);
    }
  }

  lemma AllSpaceAppend(a: string, b: string)
    requires AllSpace(a) && AllSpace(b)
    ensures AllSpace(a + b)
  {
    assert forall k :: 0 <= k < |a + b| ==> (a + b)[k] == if k < |a| then a[k] else b[k - |a|];
  }

  lemma SplitAround(s: string, i: nat, j: nat)
    requires i <= j <= |s|
    ensures s == s[..i] + s[i..j] + s[j..]
  {
  }

  lemma Regroup(p: string, a: string, c: string, b: string, q: string)
    ensures p + (a + c + b) + q == (p + a) + c + (b + q)
  {
  }

  /** A text with nothing to strip is its own `strip()`. */
  lemma StripTrimmed(c: string)
    requires Trimmed(c)
    ensures Strip(c) == c
  {
    StripPadded([], c, []);
    assert [] + c + [] == c;
  }

  /** More white space around a text does not change what `strip()` returns. */
  lemma StripAbsorbsPadding(pre: string, t: string, post: string)
    requires AllSpace(pre) && AllSpace(post)
    ensures Strip(pre + t + post) == Strip(t)
  {
    StripShape(t);
    var c := Strip(t);
    var i := |t| - |StripLeft(t)|;
    var a, b := t[..i], t[i + |c|..];
    SplitAround(t, i, i + |c|);
    Regroup(pre, a, c, b, post);
    AllSpaceAppend(pre, a);
    AllSpaceAppend(b, post);
    StripPadded(pre + a, c, b + post);
  }

  /** `s.lower().strip() == s.strip().lower()`. */
  lemma StripLowerCommute(s: string)
    ensures Strip(Lower(s)) == Lower(Strip(s))
  {
    StripShape(s);
    var c := Strip(s);
    var i := |s| - |StripLeft(s)|;
    var a, b := s[..i], s[i + |c|..];
    SplitAround(s, i, i + |c|);
    assert s == a + c + b;
    LowerAppend(a + c, b);
    LowerAppend(a, c);
    assert Lower(s) == Lower(a) + Lower(c) + Lower(b);
    LowerKeepsSpaces(a);
    LowerKeepsSpaces(c);
    LowerKeepsSpaces(b);
    StripPadded(Lower(a), Lower(c), Lower(b));
  }

  /** The recursive substring test agrees with "some start position holds `sub`". */
  lemma {:induction false} IsSubstringIff(sub: string, s: string)
    ensures IsSubstring(sub, s) <==> exists i :: OccursAt(sub, s, i)
  {
    if |sub| <= |s| {
      if s[..|sub|] == sub {
        assert OccursAt(sub, s, 0);
      } else {
        IsSubstringIff(sub, s[1..]);
        if IsSubstring(sub, s[1..]) {
          var j :| OccursAt(sub, s[1..], j);
          assert s[1..][j..j + |sub|] == s[j + 1..j + 1 + |sub|];
          assert OccursAt(sub, s, j + 1);
        }
        if i :| OccursAt(sub, s, i) {
          assert i != 0;
          assert s[1..][i - 1..i - 1 + |sub|] == s[i..i + |sub|];
          assert OccursAt(sub, s[1..], i - 1);
        }
      }
    }
  }

  /** A text contains whatever was placed anywhere inside it. */
  lemma SubstringOfConcat(pre: string, sub: string, post: string)
    ensures IsSubstring(sub, pre + sub + post)
  {
    var s := pre + sub + post;
    assert s[|pre|..|pre| + |sub|] == sub;
    assert OccursAt(sub, s, |pre|);
    IsSubstringIff(sub, s);
  }
}
