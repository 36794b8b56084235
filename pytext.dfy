/** The few Python `str` operations the conversion tool relies on:
    `strip()` with no argument, `lower()`, and the substring test `sub in s`.
    A string is a sequence of Unicode scalar values; Python's lone surrogates,
    which are neither whitespace nor letters, have no counterpart here. */
module PyText {

  /** Python's `str.isspace()` for one character: the characters `strip()`
      removes when called without an argument. */
  predicate IsSpace(c: char) {
    || ('\t' <= c <= '\r')                       // tab, line feed, vertical tab, form feed, carriage return
    || ('\U{1C}' <= c <= '\U{1F}')               // file, group, record and unit separators
    || c == ' ' || c == '\U{85}' || c == '\U{A0}' || c == '\U{1680}'
    || ('\U{2000}' <= c <= '\U{200A}')
    || c == '\U{2028}' || c == '\U{2029}' || c == '\U{202F}' || c == '\U{205F}' || c == '\U{3000}'
  }

  predicate AllSpace(s: string) {
    forall i :: 0 <= i < |s| ==> IsSpace(s[i])
  }

  /** `sub` occurs in `s` starting at index `i`. */
  predicate OccursAt(s: string, sub: string, i: int) {
    0 <= i && i + |sub| <= |s| && s[i..i + |sub|] == sub
  }

  /** Python's `sub in s` on strings: `sub` is a contiguous piece of `s`. */
  predicate Contains(s: string, sub: string)
    decreases |s|
  {
    sub <= s || (|s| > 0 && Contains(s[1..], sub))
  }

  /** An occurrence at a known index is found by the search. */
  lemma {:induction false} OccursAtContains(s: string, sub: string, i: int)
    requires OccursAt(s, sub, i)
    ensures Contains(s, sub)
    decreases i
  {
    if i == 0 {
      assert s[..|sub|] == sub;
    } else {
      assert s[1..][i - 1..i - 1 + |sub|] == s[i..i + |sub|];
      OccursAtContains(s[1..], sub, i - 1);
    }
  }

  /** When the search succeeds, it succeeds at some index. */
  lemma {:induction false} ContainsOccursAt(s: string, sub: string) returns (i: int)
    requires Contains(s, sub)
    ensures OccursAt(s, sub, i)
    decreases |s|
  {
    if sub <= s {
      i := 0;
      assert s[..|sub|] == sub;
    } else {
      var j := ContainsOccursAt(s[1..], sub);
      assert s[1..][j..j + |sub|] == s[j + 1..j + 1 + |sub|];
      i := j + 1;
    }
  }

  /** The search agrees with the plain definition of "occurs somewhere". */
  lemma ContainsIff(s: string, sub: string)
    ensures Contains(s, sub) <==> exists i :: OccursAt(s, sub, i)
  {
    if Contains(s, sub) {
      var i := ContainsOccursAt(s, sub);
    }
    if exists i :: OccursAt(s, sub, i) {
      var i :| OccursAt(s, sub, i);
      OccursAtContains(s, sub, i);
    }
  }

  /** A character of a piece of `s` is a character of `s`. */
  lemma PieceHas(s: string, t: string, c: char)
    requires Contains(s, t) && c in t
    ensures c in s
  {
    var i := ContainsOccursAt(s, t);
    var k :| 0 <= k < |t| && t[k] == c;
    assert s[i..i + |t|][k] == s[i + k];
  }

  /** Whatever is glued around `m`, the result contains `m`. */
  lemma ContainsInfix(a: string, m: string, b: string)
    ensures Contains(a + m + b, m)
  {
    var s := a + m + b;
    assert s[|a|..|a| + |m|] == m;
    OccursAtContains(s, m, |a|);
  }

  /** The first index at or after `i` that does not hold whitespace (`|s|` if none):
      the forward scan of `strip()`. */
  function SkipSpace(s: string, i: nat): (j: nat)
    requires i <= |s|
    ensures i <= j <= |s|
    ensures forall k :: i <= k < j ==> IsSpace(s[k])
    ensures j < |s| ==> !IsSpace(s[j])
    decreases |s| - i
  {
    if i < |s| && IsSpace(s[i]) then SkipSpace(s, i + 1) else i
  }

  /** The end of `s[lo..hi]` once its trailing whitespace is dropped: the
      backward scan of `strip()`. */
  function SkipSpaceBack(s: string, lo: nat, hi: nat): (j: nat)
    requires lo <= hi <= |s|
    ensures lo <= j <= hi
    ensures forall k :: j <= k < hi ==> IsSpace(s[k])
    ensures j > lo ==> !IsSpace(s[j - 1])
    decreases hi
  {
    if hi > lo && IsSpace(s[hi - 1]) then SkipSpaceBack(s, lo, hi - 1) else hi
  }

  /** `s.strip()`: the piece of `s` left once whitespace is removed from both ends. */
  function Strip(s: string): (r: string)
    ensures Contains(s, r)
    ensures r == [] || (!IsSpace(r[0]) && !IsSpace(r[|r| - 1]))
    ensures r == [] <==> AllSpace(s)
  {
    var i := SkipSpace(s, 0);
    var j := SkipSpaceBack(s, i, |s|);
    ScannedPieceInside(s, i, j);
    ScannedPieceEnds(s, i, j);
    ScannedPieceEmpty(s, i, j);
    s[i..j]
  }

  lemma ScannedPieceInside(s: string, i: nat, j: nat)
    requires i <= j <= |s|
    ensures Contains(s, s[i..j])
  {
    assert OccursAt(s, s[i..j], i);
    OccursAtContains(s, s[i..j], i);
  }

  lemma ScannedPieceEnds(s: string, i: nat, j: nat)
    requires i <= j <= |s|
    requires i < |s| ==> !IsSpace(s[i])
    requires j > i ==> !IsSpace(s[j - 1])
    ensures s[i..j] == [] || (!IsSpace(s[i..j][0]) && !IsSpace(s[i..j][j - i - 1]))
  {
  }

  lemma ScannedPieceEmpty(s: string, i: nat, j: nat)
    requires i <= j <= |s|
    requires forall k :: 0 <= k < i ==> IsSpace(s[k])
    requires i < |s| ==> !IsSpace(s[i])
    requires forall k :: j <= k < |s| ==> IsSpace(s[k])
    ensures s[i..j] == [] <==> AllSpace(s)
  {
    if i == j {
      assert forall k :: 0 <= k < |s| ==> IsSpace(s[k]);
    } else {
      assert !IsSpace(s[i]);
    }
  }

  /** `Strip` recovers the core of a string padded with whitespace on both sides;
      together with the ensures of `Strip` this pins down its result. */
  lemma StripPadded(a: string, m: string, b: string)
    requires AllSpace(a) && AllSpace(b)
    requires m != [] && !IsSpace(m[0]) && !IsSpace(m[|m| - 1])
    ensures Strip(a + m + b) == m
  {
    var s := a + m + b;
    var i := SkipSpace(s, 0);
    assert s[|a|] == m[0];
    assert forall k :: 0 <= k < |a| ==> s[k] == a[k];
    assert i == |a|;
    var j := SkipSpaceBack(s, i, |s|);
    assert s[|a| + |m| - 1] == m[|m| - 1];
    assert forall k :: |a| + |m| <= k < |s| ==> s[k] == b[k - |a| - |m|];
    assert j == |a| + |m|;
    assert s[i..j] == m;
  }

  /** Stripping twice is stripping once. */
  lemma StripIdempotent(s: string)
    ensures Strip(Strip(s)) == Strip(s)
  {
    var r := Strip(s);
    if r != [] {
      assert [] + r + [] == r;
      StripPadded([], r, []);
    }
  }

  /** Python's `c.lower()` for the characters whose lower case is or holds an
      ASCII letter: `A` to `Z`, the Kelvin sign U+212A, which lower-cases to `k`,
      and the capital I with dot above U+0130, which lower-cases to two
      characters, `i` followed by the combining dot above U+0307. */
  function LowerChar(c: char): (r: string)
    ensures 'A' <= c <= 'Z' ==> |r| == 1 && 'a' <= r[0] <= 'z' && r[0] as int - c as int == 32
    ensures c == '\U{212A}' ==> r == "k"
    ensures c == '\U{0130}' ==> r == "i\U{0307}"
    ensures !('A' <= c <= 'Z') && c != '\U{212A}' && c != '\U{0130}' ==> r == [c]
  {
    if 'A' <= c <= 'Z' then [(c as int + 32) as char]
    else if c == '\U{212A}' then "k"
    else if c == '\U{0130}' then "i\U{0307}"
    else [c]
  }

  /** `s.lower()`: every character lower-cased, in order. */
  function Lower(s: string): (r: string)
    ensures |s| <= |r| <= 2 * |s|
    decreases |s|
  {
    if s == [] then [] else LowerChar(s[0]) + Lower(s[1..])
  }

  /** Lower-casing a concatenation lower-cases each part. */
  lemma {:induction false} LowerAppend(a: string, b: string)
    ensures Lower(a + b) == Lower(a) + Lower(b)
    decreases |a|
  {
    if a == [] {
      assert a + b == b;
    } else {
      assert (a + b)[0] == a[0] && (a + b)[1..] == a[1..] + b;
      LowerAppend(a[1..], b);
    }
  }

  /** What `c.lower()` produces is already in lower case. */
  lemma LowerCharLower(c: char)
    ensures Lower(LowerChar(c)) == LowerChar(c)
  {
    var r := LowerChar(c);
    if c == '\U{0130}' {
      assert r[1..] == "\U{0307}" && r[1..][1..] == [];
    } else {
      assert |r| == 1 && r[1..] == [];
    }
  }

  /** `s.lower().lower() == s.lower()`: lower-casing twice is lower-casing once. */
  lemma {:induction false} LowerIdempotent(s: string)
    ensures Lower(Lower(s)) == Lower(s)
    decreases |s|
  {
    if s != [] {
      LowerAppend(LowerChar(s[0]), Lower(s[1..]));
      LowerCharLower(s[0]);
      LowerIdempotent(s[1..]);
    }
  }

  /** A character that `lower()` leaves alone is still there after lower-casing. */
  lemma {:induction false} LowerKeeps(s: string, c: char)
    requires LowerChar(c) == [c] && c in s
    ensures c in Lower(s)
    decreases |s|
  {
    if s[0] != c {
      assert c in s[1..] by {
        var k :| 0 <= k < |s| && s[k] == c;
        assert s[1..][k - 1] == c;
      }
      LowerKeeps(s[1..], c);
    }
  }
}
