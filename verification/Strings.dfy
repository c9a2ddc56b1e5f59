/**
 Searching in strings.  At says where a pattern occurs, IndexOf finds the first
 occurrence, and the lemmas say what slicing and concatenation do to both.  A
 text whose tags are all closed within it (TagWhole) can be put in front of
 another one without creating an occurrence of a tag across the border, which
 is what makes a textual scanner of marked-up documents compositional.
 */
module Strings {
  import opened Prelude

  /** Pattern p occurs in s at position i. */
  predicate At(s: string, p: string, i: int) {
    0 <= i && i + |p| <= |s| && s[i..i + |p|] == p
  }

  predicate Contains(s: string, p: string) {
    exists i :: 0 <= i <= |s| && At(s, p, i)
  }

  lemma Assoc(a: string, b: string, c: string)
    ensures (a + b) + c == a + (b + c)
  {
  }

  lemma SubSlice(s: string, a: nat, n: nat, i: nat, m: nat)
    requires a + n <= |s| && i + m <= n
    ensures s[a..a + n][i..i + m] == s[a + i..a + i + m]
  {
    var x, y := s[a..a + n][i..i + m], s[a + i..a + i + m];
    forall k | 0 <= k < m ensures x[k] == y[k] {
      assert x[k] == s[a..a + n][i + k];
    }
  }

  lemma DropDrop(s: string, i: nat, n: nat)
    requires i + n <= |s|
    ensures s[i..][n..] == s[i + n..]
  {
  }

  /** The first occurrence of p at or after `from`, as strings.Index on a tail. */
  function IndexOf(s: string, p: string, from: nat): (r: Option<nat>)
    requires from <= |s|
    ensures r.Some? ==> from <= r.value && At(s, p, r.value) && forall j :: from <= j < r.value ==> !At(s, p, j)
    ensures r.None? ==> forall j :: from <= j ==> !At(s, p, j)
    decreases |s| - from
  {
    if At(s, p, from) then Some(from)
    else if from == |s| then None
    else IndexOf(s, p, from + 1)
  }

  /** A first occurrence is the only thing IndexOf can return. */
  lemma IndexOfIs(s: string, p: string, from: nat, i: nat)
    requires from <= i && At(s, p, i) && forall j :: from <= j < i ==> !At(s, p, j)
    ensures from <= |s| && IndexOf(s, p, from) == Some(i)
  {
  }

  lemma AtLeft(a: string, b: string, p: string, i: int)
    requires i + |p| <= |a|
    ensures At(a + b, p, i) <==> At(a, p, i)
  {
    if 0 <= i {
      assert (a + b)[i..i + |p|] == a[i..i + |p|];
    }
  }

  lemma AtBounds(x: string, p: string, i: int)
    requires At(x, p, i)
    ensures 0 <= i && i + |p| <= |x|
  {
  }

  lemma AtWhole(p: string, z: string)
    ensures At(p + z, p, 0)
  {
  }

  lemma AtRight(a: string, b: string, p: string, i: int)
    requires |a| <= i
    ensures At(a + b, p, i) <==> At(b, p, i - |a|)
  {
    if i + |p| <= |a + b| {
      assert (a + b)[i..i + |p|] == b[i - |a|..i - |a| + |p|];
    }
  }

  lemma AtSlice(s: string, p: string, from: nat, i: nat)
    requires from <= |s|
    ensures At(s[from..], p, i) <==> At(s, p, from + i)
  {
    assert s == s[..from] + s[from..];
    AtRight(s[..from], s[from..], p, from + i);
  }

  function Shift(r: Option<nat>, n: nat): Option<nat> {
    match r
    case Some(v) => Some(n + v)
    case None => None
  }

  lemma IndexOfShift(x: string, z: string, p: string, from: nat)
    requires from <= |z|
    ensures IndexOf(x + z, p, |x| + from) == Shift(IndexOf(z, p, from), |x|)
  {
    hide At;
    OccurrencesShift(x, z, p);
    match IndexOf(z, p, from)
    case Some(v) => IndexOfIs(x + z, p, |x| + from, |x| + v);
    case None =>
  }

  lemma OccurrencesShift(x: string, z: string, p: string)
    ensures forall j: int :: |x| <= j ==> (At(x + z, p, j) <==> At(z, p, j - |x|))
  {
    forall j: int | |x| <= j {
      AtRight(x, z, p, j);
    }
  }

  lemma AtChars(s: string, p: string, i: int, k: int)
    requires At(s, p, i) && 0 <= k < |p|
    ensures s[i + k] == p[k]
  {
    assert s[i..i + |p|][k] == p[k];
  }

  // ------------------------------------------------------------------- markup

  /** Every '<' of s is followed by a '>' within s: no tag is cut off at the end. */
  predicate TagWhole(s: string) {
    forall i :: 0 <= i < |s| && s[i] == '<' ==> exists j :: i < j < |s| && s[j] == '>'
  }

  /** A pattern that opens a tag and closes it at most with its last character. */
  predicate TagPattern(p: string) {
    |p| > 0 && p[0] == '<' && forall k :: 0 <= k < |p| - 1 ==> p[k] != '>'
  }

  /** No such pattern straddles the end of a text without cut-off tags. */
  lemma NoStraddle(a: string, b: string, p: string, i: int)
    requires TagWhole(a) && TagPattern(p)
    requires 0 <= i < |a| < i + |p|
    ensures !At(a + b, p, i)
  {
    if At(a + b, p, i) {
      AtChars(a + b, p, i, 0);
      var j :| i < j < |a| && a[j] == '>';
      AtChars(a + b, p, i, j - i);
    }
  }

  lemma OccurrencesSplit(a: string, b: string, p: string, i: int)
    requires TagWhole(a) && TagPattern(p)
    ensures At(a + b, p, i) <==> At(a, p, i) || At(b, p, i - |a|)
  {
    if 0 <= i {
      if i + |p| <= |a| {
        AtLeft(a, b, p, i);
      } else if i < |a| {
        NoStraddle(a, b, p, i);
      } else {
        AtRight(a, b, p, i);
      }
    }
  }

  lemma TagWholeConcat(a: string, b: string)
    requires TagWhole(a) && TagWhole(b)
    ensures TagWhole(a + b)
  {
    forall i | 0 <= i < |a + b| && (a + b)[i] == '<' ensures exists j :: i < j < |a + b| && (a + b)[j] == '>' {
      if i < |a| {
        var j :| i < j < |a| && a[j] == '>';
        assert (a + b)[j] == '>';
      } else {
        var j :| i - |a| < j < |b| && b[j] == '>';
        assert (a + b)[|a| + j] == '>';
      }
    }
  }

  lemma EndsWithTagWhole(s: string)
    requires s == "" || s[|s| - 1] == '>'
    ensures TagWhole(s)
  {
    forall i | 0 <= i < |s| && s[i] == '<' ensures exists j :: i < j < |s| && s[j] == '>' {
      assert s[|s| - 1] == '>';
    }
  }

  /** A text without '<' contains no tag pattern, wherever it stands. */
  lemma PlainText(a: string, b: string, p: string, i: int)
    requires TagPattern(p) && forall k :: 0 <= k < |a| ==> a[k] != '<'
    ensures At(a + b, p, i) <==> At(b, p, i - |a|)
  {
    if 0 <= i < |a| {
      if At(a + b, p, i) {
        AtChars(a + b, p, i, 0);
      }
    } else if |a| <= i {
      AtRight(a, b, p, i);
    }
  }
}
