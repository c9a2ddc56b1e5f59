/**
 Runs of text as one attribute per UTF-16 code unit: what splitting a run and
 changing the attribute of its middle part means for each unit.
 */
module RunSplit {
  import opened Prelude
  import opened Utf16

  /** Text with one attribute, such as run properties or a link target. */
  datatype Piece<+P> = Piece(text: string, attr: P)

  function Paint<P>(units: seq<int>, p: P): (r: seq<(int, P)>)
    ensures |r| == |units| && forall i :: 0 <= i < |r| ==> r[i] == (units[i], p)
  {
    seq(|units|, i requires 0 <= i < |units| => (units[i], p))
  }

  /** The attribute of every code unit. */
  function Attributed<P>(ps: seq<Piece<P>>): seq<(int, P)> {
    if ps == [] then [] else Paint(Encode(ps[0].text), ps[0].attr) + Attributed(ps[1..])
  }

  /** The specification of an attribute change: the units in [from, to) get a new attribute, all others keep theirs. */
  function Repaint<P>(us: seq<(int, P)>, from: int, to: int, f: P -> P): (r: seq<(int, P)>)
    ensures |r| == |us|
    ensures forall i :: 0 <= i < |us| ==> r[i] == if from <= i < to then (us[i].0, f(us[i].1)) else us[i]
  {
    seq(|us|, i requires 0 <= i < |us| => if from <= i < to then (us[i].0, f(us[i].1)) else us[i])
  }

  lemma RepaintConcat<P>(x: seq<(int, P)>, y: seq<(int, P)>, from: int, to: int, f: P -> P)
    ensures Repaint(x + y, from, to, f) == Repaint(x, from, to, f) + Repaint(y, from - |x|, to - |x|, f)
  {
  }

  lemma RepaintNone<P>(us: seq<(int, P)>, from: int, to: int, f: P -> P)
    requires us == [] || to <= 0 || |us| <= from || to <= from
    ensures Repaint(us, from, to, f) == us
  {
  }

  function NonEmpty<P>(text: string, p: P): seq<Piece<P>> {
    if text == "" then [] else [Piece(text, p)]
  }

  /** Up to three pieces: before, inside and after the cut. */
  function Three<P>(text: string, a: nat, b: nat, p: P, q: P): seq<Piece<P>>
    requires a <= b <= |text|
  {
    NonEmpty(text[..a], p) + NonEmpty(text[a..b], q) + NonEmpty(text[b..], p)
  }

  lemma NonEmptyPaint<P>(text: string, p: P)
    ensures Attributed(NonEmpty(text, p)) == Paint(Encode(text), p)
  {
    if text != "" {
      assert [Piece(text, p)][1..] == [];
      assert Paint(Encode(text), p) + [] == Paint(Encode(text), p);
    }
  }

  lemma {:induction false} AttributedConcat<P>(a: seq<Piece<P>>, b: seq<Piece<P>>)
    ensures Attributed(a + b) == Attributed(a) + Attributed(b)
  {
    hide Paint;
    if a == [] {
      assert a + b == b;
    } else {
      assert (a + b)[1..] == a[1..] + b;
      AttributedConcat(a[1..], b);
    }
  }

  lemma OffsetsOrdered(text: string, from: int, to: int)
    requires Offset(text, from).Some? && Offset(text, to).Some? && from <= to
    ensures Offset(text, from).value <= Offset(text, to).value
  {
    hide Offset, Units;
    var a, b := Offset(text, from).value, Offset(text, to).value;
    OffsetUnits(text, from);
    OffsetUnits(text, to);
    if b < a { UnitsGrow(text, b, a); }
  }

  lemma {:induction false} UnitsGrow(s: string, i: nat, j: nat)
    requires i < j <= |s|
    ensures Units(s[..i]) < Units(s[..j])
    decreases j - i
  {
    assert s[..j] == s[..j - 1] + [s[j - 1]];
    EncodeConcat(s[..j - 1], [s[j - 1]]);
    if i >= j - 1 {
    } else {
      UnitsGrow(s, i, j - 1);
    }
  }

  lemma ThreeEncodings(text: string, from: int, to: int)
    requires Offset(text, from).Some? && Offset(text, to).Some? && from <= to
    ensures var a, b := Offset(text, from).value, Offset(text, to).value;
      && a <= b
      && |Encode(text[..a])| == from && |Encode(text[a..b])| == to - from
      && Encode(text) == (Encode(text[..a]) + Encode(text[a..b])) + Encode(text[b..])
  {
    hide Offset, Encode;
    var a, b := Offset(text, from).value, Offset(text, to).value;
    OffsetsOrdered(text, from, to);
    OffsetSplits(text, from);
    OffsetSplits(text, to);
    assert text[..b] == text[..a] + text[a..b];
    EncodeConcat(text[..a], text[a..b]);
  }

  /** The three pieces carry the old text, and the new attribute on exactly the units between the cuts. */
  lemma ThreeRepaints<P>(text: string, from: int, to: int, p: P, f: P -> P)
    requires Offset(text, from).Some? && Offset(text, to).Some? && from <= to
    ensures Offset(text, from).value <= Offset(text, to).value
    ensures Attributed(Three(text, Offset(text, from).value, Offset(text, to).value, p, f(p)))
      == Repaint(Paint(Encode(text), p), from, to, f)
  {
    hide Offset, Encode, Attributed, NonEmpty;
    var a, b := Offset(text, from).value, Offset(text, to).value;
    ThreeEncodings(text, from, to);
    var x, y, z := text[..a], text[a..b], text[b..];
    NonEmptyPaint(x, p);
    NonEmptyPaint(y, f(p));
    NonEmptyPaint(z, p);
    AttributedConcat(NonEmpty(x, p), NonEmpty(y, f(p)));
    AttributedConcat(NonEmpty(x, p) + NonEmpty(y, f(p)), NonEmpty(z, p));
    PaintedThree(Encode(x), Encode(y), Encode(z), p, f);
  }

  lemma PaintedThree<P>(x: seq<int>, y: seq<int>, z: seq<int>, p: P, f: P -> P)
    ensures (Paint(x, p) + Paint(y, f(p))) + Paint(z, p) == Repaint(Paint((x + y) + z, p), |x|, |x| + |y|, f)
  {
  }

  /** A unit that is the second half of a surrogate pair: no cut is possible before it. */
  predicate LowAt<P>(us: seq<(int, P)>, k: int) {
    0 <= k < |us| && IsLow(us[k].0)
  }

  lemma LowConcat<P>(x: seq<(int, P)>, y: seq<(int, P)>, k: int)
    ensures LowAt(x + y, k) <==> LowAt(x, k) || LowAt(y, k - |x|)
  {
  }

  lemma OffsetLow<P>(text: string, p: P, k: int)
    requires 0 <= k <= |Encode(text)|
    ensures Offset(text, k).Some? <==> !LowAt(Paint(Encode(text), p), k)
  {
    hide Offset;
    OffsetExists(text, k);
  }
}
