/** Replacing stretches of a part. */
module TextSplices {
  import opened Prelude

  datatype TextSplice = TextSplice(start: int, end: int, text: string)

  datatype Error = Overlapping | TooLarge

  const MAX_OUTPUT := 16777216

  predicate Sorted(ss: seq<TextSplice>) {
    forall i, j :: 0 <= i < j < |ss| ==> ss[i].start <= ss[j].start
  }

  /** The splices lie one behind the other in a part of n characters, from position `at` on. */
  predicate Fit(n: int, ss: seq<TextSplice>, at: int) {
    if ss == [] then at <= n else at <= ss[0].start <= ss[0].end <= n && Fit(n, ss[1..], ss[0].end)
  }

  /** The part from position `at` on, with every stretch replaced. */
  function Applied(source: string, ss: seq<TextSplice>, at: int): string
    requires 0 <= at && Fit(|source|, ss, at)
  {
    if ss == [] then source[at..] else source[at..ss[0].start] + ss[0].text + Applied(source, ss[1..], ss[0].end)
  }

  function Growth(ss: seq<TextSplice>): int {
    if ss == [] then 0 else Growth(ss[..|ss| - 1]) + |ss[|ss| - 1].text| - (ss[|ss| - 1].end - ss[|ss| - 1].start)
  }

  /** The part never grows beyond the limit while the splices are made one after the other. */
  predicate Bounded(n: int, ss: seq<TextSplice>) {
    forall i :: 0 < i <= |ss| ==> n + Growth(ss[..i]) <= MAX_OUTPUT
  }

  // ------------------------------------------------------------------ what it means

  function Cut(source: string, x: TextSplice): string
    requires 0 <= x.start <= x.end <= |source|
  {
    source[..x.start] + x.text + source[x.end..]
  }

  lemma {:induction false} FitSplit(n: int, ss: seq<TextSplice>, at: int)
    requires ss != [] && Fit(n, ss, at)
    ensures var last := ss[|ss| - 1];
      Fit(n, ss[..|ss| - 1], at) && at <= last.start <= last.end <= n && Fit(last.start, ss[..|ss| - 1], at)
    decreases |ss|
  {
    if |ss| > 1 {
      FitSplit(n, ss[1..], ss[0].end);
      assert ss[1..][..|ss| - 2] == ss[..|ss| - 1][1..];
    }
  }

  /** What lies before the splices' last position does not depend on what comes after it. */
  lemma {:induction false} AppliedBefore(a: string, b: string, ss: seq<TextSplice>, at: int)
    requires 0 <= at && Fit(|a|, ss, at)
    ensures Fit(|a + b|, ss, at) && Applied(a + b, ss, at) == Applied(a, ss, at) + b
    decreases |ss|
  {
    if ss == [] {
      assert (a + b)[at..] == a[at..] + b;
    } else {
      FitInside(|a|, ss[1..], ss[0].end);
      AppliedBefore(a, b, ss[1..], ss[0].end);
      assert (a + b)[at..ss[0].start] == a[at..ss[0].start];
      assert (a[at..ss[0].start] + ss[0].text + Applied(a, ss[1..], ss[0].end)) + b
          == a[at..ss[0].start] + ss[0].text + (Applied(a, ss[1..], ss[0].end) + b);
    }
  }

  lemma {:induction false} FitInside(n: int, ss: seq<TextSplice>, at: int)
    requires Fit(n, ss, at)
    ensures at <= n
    decreases |ss|
  {
    if ss != [] { FitInside(n, ss[1..], ss[0].end); }
  }

  lemma SliceInside(s: string, hi: int, i: int, j: int)
    requires 0 <= i <= j <= hi <= |s|
    ensures s[..hi][i..j] == s[i..j]
  {
  }

  lemma AppliedStep(source: string, ss: seq<TextSplice>, at: int)
    requires ss != [] && 0 <= at && Fit(|source|, ss, at)
    ensures at <= ss[0].start <= ss[0].end <= |source| && Fit(|source|, ss[1..], ss[0].end)
    ensures Applied(source, ss, at) == source[at..ss[0].start] + ss[0].text + Applied(source, ss[1..], ss[0].end)
  {
  }

  lemma AppliedNothing(source: string, at: int)
    requires 0 <= at <= |source|
    ensures Fit(|source|, [], at) && Applied(source, [], at) == source[at..]
  {
  }

  lemma Regroup(a: string, b: string, c: string, d: string)
    ensures a + b + (c + d) == (a + b + c) + d
    ensures a + b + c == a + (b + c)
  {
  }

  /** The last splice cuts the rest off. */
  lemma {:induction false} LastCut(source: string, ss: seq<TextSplice>, at: int)
    requires ss != [] && 0 <= at && Fit(|source|, ss, at)
    ensures var last, front := ss[|ss| - 1], ss[..|ss| - 1];
      && at <= last.start <= last.end <= |source| && Fit(last.start, front, at)
      && Applied(source, ss, at) == Applied(source[..last.start], front, at) + (last.text + source[last.end..])
    decreases |ss|
  {
    hide Applied, Fit;
    FitSplit(|source|, ss, at);
    AppliedStep(source, ss, at);
    var last, front := ss[|ss| - 1], ss[..|ss| - 1];
    var below, tail := source[..last.start], last.text + source[last.end..];
    if |ss| == 1 {
      assert ss[1..] == [] && front == [];
      AppliedNothing(source, last.end);
      AppliedNothing(below, at);
      assert below[at..] == source[at..last.start];
      Regroup(source[at..last.start], last.text, source[last.end..], "");
    } else {
      LastCut(source, ss[1..], ss[0].end);
      assert ss[1..][..|ss| - 2] == front[1..] && front[0] == ss[0];
      AppliedStep(below, front, at);
      SliceInside(source, last.start, at, ss[0].start);
      Regroup(source[at..ss[0].start], ss[0].text, Applied(below, front[1..], ss[0].end), tail);
    }
  }

  /** Making all splices at once is making them one at a time from the back. */
  lemma BackToFront(source: string, ss: seq<TextSplice>)
    requires ss != [] && Fit(|source|, ss, 0)
    ensures var last, front := ss[|ss| - 1], ss[..|ss| - 1];
      && 0 <= last.start <= last.end <= |source| && Fit(|Cut(source, last)|, front, 0)
      && Applied(source, ss, 0) == Applied(Cut(source, last), front, 0)
  {
    hide Applied, Fit;
    LastCut(source, ss, 0);
    var last, front := ss[|ss| - 1], ss[..|ss| - 1];
    AppliedBefore(source[..last.start], last.text + source[last.end..], front, 0);
    assert Cut(source, last) == source[..last.start] + (last.text + source[last.end..]);
  }

  lemma FirstSame(a: seq<TextSplice>, b: seq<TextSplice>)
    requires Sorted(a) && Sorted(b) && multiset(a) == multiset(b) && a != [] && b != []
    requires forall i, j :: 0 <= i < j < |a| ==> a[i].start != a[j].start
    ensures a[0] == b[0]
  {
    assert a[0] in multiset(b) && b[0] in multiset(a);
    var i :| 0 <= i < |b| && b[i] == a[0];
    var j :| 0 <= j < |a| && a[j] == b[0];
  }

  lemma RestSame(a: seq<TextSplice>, b: seq<TextSplice>)
    requires a != [] && b != [] && a[0] == b[0] && multiset(a) == multiset(b)
    ensures multiset(a[1..]) == multiset(b[1..])
  {
    assert a == [a[0]] + a[1..] && b == [b[0]] + b[1..];
    assert multiset(a) == multiset{a[0]} + multiset(a[1..]) && multiset(b) == multiset{b[0]} + multiset(b[1..]);
    assert multiset(a[1..]) == multiset(a) - multiset{a[0]} && multiset(b[1..]) == multiset(b) - multiset{b[0]};
  }

  /** Splices that start at different places have one order only. */
  lemma {:induction false} OneOrder(a: seq<TextSplice>, b: seq<TextSplice>)
    requires Sorted(a) && Sorted(b) && multiset(a) == multiset(b)
    requires forall i, j :: 0 <= i < j < |a| ==> a[i].start != a[j].start
    ensures a == b
    decreases |a|
  {
    assert |a| == |multiset(a)| == |multiset(b)| == |b|;
    if a != [] {
      FirstSame(a, b);
      RestSame(a, b);
      OneOrder(a[1..], b[1..]);
      assert a == [a[0]] + a[1..] && b == [b[0]] + b[1..];
    }
  }

  /** Where an insertion and a replacement start at one place, one order is accepted and the other refused. */
  lemma SameStart(n: int, insertion: TextSplice, other: TextSplice)
    requires 0 <= insertion.start == insertion.end == other.start < other.end <= n
    ensures Sorted([insertion, other]) && Sorted([other, insertion])
    ensures Fit(n, [insertion, other], 0) && !Fit(n, [other, insertion], 0)
  {
    assert [insertion, other][1..] == [other] && [other][1..] == [];
    assert [other, insertion][1..] == [insertion];
  }

  // --------------------------------------------------------------------- the two loops

  lemma {:induction false} FitMore(n: int, ss: seq<TextSplice>, i: nat, at: int)
    requires i < |ss| && Fit(n, ss[..i], at)
    ensures var cursor := if i == 0 then at else ss[i - 1].end;
      Fit(n, ss[..i + 1], at) <==> cursor <= ss[i].start <= ss[i].end <= n
    decreases i
  {
    if i == 0 {
      assert ss[..1][1..] == [];
    } else {
      assert ss[..i][1..] == ss[1..][..i - 1] && ss[..i + 1][1..] == ss[1..][..i];
      FitMore(n, ss[1..], i - 1, ss[0].end);
    }
  }

  lemma {:induction false} FitShorter(n: int, ss: seq<TextSplice>, i: nat, at: int)
    requires i <= |ss| && Fit(n, ss, at)
    ensures Fit(n, ss[..i], at)
    decreases |ss|
  {
    if i == |ss| {
      assert ss[..i] == ss;
    } else {
      FitSplit(n, ss, at);
      assert ss[..|ss| - 1][..i] == ss[..i];
      FitShorter(n, ss[..|ss| - 1], i, at);
    }
  }

  /** Why the splice number i is the first that is refused. */
  predicate Refuses(n: int, ss: seq<TextSplice>, i: nat, error: Error)
    requires i < |ss|
  {
    && Fit(n, ss[..i], 0) && Bounded(n, ss[..i])
    && match error
       case Overlapping => !Fit(n, ss[..i + 1], 0)
       case TooLarge => Fit(n, ss[..i + 1], 0) && n + Growth(ss[..i + 1]) > 16777216
  }

  lemma BoundedMore(n: int, ss: seq<TextSplice>, i: nat)
    requires i < |ss| && Bounded(n, ss[..i])
    ensures Growth(ss[..i + 1]) == Growth(ss[..i]) + |ss[i].text| - (ss[i].end - ss[i].start)
    ensures Bounded(n, ss[..i + 1]) <==> n + Growth(ss[..i + 1]) <= 16777216
  {
    var more := ss[..i + 1];
    assert more[..i] == ss[..i] && more[..i + 1] == more;
    forall k: nat | k <= i ensures more[..k] == ss[..i][..k] {
    }
  }

  method Check(source: string, splices: seq<TextSplice>) returns (r: Option<Error>)
    ensures r.None? ==> Fit(|source|, splices, 0) && Bounded(|source|, splices)
    ensures r.Some? ==> exists i: nat :: i < |splices| && Refuses(|source|, splices, i, r.value)
  {
    hide Fit, Bounded, Growth;
    var outputSize, cursor := |source|, 0;
    NothingYet(|source|, splices);
    for i := 0 to |splices|
      invariant cursor == if i == 0 then 0 else splices[i - 1].end
      invariant Fit(|source|, splices[..i], 0) && Bounded(|source|, splices[..i])
      invariant outputSize == |source| + Growth(splices[..i])
    {
      var splice := splices[i];
      FitMore(|source|, splices, i, 0);
      BoundedMore(|source|, splices, i);
      if splice.start < cursor || splice.end < splice.start || splice.end > |source| {
        assert Refuses(|source|, splices, i, Overlapping);
        return Some(Overlapping);
      }
      outputSize := outputSize + |splice.text| - (splice.end - splice.start);
      if outputSize > MAX_OUTPUT {
        assert Refuses(|source|, splices, i, TooLarge);
        return Some(TooLarge);
      }
      cursor := splice.end;
    }
    assert splices[..|splices|] == splices;
    return None;
  }

  lemma NothingYet(n: nat, ss: seq<TextSplice>)
    ensures ss[..0] == [] && Fit(n, ss[..0], 0) && Bounded(n, ss[..0]) && Growth(ss[..0]) == 0
  {
  }

  /** The splices come sorted by where they start. */
  method ApplyTextSplices(source: string, splices: seq<TextSplice>) returns (r: Result<string, Error>)
    requires Sorted(splices)
    ensures r.Success? <==> Fit(|source|, splices, 0) && Bounded(|source|, splices)
    ensures r.Success? ==> r.value == Applied(source, splices, 0)
    ensures r.Failure? ==> exists i: nat :: i < |splices| && Refuses(|source|, splices, i, r.error)
  {
    var refused := Check(source, splices);
    if refused.Some? {
      Refused(|source|, splices, refused.value);
      return Failure(refused.value);
    }
    var output, cursor := "", 0;
    assert splices[0..] == splices;
    for i := 0 to |splices|
      invariant 0 <= cursor && Fit(|source|, splices[i..], cursor)
      invariant output + Applied(source, splices[i..], cursor) == Applied(source, splices, 0)
    {
      var splice := splices[i];
      assert splices[i..][0] == splice && splices[i..][1..] == splices[i + 1..];
      assert output + (source[cursor..splice.start] + splice.text + Applied(source, splices[i + 1..], splice.end))
          == (output + source[cursor..splice.start] + splice.text) + Applied(source, splices[i + 1..], splice.end);
      output := output + source[cursor..splice.start] + splice.text;
      cursor := splice.end;
    }
    assert splices[|splices|..] == [];
    output := output + source[cursor..];
    return Success(output);
  }

  lemma Refused(n: int, ss: seq<TextSplice>, error: Error)
    requires exists i: nat :: i < |ss| && Refuses(n, ss, i, error)
    ensures !(Fit(n, ss, 0) && Bounded(n, ss))
  {
    hide Fit, Growth;
    var i: nat :| i < |ss| && Refuses(n, ss, i, error);
    if Fit(n, ss, 0) { FitShorter(n, ss, i + 1, 0); }
  }
}
