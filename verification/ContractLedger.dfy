/** What a validator has seen so far, and what it means to have seen a part of a document. */
module ContractLedger {
  import opened Prelude
  import opened NativeContract

  datatype Seen = Seen(
    clean: bool, ids: set<string>, nodes: nat, refs: seq<Ref>, blocks: set<string>,
    storyIds: set<(StoryKind, string)>, anchors: map<string, Bounds>, natives: map<string, string>, parts: set<string>)

  const START := Seen(true, {}, 0, [], {}, {}, map[], map[], {})

  function KindsAfter(m: set<(StoryKind, string)>, ss: seq<Story>): set<(StoryKind, string)> {
    if ss == [] then m else KindsAfter(m, ss[..|ss| - 1]) + {(ss[|ss| - 1].kind, ss[|ss| - 1].id)}
  }

  function AnchorsAfter(m: map<string, Bounds>, ss: seq<Story>): map<string, Bounds> {
    if ss == [] then m
    else
      var s, m' := ss[|ss| - 1], AnchorsAfter(m, ss[..|ss| - 1]);
      if s.id != "" && StoryBounds(s).Some? then m'[s.id := StoryBounds(s).value] else m'
  }

  function NativesAfter(m: map<string, string>, ss: seq<Story>): map<string, string> {
    if ss == [] then m
    else
      var s, m' := ss[|ss| - 1], NativesAfter(m, ss[..|ss| - 1]);
      if s.id != "" && s.native.Some? then m'[s.id := s.native.value] else m'
  }

  /** After a part with the given trace, whose own checks come out as `ok`. */
  function Advance(s: Seen, ok: bool, t: Trace): Seen {
    Seen(s.clean && ok && Fresh(t.ids, s.ids) && Fits(t.sizes, s.nodes),
      s.ids + SetOf(t.ids), s.nodes + Sum(t.sizes), s.refs + t.refs, s.blocks + SetOf(t.blocks),
      KindsAfter(s.storyIds, t.stories), AnchorsAfter(s.anchors, t.stories), NativesAfter(s.natives, t.stories),
      s.parts + SetOf(t.parts))
  }

  /** The same verdict, and while there is no issue the same record. */
  predicate Matches(now: Seen, spec: Seen) {
    now.clean == spec.clean && (spec.clean ==> now == spec)
  }

  // ------------------------------------------------------------------- composition

  lemma Split<T>(a: seq<T>, b: seq<T>)
    requires b != []
    ensures (a + b)[..|a + b| - 1] == a + b[..|b| - 1] && (a + b)[|a + b| - 1] == b[|b| - 1]
  {
  }

  lemma Whole<T>(a: seq<T>)
    ensures a + [] == a
  {
  }

  lemma SetOfConcat(a: seq<string>, b: seq<string>)
    ensures SetOf(a + b) == SetOf(a) + SetOf(b)
  {
    forall x ensures x in SetOf(a + b) <==> x in a || x in b {
      if x in a { var i :| 0 <= i < |a| && a[i] == x; assert (a + b)[i] == x; }
      if x in b { var i :| 0 <= i < |b| && b[i] == x; assert (a + b)[|a| + i] == x; }
    }
  }

  lemma {:induction false} FreshConcat(a: seq<string>, b: seq<string>, known: set<string>)
    ensures Fresh(a + b, known) <==> Fresh(a, known) && Fresh(b, known + SetOf(a))
    decreases |b|
  {
    if b == [] {
      Whole(a);
    } else {
      Split(a, b);
      FreshConcat(a, b[..|b| - 1], known);
    }
  }

  lemma {:induction false} SumConcat(a: seq<nat>, b: seq<nat>)
    ensures Sum(a + b) == Sum(a) + Sum(b)
    decreases |b|
  {
    if b == [] {
      Whole(a);
    } else {
      Split(a, b);
      SumConcat(a, b[..|b| - 1]);
    }
  }

  lemma {:induction false} FitsConcat(a: seq<nat>, b: seq<nat>, nodes: nat)
    ensures Fits(a + b, nodes) <==> Fits(a, nodes) && Fits(b, nodes + Sum(a))
    decreases |b|
  {
    if b == [] {
      Whole(a);
    } else {
      Split(a, b);
      SumConcat(a, b);
      SumConcat(a, b[..|b| - 1]);
      FitsConcat(a, b[..|b| - 1], nodes);
    }
  }

  lemma {:induction false} KindsConcat(m: set<(StoryKind, string)>, a: seq<Story>, b: seq<Story>)
    ensures KindsAfter(m, a + b) == KindsAfter(KindsAfter(m, a), b)
    decreases |b|
  {
    if b == [] {
      Whole(a);
    } else {
      Split(a, b);
      KindsConcat(m, a, b[..|b| - 1]);
    }
  }

  lemma {:induction false} AnchorsConcat(m: map<string, Bounds>, a: seq<Story>, b: seq<Story>)
    ensures AnchorsAfter(m, a + b) == AnchorsAfter(AnchorsAfter(m, a), b)
    decreases |b|
  {
    hide StoryBounds;
    if b == [] {
      Whole(a);
    } else {
      Split(a, b);
      AnchorsConcat(m, a, b[..|b| - 1]);
    }
  }

  lemma {:induction false} NativesConcat(m: map<string, string>, a: seq<Story>, b: seq<Story>)
    ensures NativesAfter(m, a + b) == NativesAfter(NativesAfter(m, a), b)
    decreases |b|
  {
    if b == [] {
      Whole(a);
    } else {
      Split(a, b);
      NativesConcat(m, a, b[..|b| - 1]);
    }
  }

  lemma {:induction false} AdvanceJoin(s: Seen, ok1: bool, t1: Trace, ok2: bool, t2: Trace)
    ensures Advance(Advance(s, ok1, t1), ok2, t2) == Advance(s, ok1 && ok2, Join(t1, t2))
  {
    hide Fresh, Fits, Sum, SetOf, KindsAfter, AnchorsAfter, NativesAfter;
    FreshConcat(t1.ids, t2.ids, s.ids);
    FitsConcat(t1.sizes, t2.sizes, s.nodes);
    SumConcat(t1.sizes, t2.sizes);
    SetOfConcat(t1.ids, t2.ids);
    SetOfConcat(t1.blocks, t2.blocks);
    SetOfConcat(t1.parts, t2.parts);
    KindsConcat(s.storyIds, t1.stories, t2.stories);
    AnchorsConcat(s.anchors, t1.stories, t2.stories);
    NativesConcat(s.natives, t1.stories, t2.stories);
  }

  /** Two steps one after the other; the second one's own checks matter only when the first found nothing. */
  lemma {:induction false} Then(s: Seen, a: Seen, b: Seen, ok1: bool, t1: Trace, ok2: bool, t2: Trace)
    requires Matches(a, Advance(s, ok1, t1)) && Matches(b, Advance(a, ok2, t2))
    ensures Matches(b, Advance(s, ok1 && ok2, Join(t1, t2)))
  {
    hide Fresh, Fits, Sum, SetOf, KindsAfter, AnchorsAfter, NativesAfter, Join;
    AdvanceJoin(s, ok1, t1, ok2, t2);
    if a.clean {
      assert a == Advance(s, ok1, t1);
    }
  }

  lemma {:induction false} JoinNothing(t: Trace)
    ensures Join(t, NOTHING) == t && Join(NOTHING, t) == t
  {
  }

  lemma {:induction false} AdvanceNothing(s: Seen, ok: bool)
    ensures Advance(s, ok, NOTHING) == s.(clean := s.clean && ok)
  {
  }

  lemma {:induction false} JoinAssoc(a: Trace, b: Trace, c: Trace)
    ensures Join(Join(a, b), c) == Join(a, Join(b, c))
  {
  }
}
