/** When exactly empty texts show in the projection of links. */
module LinkStretches {
  import opened Prelude
  import opened RunSplit
  import opened Hyperlinks

  /** The texts that are not empty. */
  function Trimmed(runs: seq<LinkText>): (r: seq<LinkText>)
    ensures |r| <= |runs| && forall x :: x in r ==> x.text != ""
  {
    if runs == [] then [] else (if runs[0].text == "" then [] else [runs[0]]) + Trimmed(runs[1..])
  }

  /** Runs i and j are neighbours but for empty texts. */
  predicate Neighbours(runs: seq<LinkText>, i: nat, j: nat) {
    && i < j < |runs| && runs[i].text != "" && runs[j].text != ""
    && forall m :: i < m < j ==> runs[m].text == ""
  }

  /** Some empty text between two neighbours of one target has another target. */
  ghost predicate Splits(runs: seq<LinkText>) {
    exists i: nat, j: nat, k: nat :: i < k < j && Neighbours(runs, i, j) && runs[i].attr == runs[j].attr && runs[k].attr != runs[i].attr
  }

  // ------------------------------------------------------------------- read from the left

  /** The next text of runs continues target t, behind an empty text of another target; one such may have been seen. */
  predicate Gap(t: string, seen: bool, runs: seq<LinkText>)
    decreases |runs|
  {
    runs != [] && if runs[0].text == "" then Gap(t, seen || runs[0].attr != t, runs[1..]) else seen && runs[0].attr == t
  }

  predicate SplitsAhead(runs: seq<LinkText>) {
    runs != [] && ((runs[0].text != "" && Gap(runs[0].attr, false, runs[1..])) || SplitsAhead(runs[1..]))
  }

  lemma {:induction false} GapFound(t: string, seen: bool, runs: seq<LinkText>) returns (j: nat, k: nat)
    requires Gap(t, seen, runs)
    ensures j < |runs| && runs[j].text != "" && runs[j].attr == t && forall m :: 0 <= m < j ==> runs[m].text == ""
    ensures seen || (k < j && runs[k].attr != t)
    decreases |runs|
  {
    if runs[0].text != "" {
      j, k := 0, 0;
    } else {
      var j', k' := GapFound(t, seen || runs[0].attr != t, runs[1..]);
      j, k := j' + 1, if runs[0].attr != t then 0 else k' + 1;
    }
  }

  lemma {:induction false} GapAt(t: string, seen: bool, runs: seq<LinkText>, j: nat, k: nat)
    requires j < |runs| && runs[j].text != "" && runs[j].attr == t && forall m :: 0 <= m < j ==> runs[m].text == ""
    requires seen || (k < j && runs[k].attr != t)
    ensures Gap(t, seen, runs)
    decreases |runs|
  {
    if j == 0 {
    } else {
      GapAt(t, seen || runs[0].attr != t, runs[1..], j - 1, if k == 0 then 0 else k - 1);
    }
  }

  lemma {:induction false} AheadFound(runs: seq<LinkText>)
    requires SplitsAhead(runs)
    ensures Splits(runs)
  {
    hide Gap;
    if runs[0].text != "" && Gap(runs[0].attr, false, runs[1..]) {
      var j, k := GapFound(runs[0].attr, false, runs[1..]);
      assert Neighbours(runs, 0, j + 1) && 0 < k + 1 < j + 1 && runs[k + 1].attr != runs[0].attr;
    } else {
      AheadFound(runs[1..]);
      var i: nat, j: nat, k: nat :| i < k < j && Neighbours(runs[1..], i, j) && runs[1..][i].attr == runs[1..][j].attr && runs[1..][k].attr != runs[1..][i].attr;
      Later(runs, i, j);
      assert runs[i + 1].attr == runs[j + 1].attr && runs[k + 1].attr != runs[i + 1].attr;
    }
  }

  lemma Later(runs: seq<LinkText>, i: nat, j: nat)
    requires runs != [] && Neighbours(runs[1..], i, j)
    ensures Neighbours(runs, i + 1, j + 1)
  {
    forall m | i + 1 < m < j + 1 ensures runs[m].text == "" {
      assert runs[m] == runs[1..][m - 1];
    }
  }

  lemma {:induction false} AheadAt(runs: seq<LinkText>, i: nat, j: nat, k: nat)
    requires i < k < j && Neighbours(runs, i, j) && runs[i].attr == runs[j].attr && runs[k].attr != runs[i].attr
    ensures SplitsAhead(runs)
  {
    if i == 0 {
      var rest := runs[1..];
      forall m | 0 <= m < j - 1 ensures rest[m].text == "" { assert rest[m] == runs[m + 1]; }
      GapAt(runs[0].attr, false, rest, j - 1, k - 1);
    } else {
      AheadAt(runs[1..], i - 1, j - 1, k - 1);
    }
  }

  lemma AheadIsSplits(runs: seq<LinkText>)
    ensures SplitsAhead(runs) <==> Splits(runs)
  {
    if SplitsAhead(runs) { AheadFound(runs); }
    if i: nat, j: nat, k: nat :| i < k < j && Neighbours(runs, i, j) && runs[i].attr == runs[j].attr && runs[k].attr != runs[i].attr {
      AheadAt(runs, i, j, k);
    }
  }

  // -------------------------------------------------- stretches with and without empty texts

  /** With nothing pending the target does not matter. */
  lemma NothingPending(t: string, t': string, runs: seq<LinkText>)
    ensures Stretches(t, "", runs) == Stretches(t', "", runs)
  {
    if runs != [] {
      assert "" + runs[0].text == runs[0].text;
      assert NonEmpty("", t) + Stretches(runs[0].attr, runs[0].text, runs[1..]) == Stretches(runs[0].attr, runs[0].text, runs[1..]);
      assert NonEmpty("", t') + Stretches(runs[0].attr, runs[0].text, runs[1..]) == Stretches(runs[0].attr, runs[0].text, runs[1..]);
    }
  }

  /** The number of stretches does not depend on what is pending, if something is. */
  lemma {:induction false} SameCount(t: string, c: string, c': string, runs: seq<LinkText>)
    requires c != "" && c' != ""
    ensures |Stretches(t, c, runs)| == |Stretches(t, c', runs)|
    decreases |runs|
  {
    if runs == [] {
    } else if runs[0].attr == t {
      SameCount(t, c + runs[0].text, c' + runs[0].text, runs[1..]);
    } else {
    }
  }

  predicate Torn(t: string, c: string, runs: seq<LinkText>) {
    (c != "" && Gap(t, false, runs)) || SplitsAhead(runs)
  }

  /** Dropping the empty texts joins stretches exactly where a gap is ahead. */
  lemma {:induction false} TrimJoins(t: string, c: string, runs: seq<LinkText>)
    ensures |Stretches(t, c, runs)| >= |Stretches(t, c, Trimmed(runs))|
    ensures Torn(t, c, runs) ==> |Stretches(t, c, runs)| > |Stretches(t, c, Trimmed(runs))|
    ensures !Torn(t, c, runs) ==> Stretches(t, c, runs) == Stretches(t, c, Trimmed(runs))
    decreases |runs|, 1
  {
    hide Gap, SplitsAhead, NonEmpty;
    if runs == [] {
      EmptyAhead(t);
    } else {
      var r, rest := runs[0], runs[1..];
      AheadStep(t, runs);
      TrimStep(runs);
      if r.attr == t {
        TrimJoins(t, c + r.text, rest);
        assert r.text == "" ==> c + r.text == c;
      } else if r.text != "" {
        TrimJoins(r.attr, r.text, rest);
      } else if c == "" {
        TrimJoins(r.attr, "", rest);
        NothingPending(t, r.attr, Trimmed(rest));
        NoneWritten(t);
        assert [] + Stretches(r.attr, "", rest) == Stretches(r.attr, "", rest);
      } else {
        ClosedJoins(t, c, r.attr, rest);
        OneWritten(c, t);
      }
    }
  }

  lemma NoneWritten(t: string)
    ensures NonEmpty("", t) == []
  {
  }

  lemma OneWritten(c: string, t: string)
    requires c != ""
    ensures NonEmpty(c, t) == [Piece(c, t)]
  {
  }

  lemma TrimStep(runs: seq<LinkText>)
    requires runs != []
    ensures runs[0].text == "" ==> Trimmed(runs) == Trimmed(runs[1..])
    ensures runs[0].text != "" ==> |Trimmed(runs)| > 0 && Trimmed(runs)[0] == runs[0] && Trimmed(runs)[1..] == Trimmed(runs[1..])
  {
  }

  lemma AheadStep(t: string, runs: seq<LinkText>)
    requires runs != []
    ensures SplitsAhead(runs) <==> (runs[0].text != "" && Gap(runs[0].attr, false, runs[1..])) || SplitsAhead(runs[1..])
    ensures runs[0].text == "" ==> (Gap(t, false, runs) <==> Gap(t, runs[0].attr != t, runs[1..]))
    ensures runs[0].text == "" ==> (Gap(t, true, runs) <==> Gap(t, true, runs[1..]))
    ensures runs[0].text != "" ==> !Gap(t, false, runs) && (Gap(t, true, runs) <==> runs[0].attr == t)
  {
  }

  /** The same after an empty text of another target has closed the stretch c of target t. */
  lemma {:induction false} ClosedJoins(t: string, c: string, t': string, runs: seq<LinkText>)
    requires c != ""
    ensures
      var left, right := [Piece(c, t)] + Stretches(t', "", runs), Stretches(t, c, Trimmed(runs));
      && |left| >= |right|
      && (Gap(t, true, runs) || SplitsAhead(runs) ==> |left| > |right|)
      && (!Gap(t, true, runs) && !SplitsAhead(runs) ==> left == right)
    decreases |runs|, 0
  {
    hide Gap, SplitsAhead, NonEmpty;
    NoneWritten(t');
    OneWritten(c, t);
    if runs == [] {
      EmptyAhead(t);
    } else {
      var r, rest := runs[0], runs[1..];
      AheadStep(t, runs);
      TrimStep(runs);
      NothingPending(t', r.attr, runs);
      assert "" + r.text == r.text;
      if r.text == "" {
        ClosedJoins(t, c, r.attr, rest);
      } else {
        TrimJoins(r.attr, r.text, rest);
        if r.attr == t { SameCount(t, c + r.text, r.text, Trimmed(rest)); }
      }
    }
  }

  lemma EmptyAhead(t: string)
    ensures !Gap(t, true, []) && !Gap(t, false, []) && !SplitsAhead([])
  {
  }

  // ------------------------------------------------------------------------- the result

  lemma SameStretches(a: seq<LinkText>, b: seq<LinkText>)
    ensures Projection(a) == Projection(b) <==> Stretches("", "", a) == Stretches("", "", b)
  {
    hide Projected, Stretches, Written, Characters;
    ProjectedIsWritten("", "", a);
    ProjectedIsWritten("", "", b);
    StretchesKeep("", "", a);
    StretchesKeep("", "", b);
    if Projection(a) == Projection(b) { WrittenInjective(Stretches("", "", a), Stretches("", "", b)); }
  }

  /**
   * Empty texts leave no trace in the projection if and only if none of them has another target than the two texts
   * around it, when these have one target.
   */
  lemma EmptyTextsShow(runs: seq<LinkText>)
    ensures Projection(runs) == Projection(Trimmed(runs)) <==> !Splits(runs)
  {
    hide Projection, Stretches, SplitsAhead, Splits;
    SameStretches(runs, Trimmed(runs));
    TrimJoins("", "", runs);
    AheadIsSplits(runs);
  }

  lemma {:induction false} TrimKeeps(runs: seq<LinkText>)
    ensures Characters(Trimmed(runs)) == Characters(runs)
  {
    hide Marked;
    if runs == [] {
    } else {
      TrimKeeps(runs[1..]);
      TrimStep(runs);
      if runs[0].text == "" {
        assert Marked("", runs[0].attr) == [];
        assert [] + Characters(runs[1..]) == Characters(runs[1..]);
      }
    }
  }

  /** Two lists of which neither is split project alike if and only if every character has the same target in both. */
  lemma ProjectionExact(a: seq<LinkText>, b: seq<LinkText>)
    requires !Splits(a) && !Splits(b)
    ensures Projection(a) == Projection(b) <==> Characters(a) == Characters(b)
  {
    hide Projection, Splits, Characters;
    EmptyTextsShow(a);
    EmptyTextsShow(b);
    TrimKeeps(a);
    TrimKeeps(b);
    if Projection(a) == Projection(b) { ProjectionTellsApart(a, b); }
    if Characters(a) == Characters(b) { SameCharactersSameProjection(Trimmed(a), Trimmed(b)); }
  }
}
