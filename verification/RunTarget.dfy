/** From selectors to spans. */
module RunTarget {
  import opened Prelude
  import opened Utf16

  /** A run of the paragraph: its id, its text if it is a text run, and the fingerprint of its markup. */
  datatype Source = Source(id: string, text: Option<string>, digest: string)

  /** The paragraph that holds the target; `editable` says that its policy allows patches of run properties. */
  datatype Owner = Owner(runs: seq<Source>, digest: string, editable: bool)

  datatype Error = TargetNotFound | NotEditable | NotATextRun | PastTarget | EmptySelection | StaleTarget

  function LengthOf(r: Source): nat {
    if r.text.Some? then |Encode(r.text.value)| else 0
  }

  /** Code units before run k. */
  function UnitsBefore(runs: seq<Source>, k: nat): nat
    requires k <= |runs|
  {
    if k == 0 then 0 else UnitsBefore(runs, k - 1) + LengthOf(runs[k - 1])
  }

  predicate DistinctIds(runs: seq<Source>) {
    forall i, j :: 0 <= i < j < |runs| ==> runs[i].id != runs[j].id
  }

  /** The paragraph range selected inside [lo, hi), whose markup has fingerprint `digest`, or why there is none. */
  function Within(lo: int, hi: int, range: Option<(int, int)>, expected: string, digest: string): Result<(int, int), Error> {
    if range.Some? && range.value.1 > hi - lo then Failure(PastTarget)
    else
      var s, e := if range.Some? then lo + range.value.0 else lo, if range.Some? then lo + range.value.1 else hi;
      if s >= e then Failure(EmptySelection) else if expected != digest then Failure(StaleTarget) else Success((s, e))
  }

  /** The code units of the runs' texts, in order. */
  function UnitsOf(runs: seq<Source>): seq<int> {
    if runs == [] then [] else UnitsOf(runs[..|runs| - 1]) + Own(runs[|runs| - 1])
  }

  /** The code units of a run's own text. */
  function Own(r: Source): seq<int> {
    if r.text.Some? then Encode(r.text.value) else []
  }

  /** Of the units `own`, which begin at unit `at` of the paragraph, exactly those numbered in the range are selected. */
  predicate Selects(span: (int, int), runs: seq<Source>, at: nat, own: seq<int>, range: Option<(int, int)>)
    requires range.Some? ==> 0 <= range.value.0 < range.value.1
  {
    var (a, b) := if range.Some? then range.value else (0, |own|);
    && a < b <= |own| && span == (at + a, at + b) && at + |own| <= |UnitsOf(runs)|
    && UnitsOf(runs)[span.0..span.1] == own[a..b]
  }

  /** When a selection comes to nothing, and the first reason. */
  predicate Refuses(error: Error, own: seq<int>, range: Option<(int, int)>, expected: string, digest: string) {
    match error
    case PastTarget => range.Some? && range.value.1 > |own|
    case EmptySelection => range.None? && own == []
    case StaleTarget => expected != digest && if range.Some? then range.value.1 <= |own| else own != []
    case _ => false
  }

  lemma {:induction false} UnitsSplit(runs: seq<Source>, k: nat)
    requires k <= |runs|
    ensures UnitsOf(runs[..k]) <= UnitsOf(runs) && |UnitsOf(runs[..k])| == UnitsBefore(runs, k)
    decreases |runs|
  {
    hide Own, LengthOf;
    if k == |runs| {
      assert runs[..k] == runs;
      if k > 0 {
        var init := runs[..k - 1];
        UnitsSplit(init, k - 1);
        assert init[..k - 1] == init;
        SameBefore(init, runs, k - 1);
        OwnLength(runs[k - 1]);
      }
    } else {
      var init := runs[..|runs| - 1];
      UnitsSplit(init, k);
      assert init[..k] == runs[..k];
      SameBefore(init, runs, k);
    }
  }

  lemma OwnLength(r: Source)
    ensures |Own(r)| == LengthOf(r)
  {
  }

  lemma UnitsStep(runs: seq<Source>, k: nat)
    requires k < |runs|
    ensures UnitsOf(runs[..k + 1]) == UnitsOf(runs[..k]) + Own(runs[k])
  {
    assert runs[..k + 1][..k] == runs[..k];
  }

  lemma {:induction false} SameBefore(init: seq<Source>, runs: seq<Source>, k: nat)
    requires init <= runs && k <= |init|
    ensures UnitsBefore(init, k) == UnitsBefore(runs, k)
  {
    if k == 0 {
    } else {
      SameBefore(init, runs, k - 1);
    }
  }

  /** A range of a run is a range of that run's own units, and it fails only as stated. */
  lemma RunSelected(runs: seq<Source>, k: nat, range: Option<(int, int)>, expected: string)
    requires k < |runs| && runs[k].text.Some? && (range.Some? ==> 0 <= range.value.0 < range.value.1)
    ensures
      match Within(UnitsBefore(runs, k), UnitsBefore(runs, k + 1), range, expected, runs[k].digest)
      case Success(span) => expected == runs[k].digest && Selects(span, runs, |UnitsOf(runs[..k])|, Own(runs[k]), range)
      case Failure(error) => Refuses(error, Own(runs[k]), range, expected, runs[k].digest)
  {
    hide UnitsOf, UnitsBefore, Own;
    UnitsSplit(runs, k);
    UnitsSplit(runs, k + 1);
    UnitsStep(runs, k);
    OwnLength(runs[k]);
    OneMore(runs, k);
    var all, own, at := UnitsOf(runs), Own(runs[k]), UnitsBefore(runs, k);
    assert all[at..at + |own|] == own;
    if range.Some? && range.value.1 <= |own| {
      assert all[at + range.value.0..at + range.value.1] == all[at..at + |own|][range.value.0..range.value.1];
    }
    assert own[0..|own|] == own;
  }

  /** The same for the whole paragraph. */
  lemma ParagraphSelected(runs: seq<Source>, range: Option<(int, int)>, expected: string, digest: string)
    requires range.Some? ==> 0 <= range.value.0 < range.value.1
    ensures
      match Within(0, UnitsBefore(runs, |runs|), range, expected, digest)
      case Success(span) => expected == digest && Selects(span, runs, 0, UnitsOf(runs), range)
      case Failure(error) => Refuses(error, UnitsOf(runs), range, expected, digest)
  {
    hide UnitsOf;
    UnitsSplit(runs, |runs|);
    assert runs[..|runs|] == runs;
  }

  lemma {:induction false} BeforeGrows(runs: seq<Source>, i: nat, j: nat)
    requires i <= j <= |runs|
    ensures UnitsBefore(runs, i) <= UnitsBefore(runs, j)
    decreases j - i
  {
    if i >= j {
    } else {
      BeforeGrows(runs, i, j - 1);
    }
  }

  /**
   * The resolving loop. A paragraph selects all its units, a run the units of its own text; a range narrows the
   * selection and never leaves it; the fingerprint expected is that of the paragraph or of the run selected.
   */
  method ResolveSpan(owner: Option<Owner>, target: Option<string>, range: Option<(int, int)>, expected: string)
    returns (r: Result<(int, int), Error>)
    requires (owner.Some? ==> DistinctIds(owner.value.runs)) && (range.Some? ==> 0 <= range.value.0 < range.value.1)
    ensures owner.None? ==> r == Failure(TargetNotFound)
    ensures owner.Some? && !owner.value.editable ==> r == Failure(NotEditable)
    ensures owner.Some? && owner.value.editable ==>
      var runs := owner.value.runs;
      && (target.None? ==>
            match r
            case Success(span) => expected == owner.value.digest && Selects(span, runs, 0, UnitsOf(runs), range)
            case Failure(error) => Refuses(error, UnitsOf(runs), range, expected, owner.value.digest))
      && (forall k :: 0 <= k < |runs| && target == Some(runs[k].id) ==>
            if runs[k].text.None? then r == Failure(NotATextRun)
            else match r
              case Success(span) => expected == runs[k].digest && Selects(span, runs, |UnitsOf(runs[..k])|, Own(runs[k]), range)
              case Failure(error) => Refuses(error, Own(runs[k]), range, expected, runs[k].digest))
      && (target.Some? && (forall k :: 0 <= k < |runs| ==> runs[k].id != target.value) ==> r == Failure(TargetNotFound))
      && (r.Success? ==> 0 <= r.value.0 < r.value.1 <= UnitsBefore(runs, |runs|))
  {
    hide LengthOf, UnitsBefore, UnitsOf, Own, Selects, Refuses, Within;
    if owner == None {
      return Failure(TargetNotFound);
    }
    if !owner.value.editable {
      return Failure(NotEditable);
    }
    var runs := owner.value.runs;
    assert UnitsBefore(runs, 0) == 0 by { NoneBefore(runs); }
    var total, runLength := 0, 0;
    var runStart: int := -1;
    var digest := owner.value.digest;
    ghost var hit := 0;
    for i := 0 to |runs|
      invariant total == UnitsBefore(runs, i) && hit <= |runs|
      invariant runStart < 0 ==> digest == owner.value.digest
      invariant runStart < 0 ==> target.Some? ==> forall k :: 0 <= k < i ==> runs[k].id != target.value
      invariant runStart >= 0 ==> hit < i && target == Some(runs[hit].id) && runs[hit].text.Some? && digest == runs[hit].digest
      invariant runStart >= 0 ==> runStart == UnitsBefore(runs, hit) && runStart + runLength == UnitsBefore(runs, hit + 1)
      invariant runStart == -1 || runStart >= 0
    {
      var length := TextLength(runs[i]);
      OneMore(runs, i);
      if target.Some? && runs[i].id == target.value {
        if runs[i].text == None {
          return Failure(NotATextRun);
        }
        digest, runStart, runLength, hit := runs[i].digest, total, length, i;
      }
      total := total + length;
    }
    var start, end := 0, total;
    if target.Some? {
      if runStart < 0 {
        return Failure(TargetNotFound);
      }
      start, end := runStart, runStart + runLength;
      BeforeGrows(runs, hit + 1, |runs|);
    }
    r := Narrowed(start, end, range, expected, digest);
    WithinInside(start, end, range, expected, digest);
    if target.Some? {
      RunSelected(runs, hit, range, expected);
    } else {
      ParagraphSelected(runs, range, expected, digest);
    }
  }

  /** The selection narrowed to the range. */
  method Narrowed(lo: int, hi: int, range: Option<(int, int)>, expected: string, digest: string) returns (r: Result<(int, int), Error>)
    ensures r == Within(lo, hi, range, expected, digest)
  {
    var start, end := lo, hi;
    if range.Some? {
      if range.value.1 > end - start {
        return Failure(PastTarget);
      }
      start, end := start + range.value.0, start + range.value.1;
    }
    if start >= end {
      return Failure(EmptySelection);
    }
    if expected != digest {
      return Failure(StaleTarget);
    }
    return Success((start, end));
  }

  lemma WithinInside(lo: int, hi: int, range: Option<(int, int)>, expected: string, digest: string)
    requires range.Some? ==> 0 <= range.value.0 < range.value.1
    ensures var r := Within(lo, hi, range, expected, digest); r.Success? ==> lo <= r.value.0 < r.value.1 <= hi
  {
  }

  lemma NoneBefore(runs: seq<Source>)
    ensures UnitsBefore(runs, 0) == 0
  {
  }

  lemma OneMore(runs: seq<Source>, i: nat)
    requires i < |runs|
    ensures UnitsBefore(runs, i + 1) == UnitsBefore(runs, i) + LengthOf(runs[i])
  {
  }

  method TextLength(r: Source) returns (n: nat)
    ensures n == LengthOf(r)
  {
    n := 0;
    if r.text.Some? {
      n := CountUnits(r.text.value);
    }
  }
}
