/** The linear operation log of one artifact. */
module OpLog {
  import opened Prelude

  type ClientId = string
  type RoomKey = string
  type Ops = string  // one opaque, already size-checked JSON batch

  const MAX_OPS_PER_ROOM := 5000

  datatype Item = Op(client: ClientId, ops: Ops) | ResetMark

  datatype Entry = Entry(room: RoomKey, num: nat, client: ClientId, ops: Ops)

  /**
   The log as the protocol sees it: a history in which every sequence number is
   either an accepted batch or a reset, and a watermark of what the persisted
   bytes already contain.  A log is one incarnation: forgetting it starts a new
   one at sequence zero.
   */
  datatype Log = Log(hist: seq<Item>, saved: nat) {
    function Head(): nat { |hist| }

    /** Everything after the watermark is an accepted batch. */
    ghost predicate Valid() {
      saved <= |hist| && forall i :: saved <= i < |hist| ==> hist[i].Op?
    }

    /** The highest sequence number that is no longer retained. */
    function Floor(): nat {
      if saved >= |hist| - MAX_OPS_PER_ROOM then saved else |hist| - MAX_OPS_PER_ROOM
    }
  }

  const EmptyLog := Log([], 0)

  /** The batches with sequence numbers from + 1 .. |hist|, in order. */
  function OpsAfter(room: RoomKey, hist: seq<Item>, from: nat): seq<Entry> {
    if |hist| <= from then []
    else
      var before := OpsAfter(room, hist[..|hist| - 1], from);
      match hist[|hist| - 1]
      case Op(client, ops) => before + [Entry(room, |hist|, client, ops)]
      case ResetMark => before
  }

  // ---------------------------------------------------------------- operations

  function Appended(log: Log, client: ClientId, ops: Ops): Log {
    log.(hist := log.hist + [Op(client, ops)])
  }

  function Marked(log: Log, n: int): Log {
    if n <= log.saved then log
    else if n > |log.hist| then log.(saved := |log.hist|)
    else log.(saved := n)
  }

  function Cleared(log: Log): Log {
    Log(log.hist + [ResetMark], |log.hist| + 1)
  }

  /** Catch-up: the entries after n, or None when the gap cannot be filled. */
  function Since(room: RoomKey, log: Log, n: int): Option<seq<Entry>> {
    var from := Max(0, n);
    if log.Floor() <= from <= log.Head() then Some(OpsAfter(room, log.hist, from)) else None
  }

  // ------------------------------------------------------------ entry sequences

  lemma {:induction false} OpsAfterAppend(room: RoomKey, hist: seq<Item>, item: Item, from: nat)
    requires from <= |hist|
    ensures OpsAfter(room, hist + [item], from)
         == OpsAfter(room, hist, from)
          + (if item.Op? then [Entry(room, |hist| + 1, item.client, item.ops)] else [])
  {
    assert (hist + [item])[..|hist|] == hist;
  }

  /** Where every number after `from` is a batch, the entries are exactly those numbers. */
  lemma {:induction false} OpsAfterDense(room: RoomKey, hist: seq<Item>, from: nat)
    requires from <= |hist| && forall i :: from <= i < |hist| ==> hist[i].Op?
    ensures |OpsAfter(room, hist, from)| == |hist| - from
    ensures forall i :: 0 <= i < |hist| - from ==>
      OpsAfter(room, hist, from)[i]
        == Entry(room, from + i + 1, hist[from + i].client, hist[from + i].ops)
  {
    if |hist| <= from {
    } else {
      OpsAfterDense(room, hist[..|hist| - 1], from);
    }
  }

  /** In general the entries are exactly the batches after `from`, strictly increasing. */
  lemma {:induction false} OpsAfterExact(room: RoomKey, hist: seq<Item>, from: nat)
    ensures forall e :: e in OpsAfter(room, hist, from) <==>
      from < e.num <= |hist| && e.room == room && hist[e.num - 1] == Op(e.client, e.ops)
    ensures forall i, j :: 0 <= i < j < |OpsAfter(room, hist, from)| ==>
      OpsAfter(room, hist, from)[i].num < OpsAfter(room, hist, from)[j].num
  {
    if |hist| <= from {
    } else {
      var front := hist[..|hist| - 1];
      OpsAfterExact(room, front, from);
      forall e
        ensures e in OpsAfter(room, hist, from) <==>
          from < e.num <= |hist| && e.room == room && hist[e.num - 1] == Op(e.client, e.ops)
      {
        assert e.num - 1 < |front| && e.num > 0 ==> front[e.num - 1] == hist[e.num - 1];
      }
      forall i | 0 <= i < |OpsAfter(room, front, from)|
        ensures OpsAfter(room, front, from)[i].num < |hist|
      {
        assert OpsAfter(room, front, from)[i] in OpsAfter(room, front, from);
      }
    }
  }

  // ------------------------------------------------------- replay and snapshots

  /**
   The document after the first |hist| sequence numbers: a batch transforms the
   previous document, a reset replaces it by whatever bytes were stored then.
   */
  ghost function Snapshot<D>(hist: seq<Item>, initial: D, apply: (D, Ops) -> D, stored: nat -> D): D {
    if hist == [] then initial
    else match hist[|hist| - 1]
      case Op(_, ops) => apply(Snapshot(hist[..|hist| - 1], initial, apply, stored), ops)
      case ResetMark => stored(|hist|)
  }

  ghost function Replay<D>(doc: D, entries: seq<Entry>, apply: (D, Ops) -> D): D {
    if entries == [] then doc
    else apply(Replay(doc, entries[..|entries| - 1], apply), entries[|entries| - 1].ops)
  }

  lemma {:induction false} ReplayReachesHead<D>(room: RoomKey, hist: seq<Item>, from: nat,
      initial: D, apply: (D, Ops) -> D, stored: nat -> D)
    requires from <= |hist| && forall i :: from <= i < |hist| ==> hist[i].Op?
    ensures Replay(Snapshot(hist[..from], initial, apply, stored), OpsAfter(room, hist, from), apply)
         == Snapshot(hist, initial, apply, stored)
    decreases |hist|
  {
    if |hist| == from {
      assert hist[..from] == hist;
    } else {
      var front := hist[..|hist| - 1];
      ReplayReachesHead(room, front, from, initial, apply, stored);
      assert front[..from] == hist[..from];
      var entries := OpsAfter(room, hist, from);
      assert entries[..|entries| - 1] == OpsAfter(room, front, from);
    }
  }

  /**
   An accepted catch-up carries exactly the missing numbers, takes the client's
   snapshot to the head snapshot, and never crosses a reset.
   */
  lemma SinceReplays<D>(room: RoomKey, log: Log, n: int, initial: D, apply: (D, Ops) -> D, stored: nat -> D)
    requires log.Valid() && Since(room, log, n).Some?
    ensures 0 <= Max(0, n) <= log.Head()
    ensures var from := Max(0, n);
      var entries := Since(room, log, n).value;
      && (forall i :: from <= i < log.Head() ==> log.hist[i].Op?)
      && |entries| == log.Head() - from
      && (forall i :: 0 <= i < |entries| ==> entries[i].num == from + i + 1)
      && Replay(Snapshot(log.hist[..from], initial, apply, stored), entries, apply)
           == Snapshot(log.hist, initial, apply, stored)
  {
    OpsAfterDense(room, log.hist, Max(0, n));
    ReplayReachesHead(room, log.hist, Max(0, n), initial, apply, stored);
  }

  // -------------------------------------------------------------------- runs

  datatype Act = Submit(client: ClientId, ops: Ops, base: int) | MarkSaved(n: int) | Reset

  function Step(log: Log, act: Act): Log {
    match act
    case Submit(client, ops, base) => if base == log.Head() then Appended(log, client, ops) else log
    case MarkSaved(n) => Marked(log, n)
    case Reset => Cleared(log)
  }

  function Run(acts: seq<Act>): Log {
    if acts == [] then EmptyLog else Step(Run(acts[..|acts| - 1]), acts[|acts| - 1])
  }

  /** Whether the i-th action of a run is a submission that the log accepts. */
  predicate Accepted(acts: seq<Act>, i: nat)
    requires i < |acts|
  {
    acts[i].Submit? && acts[i].base == Run(acts[..i]).Head()
  }

  lemma {:induction false} RunValid(acts: seq<Act>)
    ensures Run(acts).Valid()
  {
    if acts == [] {
    } else {
      RunValid(acts[..|acts| - 1]);
    }
  }

  /** History is append-only within an incarnation. */
  lemma {:induction false} RunGrows(acts: seq<Act>, i: nat)
    requires i <= |acts|
    ensures Run(acts[..i]).hist <= Run(acts).hist
    ensures Run(acts[..i]).saved <= Run(acts).saved
    decreases |acts|
  {
    if i == |acts| {
      assert acts[..i] == acts;
    } else {
      var front := acts[..|acts| - 1];
      RunGrows(front, i);
      RunValid(front);
      assert front[..i] == acts[..i];
    }
  }

  lemma RunStep(acts: seq<Act>, i: nat)
    requires i < |acts|
    ensures Run(acts[..i + 1]) == Step(Run(acts[..i]), acts[i])
  {
    assert acts[..i + 1][..i] == acts[..i];
  }

  /** Two accepted submissions of one incarnation never share a base. */
  lemma OneWinnerPerBase(acts: seq<Act>, i: nat, j: nat)
    requires i < j < |acts| && Accepted(acts, i) && Accepted(acts, j)
    ensures acts[i].base < acts[j].base
  {
    RunStep(acts, i);
    RunGrows(acts[..j], i + 1);
    assert acts[..j][..i + 1] == acts[..i + 1];
  }

  /** The winner of a base keeps that sequence number for the whole incarnation. */
  lemma WinnerIsCommitted(acts: seq<Act>, i: nat)
    requires i < |acts| && Accepted(acts, i)
    ensures 0 <= acts[i].base < Run(acts).Head()
    ensures Run(acts).hist[acts[i].base] == Op(acts[i].client, acts[i].ops)
  {
    RunStep(acts, i);
    RunGrows(acts, i + 1);
  }

  /** Action i of a run puts the item with number k + 1 into the log. */
  predicate Puts(acts: seq<Act>, i: nat, k: nat, item: Item)
    requires i < |acts|
  {
    |Run(acts[..i]).hist| == k &&
    match acts[i]
    case Submit(client, ops, base) => base == k && item == Op(client, ops)
    case MarkSaved(_) => false
    case Reset => item == ResetMark
  }

  /** The log holds nothing else: each number is a reset, or the batch of a submission against the number before it. */
  lemma {:induction false} HistoryIs(acts: seq<Act>, k: nat)
    requires k < |Run(acts).hist|
    ensures exists i: nat :: i < |acts| && Puts(acts, i, k, Run(acts).hist[k])
    decreases |acts|
  {
    var front, n := acts[..|acts| - 1], |acts| - 1;
    if k < |Run(front).hist| {
      HistoryIs(front, k);
      var i: nat :| i < n && Puts(front, i, k, Run(front).hist[k]);
      assert front[..i] == acts[..i];
      RunGrows(acts, n);
      assert Puts(acts, i, k, Run(acts).hist[k]);
    } else {
      assert Puts(acts, n, k, Run(acts).hist[k]);
    }
  }

  /** After a reset nobody who still holds an older head can append or catch up. */
  lemma ResetFences(acts: seq<Act>, i: nat, j: nat, room: RoomKey, head: int)
    requires i < j < |acts| && acts[i].Reset?
    requires head <= Run(acts[..i]).Head()
    ensures acts[j].Submit? && acts[j].base == head ==> !Accepted(acts, j)
    ensures Since(room, Run(acts[..j]), head).None?
  {
    RunStep(acts, i);
    RunGrows(acts[..j], i + 1);
    assert acts[..j][..i + 1] == acts[..i + 1];
  }

  // --------------------------------------------------------------- who may catch up

  /** Action j of a run passes over number n: a reset when n existed, or a save of a later number that exists. */
  predicate PassesOver(acts: seq<Act>, j: nat, n: nat)
    requires j < |acts|
  {
    var head := |Run(acts[..j]).hist|;
    match acts[j]
    case Submit(_, _, _) => false
    case MarkSaved(m) => n < m && n < head
    case Reset => n <= head
  }

  /** The watermark is above n if and only if some action has passed over n. */
  lemma {:induction false} WatermarkIs(acts: seq<Act>, n: nat)
    ensures Run(acts).saved > n <==> exists j :: 0 <= j < |acts| && PassesOver(acts, j, n)
  {
    if acts == [] {
    } else {
      var front, k := acts[..|acts| - 1], |acts| - 1;
      WatermarkIs(front, n);
      RunValid(front);
      forall j | 0 <= j < k ensures PassesOver(acts, j, n) <==> PassesOver(front, j, n) {
        assert front[..j] == acts[..j];
      }
      assert PassesOver(acts, k, n) <==> Run(acts).saved > n >= Run(front).saved || (Run(front).saved > n && PassesOver(acts, k, n));
    }
  }

  /** In a valid log: a catch-up is accepted if and only if the number is retained, and then it is complete. */
  lemma SinceAccepts(room: RoomKey, log: Log, n: int)
    requires log.Valid()
    ensures Since(room, log, n).Some? <==> Max(log.saved, |log.hist| - 5000) <= Max(0, n) <= |log.hist|
    ensures Since(room, log, n).Some? ==> Since(room, log, n).value == OpsAfter(room, log.hist, Max(0, n))
  {
  }

  /**
   * Over runs: whoever holds number n is told to reload if and only if the log never came to n, has gone on by more
   * than 5000 since, or was reset or saved past n.
   */
  lemma CatchUpAccepted(acts: seq<Act>, room: RoomKey, n: int)
    ensures var from, head := Max(0, n), |Run(acts).hist|;
      Since(room, Run(acts), n).None? <==>
        from > head || head > from + 5000 || exists j :: 0 <= j < |acts| && PassesOver(acts, j, from)
  {
    RunValid(acts);
    WatermarkIs(acts, Max(0, n));
    SinceAccepts(room, Run(acts), n);
  }
}
