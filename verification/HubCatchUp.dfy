/** Catching up while others commit. */
module HubCatchUp {
  import opened Prelude
  import opened OpLog
  import opened HubMachine
  import opened HubInvariant
  import opened HubCalls
  import opened HubTheorems

  // ------------------------------------------------------------- logs only grow

  /** Room k's log was not forgotten in between and has only grown, or it was forgotten. */
  predicate Grown(s: State, s': State, k: RoomKey) {
    GrownStore(s.store, s'.store, k)
  }

  predicate GrownStore(store: map<RoomKey, Slot>, store': map<RoomKey, Slot>, k: RoomKey) {
    var a, b := SlotAt(store, k), SlotAt(store', k);
    a.epoch < b.epoch || (a.epoch == b.epoch && a.log.hist <= b.log.hist)
  }

  lemma StoreOpGrows(store: map<RoomKey, Slot>, j: RoomKey, op: StoreOp, k: RoomKey)
    ensures GrownStore(store, store[j := RunStore(SlotAt(store, j), op)], k)
  {
  }

  lemma PinnedGrows(s: State, t: Tid, op: PinOp, rid: RoomId, k: RoomKey)
    requires rid in s.rooms
    ensures Grown(s, RunPinned(s, t, op, rid), k)
  {
    hide RunStore, Appended;
    match op
    case WithStore(j, o) => StoreOpGrows(s.store, j, o, k);
    case SubmitOps(c, j, ops, base) => AppendGrows(s.store, j, c, ops, k);
    case _ =>
  }

  lemma AppendGrows(store: map<RoomKey, Slot>, j: RoomKey, c: ClientId, ops: Ops, k: RoomKey)
    ensures var slot := SlotAt(store, j); GrownStore(store, store[j := slot.(log := Appended(slot.log, c, ops))], k)
  {
  }

  lemma RemoveGrows(s: State, t: Tid, rid: RoomId, c: ClientId, k: RoomKey)
    requires rid in s.rooms
    ensures Grown(s, RemovePeer(s, t, rid, c), k)
  {
    hide RunStore;
    StoreOpGrows(s.store, s.rooms[rid].key, ForgetOp, k);
  }

  lemma AdvanceGrows(s: State, t: Tid, k: RoomKey)
    requires Enabled(s, t, Advance)
    ensures Grown(s, AdvanceStep(s, t), k)
  {
    hide RunPinned, RemovePeer, RunStore, JoinRoom, FinishRoom, AcquireHub;
    match PcAt(s.pcs, t)
    case Pinned(op, rid) => PinnedGrows(s, t, op, rid, k);
    case LeaveLocked(c, _, rid) => RemoveGrows(s, t, rid, c, k);
    case Unpinned(j, op) => StoreOpGrows(s.store, j, op, k);
    case JoinLocked(c, j, name, rid) => JoinStore(s, t, c, j, name, rid);
    case Waiting(req) => AcquireStore(s, t, req);
    case Sending(held) => FinishStore(s, t, held);
    case _ =>
  }

  lemma JoinStore(s: State, t: Tid, c: ClientId, k: RoomKey, name: string, rid: RoomId)
    requires rid in s.rooms
    ensures JoinRoom(s, t, c, k, name, rid).store == s.store
  {
  }

  lemma AcquireStore(s: State, t: Tid, req: Request)
    ensures AcquireHub(s, t, req).store == s.store
  {
    hide KeysOf, PcAt;
    match req
    case Join(_, _, _) =>
    case Leave(_, _) =>
    case LeaveAll(_) =>
    case Pin(_) =>
  }

  lemma FinishStore(s: State, t: Tid, held: seq<Hold>)
    requires held != [] && held[0].rid in s.rooms
    ensures FinishRoom(s, t, held).store == s.store
  {
  }

  lemma StepGrows(s: State, t: Tid, a: Action, k: RoomKey)
    requires Enabled(s, t, a)
    ensures Grown(s, Do(s, t, a), k)
  {
    hide AdvanceStep, RemovePeer;
    match a
    case Advance => AdvanceGrows(s, t, k);
    case Sweep(j) =>
      var pc := PcAt(s.pcs, t);
      if j in s.index && pc.client in s.rooms[s.index[j]].peers { RemoveGrows(s, t, s.index[j], pc.client, k); }
    case _ =>
  }

  lemma GrownChain(a: State, b: State, c: State, k: RoomKey)
    requires Grown(a, b, k) && Grown(b, c, k)
    ensures Grown(a, c, k)
  {
  }

  /** From an earlier to a later state of one schedule. */
  lemma {:induction false} RunGrown(moves: seq<Move>, n: nat, m: State, s: State, k: RoomKey)
    requires n <= |moves| && Reached(moves[..n], m) && Reached(moves, s)
    ensures Grown(m, s, k)
    decreases |moves| - n
  {
    hide Do, Enabled;
    if n == |moves| {
      assert moves[..n] == moves;
    } else {
      var init := moves[..|moves| - 1];
      PrefixReached(moves, s);
      var x := Exec(init).value;
      assert init[..n] == moves[..n];
      RunGrown(init, n, m, x, k);
      StepGrows(x, moves[|moves| - 1].t, moves[|moves| - 1].a, k);
      GrownChain(m, x, s, k);
    }
  }

  lemma PrefixReached(moves: seq<Move>, s: State)
    requires moves != [] && Reached(moves, s)
    ensures var before, last := Exec(moves[..|moves| - 1]), moves[|moves| - 1];
      before.Some? && Enabled(before.value, last.t, last.a) && s == Do(before.value, last.t, last.a)
  {
    hide Do, Enabled;
  }

  // ------------------------------------------------------------------ joining up

  /** What a client still takes of what was pushed to it: the entries numbered above `top`. */
  function Later(got: seq<Entry>, top: int): seq<Entry> {
    if got == [] then []
    else Later(got[..|got| - 1], top) + if got[|got| - 1].num > top then [got[|got| - 1]] else []
  }

  /** The last number an answer carries, or the number it was asked for. */
  function Top(answer: seq<Entry>, n: int): int {
    if answer == [] then n else answer[|answer| - 1].num
  }

  lemma {:induction false} LaterOps(room: RoomKey, hist: seq<Item>, from: nat, top: nat)
    ensures Later(OpsAfter(room, hist, from), top) == OpsAfter(room, hist, Max(from, top))
  {
    var all := OpsAfter(room, hist, from);
    if |hist| <= from {
    } else {
      var init, last := hist[..|hist| - 1], hist[|hist| - 1];
      LaterOps(room, init, from, top);
      if last.Op? {
        LaterSnoc(OpsAfter(room, init, from), Entry(room, |hist|, last.client, last.ops), top);
        if |hist| <= top { NothingAfter(room, init, Max(from, top)); }
      } else if |hist| <= top {
        NothingAfter(room, init, Max(from, top));
      }
    }
  }

  lemma LaterSnoc(es: seq<Entry>, e: Entry, top: int)
    ensures Later(es + [e], top) == Later(es, top) + if e.num > top then [e] else []
  {
    assert (es + [e])[..|es|] == es;
  }

  lemma NothingAfter(room: RoomKey, hist: seq<Item>, from: nat)
    requires |hist| <= from
    ensures OpsAfter(room, hist, from) == []
  {
  }

  /** The later part of a log that has grown. */
  lemma {:induction false} OpsAfterSplit(room: RoomKey, hist: seq<Item>, hist': seq<Item>, from: nat)
    requires hist <= hist' && from <= |hist|
    ensures OpsAfter(room, hist', from) == OpsAfter(room, hist, from) + OpsAfter(room, hist', |hist|)
    decreases |hist'|
  {
    if |hist'| == |hist| {
      assert hist == hist';
    } else {
      OpsAfterSplit(room, hist, hist'[..|hist'| - 1], from);
    }
  }

  /** Numbers that carry no entry may be skipped. */
  lemma {:induction false} SkipGap(room: RoomKey, hist: seq<Item>, a: nat, b: nat)
    requires a <= b <= |hist| && forall i :: a <= i < b ==> hist[i].ResetMark?
    ensures OpsAfter(room, hist, a) == OpsAfter(room, hist, b)
  {
    if |hist| == b {
      AllMarks(room, hist, a);
    } else {
      SkipGap(room, hist[..|hist| - 1], a, b);
    }
  }

  lemma {:induction false} AllMarks(room: RoomKey, hist: seq<Item>, a: nat)
    requires a <= |hist| && forall i :: a <= i < |hist| ==> hist[i].ResetMark?
    ensures OpsAfter(room, hist, a) == []
  {
    if |hist| == a {
    } else {
      AllMarks(room, hist[..|hist| - 1], a);
    }
  }

  /** Behind the last entry of an answer there are only reset marks. */
  lemma {:induction false} TopIs(room: RoomKey, hist: seq<Item>, n: nat)
    requires n <= |hist|
    ensures var top := Top(OpsAfter(room, hist, n), n);
      n <= top <= |hist| && forall i :: top <= i < |hist| ==> hist[i].ResetMark?
  {
    if |hist| == n {
    } else {
      TopIs(room, hist[..|hist| - 1], n);
    }
  }

  /**
   * A catch-up answer may be read at any moment, while others commit, and what is pushed meanwhile may overlap it.
   * Once the room is unlocked again, the answer followed by the pushed and own batches numbered above it is exactly
   * the committed batches after the number asked for: in order, without gap or duplicate. This needs the log not to
   * be forgotten in between and the member to have joined before the answer was read.
   */
  lemma CatchUpJoinsUp(moves: seq<Move>, r: nat, m: State, s: State, k: RoomKey, c: ClientId, n: int)
    requires r <= |moves| && Reached(moves[..r], m) && Reached(moves, s)
    requires Unlocked(s, k) && c in s.rooms[s.index[k]].peers
    requires Since(k, SlotAt(m.store, k).log, n).Some? && SlotAt(m.store, k).epoch == SlotAt(s.store, k).epoch
    requires var sess := SessionOf(ObsAt(s.obs, c), k);
      sess.Some? ==> sess.value.epoch == SlotAt(s.store, k).epoch && sess.value.from <= SlotAt(m.store, k).log.Head()
    ensures var sess := SessionOf(ObsAt(s.obs, c), k);
      var answer := Since(k, SlotAt(m.store, k).log, n).value;
      && sess.Some?
      && answer + Later(sess.value.got, Top(answer, Max(0, n))) == OpsAfter(k, SlotAt(s.store, k).log.hist, Max(0, n))
  {
    hide Later, Top, OpsAfter, Reached, Unlocked;
    DeliveryIsExact(moves, s, k, c);
    RunGrown(moves, r, m, s, k);
    var from := SessionOf(ObsAt(s.obs, c), k).value.from;
    JoinUp(k, SlotAt(m.store, k).log.hist, SlotAt(s.store, k).log.hist, from, Max(0, n));
  }

  lemma JoinUp(room: RoomKey, hist: seq<Item>, hist': seq<Item>, from: nat, n: nat)
    requires hist <= hist' && from <= |hist| && n <= |hist|
    ensures var answer := OpsAfter(room, hist, n);
      answer + Later(OpsAfter(room, hist', from), Top(answer, n)) == OpsAfter(room, hist', n)
  {
    hide Later, Top, OpsAfter;
    var top := Top(OpsAfter(room, hist, n), n);
    TopIs(room, hist, n);
    LaterOps(room, hist', from, top);
    SkipGap(room, hist', Max(from, top), |hist|);
    OpsAfterSplit(room, hist, hist', n);
  }
}
