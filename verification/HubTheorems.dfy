/** What the hub promises its clients and its host. */
module HubTheorems {
  import opened Prelude
  import opened OpLog
  import opened HubMachine
  import opened HubInvariant
  import opened HubFanout
  import opened HubCalls

  /** The state is one that some schedule of calls reaches. */
  ghost predicate Reached(moves: seq<Move>, s: State) {
    Exec(moves) == Some(s)
  }

  predicate Unlocked(s: State, k: RoomKey) {
    k in s.index && Free(s, s.index[k])
  }

  // ---------------------------------------------------------- views and delivery

  /**
   Whenever a room is unlocked, each member's log rebuilds exactly the room's
   other members and their selections.
   */
  lemma ViewsAgree(moves: seq<Move>, s: State, k: RoomKey, c: ClientId)
    requires Reached(moves, s) && Unlocked(s, k) && c in s.rooms[s.index[k]].peers
    ensures var sess := SessionOf(ObsAt(s.obs, c), k);
      sess.Some? && sess.value.view == Selections(Others(s.rooms[s.index[k]].peers, c))
  {
    RunKeeps(moves);
    assert PeerKnows(s, s.index[k], c);
  }

  /**
   Whenever a room is unlocked, and unless its log was forgotten under the
   member, the batches pushed to the member together with its own accepted
   ones are exactly the committed batches since the head its join returned:
   in order, without gap or duplicate, and none of its own was pushed.
   */
  lemma DeliveryIsExact(moves: seq<Move>, s: State, k: RoomKey, c: ClientId)
    requires Reached(moves, s) && Unlocked(s, k) && c in s.rooms[s.index[k]].peers
    ensures var sess := SessionOf(ObsAt(s.obs, c), k);
      sess.Some? && (sess.value.epoch == SlotAt(s.store, k).epoch ==>
        var hist := SlotAt(s.store, k).log.hist;
        var got := sess.value.got;
        && got == OpsAfter(k, hist, sess.value.from)
        && (forall e :: e in got <==>
              sess.value.from < e.num <= |hist| && e.room == k && hist[e.num - 1] == Op(e.client, e.ops))
        && (forall i, j :: 0 <= i < j < |got| ==> got[i].num < got[j].num))
    ensures forall o :: o in ObsAt(s.obs, c) ==> Unechoed(c, o)
  {
    RunKeeps(moves);
    assert PeerKnows(s, s.index[k], c);
    OpsAfterExact(k, SlotAt(s.store, k).log.hist, SessionOf(ObsAt(s.obs, c), k).value.from);
  }

  /** An event reaches a client only while it is a member of the live room the event is about. */
  lemma SentToMembersOnly(moves: seq<Move>, s: State, t: Tid, c: ClientId)
    requires Reached(moves, s) && Enabled(s, t, Send(c))
    ensures var hold := PcAt(s.pcs, t).held[0];
      && hold.rid in s.rooms && HoldOk(hold, s.rooms[hold.rid])
      && RoomOf(hold.event.value) == hold.room
      && Member(s, c, hold.room) && s.index[hold.room] == hold.rid
      && Do(s, t, Send(c)).obs == Observe(s.obs, c, Pushed(hold.event.value))
  {
    RunKeeps(moves);
    var hold := PcAt(s.pcs, t).held[0];
    assert PcOk(PcAt(s.pcs, t), s.index, s.rooms, s.byClient);
    assert HoldOk(hold, s.rooms[hold.rid]);
    assert Live(s, hold.rid);
  }

  /** A batch is announced only after the log has it under its final number. */
  lemma CommittedBeforeSent(moves: seq<Move>, s: State, t: Tid, c: ClientId)
    requires Reached(moves, s) && Enabled(s, t, Send(c)) && PcAt(s.pcs, t).held[0].event.value.Committed?
    ensures var entry := PcAt(s.pcs, t).held[0].event.value.entry;
      var slot := SlotAt(s.store, entry.room);
      var sess := SessionOf(ObsAt(s.obs, c), entry.room);
      && sess.Some?
      && (sess.value.epoch == slot.epoch ==>
            0 < entry.num <= slot.log.Head() && slot.log.hist[entry.num - 1] == Op(entry.client, entry.ops))
  {
    RunKeeps(moves);
    var hold := PcAt(s.pcs, t).held[0];
    SentToMembersOnly(moves, s, t, c);
    HoldOfHead(s, t, PcAt(s.pcs, t).held);
    assert PeerKnows(s, hold.rid, c);
    PendingIsCommitted(hold, c, s.rooms[hold.rid].peers, SlotAt(s.store, hold.room), SessionOf(ObsAt(s.obs, c), hold.room));
  }

  lemma PendingIsCommitted(hold: Hold, c: ClientId, peers: Peers, slot: Slot, sess: Option<Session>)
    requires c in hold.remaining && hold.event.Some? && hold.event.value.Committed? && RoomOf(hold.event.value) == hold.room
    requires PeerOk(hold.room, c, peers, Some(hold), slot, sess) && !Joining(Some(hold), c)
    ensures sess.Some?
    ensures sess.value.epoch == slot.epoch ==> var entry := hold.event.value.entry;
      0 < entry.num <= slot.log.Head() && slot.log.hist[entry.num - 1] == Op(entry.client, entry.ops)
  {
    var entry := hold.event.value.entry;
    var settled := Settled(Some(hold), c, hold.room, sess).value;
    assert settled.got == sess.value.got + [entry];
    assert entry in settled.got;
    OpsAfterExact(hold.room, slot.log.hist, settled.from);
  }

  // ------------------------------------------------------------------- tables

  /** The client index mirrors the rooms; rooms and index sets are never empty, rooms never overfull. */
  lemma TablesMirror(moves: seq<Move>, s: State)
    requires Reached(moves, s)
    ensures forall c, k :: c in s.byClient && k in s.byClient[c] <==> Member(s, c, k)
    ensures forall c :: c in s.byClient ==> s.byClient[c] != {}
    ensures forall k :: k in s.index ==> s.index[k] in s.rooms && |s.rooms[s.index[k]].peers| <= 64
    ensures s.hub.None? ==> forall k :: k in s.index ==> s.rooms[s.index[k]].peers != map[]
  {
    RunKeeps(moves);
    forall c, k ensures c in s.byClient && k in s.byClient[c] <==> Member(s, c, k) {
      assert k in KeysOf(s.byClient, c) <==> Member(s, c, k);
    }
    forall k | s.hub.None? && k in s.index ensures s.rooms[s.index[k]].peers != map[] {
      assert !BeingCreated(s, s.index[k]);
    }
  }

  // -------------------------------------------------------------------- locks

  /** Whoever waits for the hub lock holds nothing; whoever waits for a room holds the hub lock. */
  lemma LockOrder(moves: seq<Move>, s: State, t: Tid, rid: RoomId)
    requires Reached(moves, s)
    ensures var pc := PcAt(s.pcs, t);
      && (pc.Waiting? ==> s.hub != Some(t) && LockOf(s.rooms, rid) != Some(t))
      && (pc.JoinLocked? || pc.LeaveLocked? || pc.PinLocked? || pc.Sweeping? ==> s.hub == Some(t))
      && (pc.Pinned? || pc.Sending? || pc.FileReading? || pc.Unpinned? ==> s.hub != Some(t))
      && (pc.Pinned? ==> pc.rid in s.rooms && Live(s, pc.rid) && LockOf(s.rooms, pc.rid) == Some(t))
      && (pc.Idle? ==> s.hub != Some(t) && LockOf(s.rooms, rid) != Some(t))
  {
    RunKeeps(moves);
    assert s.hub == Some(t) <==> HoldsHub(PcAt(s.pcs, t));
    assert LockOf(s.rooms, rid) == Some(t) <==> HoldsRoom(PcAt(s.pcs, t), rid);
    if PcAt(s.pcs, t).Pinned? {
      assert PcOk(PcAt(s.pcs, t), s.index, s.rooms, s.byClient);
      PinFacts(s, t, PcAt(s.pcs, t).op, PcAt(s.pcs, t).rid);
    }
  }

  ghost predicate Moves(s: State, t: Tid, a: Action) {
    !a.Start? && !a.StartFile? && Enabled(s, t, a)
  }

  ghost predicate CanMove(s: State) {
    exists t: Tid, a :: Moves(s, t, a)
  }

  /** A thread that only holds rooms never waits. */
  lemma RoomHolderMoves(s: State, t: Tid)
    requires Inv(s) && (PcAt(s.pcs, t).Pinned? || PcAt(s.pcs, t).Sending?)
    ensures CanMove(s)
  {
    var pc := PcAt(s.pcs, t);
    assert PcOk(pc, s.index, s.rooms, s.byClient);
    if pc.Pinned? || pc.held[0].remaining == {} {
      assert Moves(s, t, Advance);
    } else {
      assert HoldOk(pc.held[0], s.rooms[pc.held[0].rid]);
      var c :| c in pc.held[0].remaining;
      assert Moves(s, t, Send(c));
    }
  }

  /** A room that the hub-lock holder wants is free, or its holder is not waiting. */
  lemma WantedRoomMoves(s: State, t: Tid, rid: RoomId)
    requires Inv(s) && s.hub == Some(t) && rid in s.rooms && !HoldsRoom(PcAt(s.pcs, t), rid)
    requires !Free(s, rid)
    ensures CanMove(s)
  {
    var u := s.rooms[rid].lock.value;
    assert LockOf(s.rooms, rid) == Some(u) <==> HoldsRoom(PcAt(s.pcs, u), rid);
    assert s.hub == Some(u) <==> HoldsHub(PcAt(s.pcs, u));
    RoomHolderMoves(s, u);
  }

  /** The hub-lock holder's own room, if it wants just one, is indexed and not yet its own. */
  lemma LockedMoves(s: State, t: Tid)
    requires Inv(s) && s.hub == Some(t) && !PcAt(s.pcs, t).Sweeping?
    ensures CanMove(s)
  {
    var pc := PcAt(s.pcs, t);
    assert s.hub == Some(t) <==> HoldsHub(pc);
    assert PcOk(pc, s.index, s.rooms, s.byClient);
    if Free(s, pc.rid) {
      assert Moves(s, t, Advance);
    } else {
      WantedRoomMoves(s, t, pc.rid);
    }
  }

  lemma SweeperMoves(s: State, t: Tid)
    requires Inv(s) && s.hub == Some(t) && PcAt(s.pcs, t).Sweeping?
    ensures CanMove(s)
  {
    hide Locks, Tables, Mirrors, Threads, Knowledge, NoEcho, HoldsRoom, Member;
    var pc := PcAt(s.pcs, t);
    if pc.todo == {} {
      assert Moves(s, t, Advance);
    } else {
      var k :| k in pc.todo;
      SweepTarget(s, t, k);
      if Free(s, s.index[k]) {
        assert Moves(s, t, Sweep(k));
      } else {
        WantedRoomMoves(s, t, s.index[k]);
      }
    }
  }

  lemma SweepTarget(s: State, t: Tid, k: RoomKey)
    requires Tables(s) && Mirrors(s) && Threads(s) && PcAt(s.pcs, t).Sweeping? && k in PcAt(s.pcs, t).todo
    ensures k in s.index && s.index[k] in s.rooms && !HoldsRoom(PcAt(s.pcs, t), s.index[k])
  {
    var pc := PcAt(s.pcs, t);
    assert PcOk(pc, s.index, s.rooms, s.byClient);
    assert k in KeysOf(s.byClient, pc.client) <==> Member(s, pc.client, k);
    FindHoldIs(pc.held, s.index[k]);
  }

  lemma HubHolderMoves(s: State, t: Tid)
    requires Inv(s) && s.hub == Some(t)
    ensures CanMove(s)
  {
    if PcAt(s.pcs, t).Sweeping? {
      SweeperMoves(s, t);
    } else {
      LockedMoves(s, t);
    }
  }

  /** No deadlock: while any call is unfinished, some unfinished call can take a step. */
  lemma NoDeadlock(moves: seq<Move>, s: State, t: Tid)
    requires Reached(moves, s) && PcAt(s.pcs, t) != Idle
    ensures exists u: Tid, a :: Moves(s, u, a)
  {
    RunKeeps(moves);
    var pc := PcAt(s.pcs, t);
    if s.hub.Some? {
      HubHolderMoves(s, s.hub.value);
    } else if pc.Pinned? || pc.Sending? {
      RoomHolderMoves(s, t);
    } else {
      assert s.hub == Some(t) <==> HoldsHub(pc);
      assert Moves(s, t, Advance);
    }
  }

  // -------------------------------------------------------------- termination

  function Phase(pc: Pc): nat {
    match pc
    case Idle => 0
    case Sending(_) => 1
    case Pinned(_, _) => 2
    case Unpinned(_, _) => 2
    case Sweeping(_, _, _) => 2
    case JoinLocked(_, _, _, _) => 3
    case LeaveLocked(_, _, _) => 3
    case PinLocked(_, _) => 3
    case Waiting(_) => 4
    case FileReading(_, _) => 5
  }

  function Debt(held: seq<Hold>): nat {
    if held == [] then 0 else |held[0].remaining| + 1 + Debt(held[1..])
  }

  function Work(pc: Pc): nat {
    match pc
    case Sending(held) => Debt(held)
    case Sweeping(_, todo, _) => |todo|
    case _ => 0
  }

  predicate Closer(after: Pc, before: Pc) {
    Phase(after) < Phase(before) || (Phase(after) == Phase(before) && Work(after) < Work(before))
  }

  /**
   Every step of a call brings that call closer to its end, and no step of
   another thread moves it back: a call takes finitely many steps of its own.
   */
  lemma CallsProgress(s: State, t: Tid, a: Action, u: Tid)
    requires Moves(s, t, a)
    ensures Closer(PcAt(Do(s, t, a).pcs, t), PcAt(s.pcs, t))
    ensures u != t ==> PcAt(Do(s, t, a).pcs, u) == PcAt(s.pcs, u)
  {
    match a
    case Send(c) => SendProgress(s, t, c);
    case Sweep(k) => SweepProgress(s, t, k);
    case Cancel =>
    case Advance => AdvanceProgress(s, t, u);
  }

  lemma SendProgress(s: State, t: Tid, c: ClientId)
    requires Enabled(s, t, Send(c))
    ensures Closer(PcAt(Do(s, t, Send(c)).pcs, t), PcAt(s.pcs, t))
  {
    var held := PcAt(s.pcs, t).held;
    var next := PcAt(Do(s, t, Send(c)).pcs, t).held;
    assert next[1..] == held[1..];
    StrictSubsetSize(next[0].remaining, held[0].remaining);
  }

  lemma SweepProgress(s: State, t: Tid, k: RoomKey)
    requires Enabled(s, t, Sweep(k))
    ensures Closer(PcAt(Do(s, t, Sweep(k)).pcs, t), PcAt(s.pcs, t))
  {
    var todo := PcAt(s.pcs, t).todo;
    assert PcAt(Do(s, t, Sweep(k)).pcs, t).todo == todo - {k};
    StrictSubsetSize(todo - {k}, todo);
  }

  lemma AdvanceProgress(s: State, t: Tid, u: Tid)
    requires Enabled(s, t, Advance)
    ensures Closer(PcAt(AdvanceStep(s, t).pcs, t), PcAt(s.pcs, t))
    ensures u != t ==> PcAt(AdvanceStep(s, t).pcs, u) == PcAt(s.pcs, u)
  {
    hide JoinRoom, LeaveRoom, RunPinned, FinishRoom, AcquireHub;
    match PcAt(s.pcs, t)
    case Waiting(req) => AcquireProgress(s, t, req, u);
    case JoinLocked(c, k, name, rid) => JoinProgress(s, t, c, k, name, rid, u);
    case LeaveLocked(c, k, rid) => LeaveProgress(s, t, c, rid, u);
    case PinLocked(_, _) =>
    case Pinned(op, rid) => RunPinnedProgress(s, t, op, rid, u);
    case Sweeping(_, _, _) =>
    case Sending(held) => FinishProgress(s, t, held, u);
    case FileReading(_, _) =>
    case Unpinned(_, _) =>
  }

  /** The step only moves thread t, to a place of an earlier phase. */
  predicate Advances(s: State, s': State, t: Tid, u: Tid, phase: nat) {
    Phase(PcAt(s'.pcs, t)) < phase && (u != t ==> PcAt(s'.pcs, u) == PcAt(s.pcs, u))
  }

  lemma AcquireProgress(s: State, t: Tid, req: Request, u: Tid)
    ensures Advances(s, AcquireHub(s, t, req), t, u, 4)
  {
    hide Others, KeysOf, RunStore;
    match req
    case Join(c, k, name) =>
    case Leave(c, k) =>
    case LeaveAll(c) =>
    case Pin(op) =>
  }

  lemma JoinProgress(s: State, t: Tid, c: ClientId, k: RoomKey, name: string, rid: RoomId, u: Tid)
    requires rid in s.rooms
    ensures Advances(s, JoinRoom(s, t, c, k, name, rid), t, u, 3)
  {
  }

  lemma LeaveProgress(s: State, t: Tid, c: ClientId, rid: RoomId, u: Tid)
    requires rid in s.rooms
    ensures Advances(s, LeaveRoom(s, t, c, rid), t, u, 3)
  {
  }

  lemma RunPinnedProgress(s: State, t: Tid, op: PinOp, rid: RoomId, u: Tid)
    requires rid in s.rooms
    ensures Advances(s, RunPinned(s, t, op, rid), t, u, 2)
  {
  }

  lemma FinishProgress(s: State, t: Tid, held: seq<Hold>, u: Tid)
    requires held != [] && held[0].rid in s.rooms
    ensures var after := PcAt(FinishRoom(s, t, held).pcs, t);
      after == Idle || (after.Sending? && Debt(after.held) < Debt(held))
    ensures u != t ==> PcAt(FinishRoom(s, t, held).pcs, u) == PcAt(s.pcs, u)
  {
  }

  lemma StrictSubsetSize<T>(a: set<T>, b: set<T>)
    requires a < b
    ensures |a| < |b|
  {
    assert b == a + (b - a);
    assert |b| == |a| + |b - a|;
  }

  /** When every call has returned, every lock has been released. */
  lemma LocksReleased(moves: seq<Move>, s: State)
    requires Reached(moves, s) && forall t: Tid :: PcAt(s.pcs, t) == Idle
    ensures s.hub.None? && forall rid :: rid in s.rooms ==> s.rooms[rid].lock.None?
  {
    RunKeeps(moves);
    forall u: Tid ensures s.hub != Some(u) {
      assert s.hub == Some(u) <==> HoldsHub(PcAt(s.pcs, u));
    }
    forall u: Tid, rid: RoomId ensures LockOf(s.rooms, rid) != Some(u) {
      assert LockOf(s.rooms, rid) == Some(u) <==> HoldsRoom(PcAt(s.pcs, u), rid);
    }
    NobodyHolds(s.hub);
    forall rid | rid in s.rooms ensures s.rooms[rid].lock.None? {
      NobodyHolds(LockOf(s.rooms, rid));
    }
  }

  lemma NobodyHolds(lock: Option<Tid>)
    requires forall u: Tid :: lock != Some(u)
    ensures lock.None?
  {
    match lock
    case None =>
    case Some(u) => assert false;
  }
}
