/**
 Steps that change nobody's membership and nobody's knowledge: taking and
 releasing locks, and moving from one place in the code to another.  The
 lemmas ending in Same say what such a step leaves alone; those ending in
 Keeps put the parts of the invariant together again, one for each kind of
 step.  The steps that do change a room are in the modules that build on this
 one, and use the same frame: only thread t moves, and only for itself.
 */
module HubSteps {
  import opened Prelude
  import opened OpLog
  import opened HubMachine
  import opened HubInvariant

  // ------------------------------------------------------------------- frames

  predicate OwnLock(before: Option<Tid>, after: Option<Tid>, t: Tid) {
    before == after || ((before == None || before == Some(t)) && (after == None || after == Some(t)))
  }

  ghost predicate OnlyMoves(before: map<Tid, Pc>, after: map<Tid, Pc>, t: Tid) {
    forall u: Tid :: u != t ==> PcAt(after, u) == PcAt(before, u)
  }

  ghost predicate OwnLocks(s: State, s': State, t: Tid) {
    forall rid: RoomId :: OwnLock(LockOf(s.rooms, rid), LockOf(s'.rooms, rid), t)
  }

  /** No room that still waits for its first member loses its creator. */
  ghost predicate CreationsKept(s: State, s': State) {
    forall rid :: rid in s.rooms && s.rooms[rid].peers == map[] && BeingCreated(s, rid) ==> BeingCreated(s', rid)
  }

  /** The lock table stays right when only thread t moves and takes or releases locks for itself. */
  lemma LocksMove(s: State, s': State, t: Tid)
    requires Locks(s.hub, s.rooms, s.pcs)
    requires OnlyMoves(s.pcs, s'.pcs, t)
    requires OwnLock(s.hub, s'.hub, t)
    requires s'.hub == Some(t) <==> HoldsHub(PcAt(s'.pcs, t))
    requires OwnLocks(s, s', t)
    requires forall rid: RoomId :: LockOf(s'.rooms, rid) == Some(t) <==> HoldsRoom(PcAt(s'.pcs, t), rid)
    ensures Locks(s'.hub, s'.rooms, s'.pcs)
  {
    forall u: Tid, rid: RoomId
      ensures LockOf(s'.rooms, rid) == Some(u) <==> HoldsRoom(PcAt(s'.pcs, u), rid)
    {
      if u != t {
        assert OwnLock(LockOf(s.rooms, rid), LockOf(s'.rooms, rid), t);
        assert LockOf(s.rooms, rid) == Some(u) <==> HoldsRoom(PcAt(s.pcs, u), rid);
      }
    }
    forall u: Tid
      ensures s'.hub == Some(u) <==> HoldsHub(PcAt(s'.pcs, u))
    {
      if u != t {
        assert s.hub == Some(u) <==> HoldsHub(PcAt(s.pcs, u));
      }
    }
  }

  /** Same rooms under the same keys with the same members. */
  ghost predicate SamePeople(s: State, s': State) {
    && s'.index == s.index
    && s'.nextRoom == s.nextRoom
    && s'.byClient == s.byClient
    && s'.rooms.Keys == s.rooms.Keys
    && forall rid :: rid in s.rooms ==> s'.rooms[rid].key == s.rooms[rid].key && s'.rooms[rid].peers == s.rooms[rid].peers
  }

  lemma RelockSame(s: State, s': State, rid: RoomId, lock: Option<Tid>)
    requires rid in s.rooms && s'.rooms == s.rooms[rid := s.rooms[rid].(lock := lock)]
    requires s'.index == s.index && s'.nextRoom == s.nextRoom && s'.byClient == s.byClient
    ensures SamePeople(s, s')
  {
  }

  lemma TablesSame(s: State, s': State)
    requires Tables(s) && SamePeople(s, s')
    requires CreationsKept(s, s')
    ensures Tables(s')
  {
    forall rid | rid in s'.rooms && s'.rooms[rid].peers != map[] ensures Live(s', rid) {
      assert Live(s, rid);
    }
    forall k | k in s'.index && s'.rooms[s'.index[k]].peers == map[] ensures BeingCreated(s', s'.index[k]) {
      assert BeingCreated(s, s.index[k]);
    }
  }

  lemma MirrorsSame(s: State, s': State)
    requires Mirrors(s) && SamePeople(s, s')
    ensures Mirrors(s')
  {
    forall c, k ensures k in KeysOf(s'.byClient, c) <==> Member(s', c, k) {
      assert k in KeysOf(s.byClient, c) <==> Member(s, c, k);
    }
  }

  lemma HoldsSame(held: seq<Hold>, s: State, s': State)
    requires HoldsOk(held, s.rooms) && SamePeople(s, s')
    ensures HoldsOk(held, s'.rooms)
  {
    forall h | h in held ensures h.rid in s'.rooms && HoldOk(h, s'.rooms[h.rid]) {
      assert HoldOk(h, s.rooms[h.rid]);
    }
  }

  lemma PcSame(pc: Pc, s: State, s': State)
    requires PcOk(pc, s.index, s.rooms, s.byClient) && SamePeople(s, s')
    ensures PcOk(pc, s'.index, s'.rooms, s'.byClient)
  {
    match pc
    case Sweeping(_, _, held) => HoldsSame(held, s, s');
    case Sending(held) => HoldsSame(held, s, s');
    case _ =>
  }

  lemma ThreadsSame(s: State, s': State, t: Tid)
    requires Threads(s) && SamePeople(s, s')
    requires OnlyMoves(s.pcs, s'.pcs, t)
    requires PcOk(PcAt(s'.pcs, t), s'.index, s'.rooms, s'.byClient)
    ensures Threads(s')
  {
    forall u: Tid ensures PcOk(PcAt(s'.pcs, u), s'.index, s'.rooms, s'.byClient) {
      if u != t {
        assert PcOk(PcAt(s.pcs, u), s.index, s.rooms, s.byClient);
        PcSame(PcAt(s.pcs, u), s, s');
      }
    }
  }

  lemma HoldOfSame(s: State, s': State, t: Tid, rid: RoomId)
    requires OnlyMoves(s.pcs, s'.pcs, t)
    requires LockOf(s'.rooms, rid) == LockOf(s.rooms, rid)
    requires FindHold(HoldsOf(PcAt(s'.pcs, t)), rid) == FindHold(HoldsOf(PcAt(s.pcs, t)), rid)
    ensures HoldOf(s', rid) == HoldOf(s, rid)
  {
  }

  // ------------------------------------------------- steps that move one thread

  /** Between two places that owe nothing, no debt changes hands. */
  lemma QuietHolds(s: State, s': State, t: Tid, rid: RoomId)
    requires OnlyMoves(s.pcs, s'.pcs, t)
    requires HoldsOf(PcAt(s.pcs, t)) == HoldsOf(PcAt(s'.pcs, t)) == []
    requires OwnLock(LockOf(s.rooms, rid), LockOf(s'.rooms, rid), t)
    ensures HoldOf(s', rid) == HoldOf(s, rid)
  {
  }

  lemma QuietKnowledge(s: State, s': State, t: Tid)
    requires Knowledge(s) && SamePeople(s, s') && s'.store == s.store && s'.obs == s.obs
    requires OnlyMoves(s.pcs, s'.pcs, t)
    requires HoldsOf(PcAt(s.pcs, t)) == HoldsOf(PcAt(s'.pcs, t)) == []
    requires OwnLocks(s, s', t)
    ensures Knowledge(s')
  {
    forall rid, c | rid in s'.rooms && c in s'.rooms[rid].peers ensures PeerKnows(s', rid, c) {
      assert PeerKnows(s, rid, c);
      QuietHolds(s, s', t, rid);
    }
  }

  /**
   Thread t moves between places that owe nothing; it may take or drop the hub
   lock and one room lock, but no table, log or store changes.
   */
  lemma QuietMove(s: State, s': State, t: Tid)
    requires Inv(s)
    requires SamePeople(s, s') && s'.store == s.store && s'.obs == s.obs
    requires OnlyMoves(s.pcs, s'.pcs, t)
    requires Locks(s'.hub, s'.rooms, s'.pcs)
    requires HoldsOf(PcAt(s.pcs, t)) == HoldsOf(PcAt(s'.pcs, t)) == []
    requires OwnLocks(s, s', t)
    requires CreationsKept(s, s')
    requires PcOk(PcAt(s'.pcs, t), s.index, s.rooms, s.byClient)
    ensures Inv(s')
  {
    TablesSame(s, s');
    MirrorsSame(s, s');
    PcSame(PcAt(s'.pcs, t), s, s');
    ThreadsSame(s, s', t);
    QuietKnowledge(s, s', t);
  }

  /** Only the thread that is creating a room can end its creation. */
  lemma CreatedKept(s: State, s': State, t: Tid)
    requires OnlyMoves(s.pcs, s'.pcs, t) && OwnLock(s.hub, s'.hub, t)
    requires !PcAt(s.pcs, t).JoinLocked?
    ensures CreationsKept(s, s')
  {
  }

  /** A move between two places in the code that hold no lock at all. */
  lemma LockFreeMove(s: State, t: Tid, pc: Pc)
    requires Inv(s)
    requires var was := PcAt(s.pcs, t); was.Idle? || was.Waiting? || was.FileReading? || was.Unpinned?
    requires pc.Idle? || pc.Waiting? || pc.FileReading? || pc.Unpinned?
    requires PcOk(pc, s.index, s.rooms, s.byClient)
    ensures Inv(Goto(s, t, pc))
  {
    var s' := Goto(s, t, pc);
    LocksMove(s, s', t);
    CreatedKept(s, s', t);
    QuietMove(s, s', t);
  }

  /** Taking the hub lock on the way to an existing room, or to sweep. */
  lemma TakeHub(s: State, t: Tid, pc: Pc)
    requires Inv(s) && s.hub.None? && PcAt(s.pcs, t).Waiting?
    requires HoldsHub(pc) && HoldsOf(pc) == []
    requires PcOk(pc, s.index, s.rooms, s.byClient)
    ensures Inv(s.(hub := Some(t), pcs := s.pcs[t := pc]))
  {
    hide Tables, Mirrors, Knowledge, NoEcho;
    var s' := s.(hub := Some(t), pcs := s.pcs[t := pc]);
    LocksMove(s, s', t);
    QuietMove(s, s', t);
  }

  /** Dropping the hub lock with nothing else held. */
  lemma DropHub(s: State, t: Tid)
    requires Inv(s) && s.hub == Some(t)
    requires var pc := PcAt(s.pcs, t); HoldsHub(pc) && HoldsOf(pc) == []
    requires forall rid :: rid in s.rooms && s.rooms[rid].peers == map[] ==> !BeingCreated(s, rid)
    ensures Inv(s.(hub := None, pcs := s.pcs[t := Idle]))
  {
    var s' := s.(hub := None, pcs := s.pcs[t := Idle]);
    LocksMove(s, s', t);
    QuietMove(s, s', t);
  }

  lemma PinLocks(s: State, t: Tid, op: PinOp, rid: RoomId)
    requires Locks(s.hub, s.rooms, s.pcs) && PcAt(s.pcs, t) == PinLocked(op, rid) && Free(s, rid)
    ensures var s' := PinRoom(s, t, op, rid);
      Locks(s'.hub, s'.rooms, s'.pcs) && OwnLocks(s, s', t) && OwnLock(s.hub, s'.hub, t)
  {
    var s' := PinRoom(s, t, op, rid);
    assert s.hub == Some(t) <==> HoldsHub(PcAt(s.pcs, t));
    forall r: RoomId ensures LockOf(s'.rooms, r) == Some(t) <==> HoldsRoom(PcAt(s'.pcs, t), r) {
      assert LockOf(s.rooms, r) == Some(t) <==> HoldsRoom(PcAt(s.pcs, t), r);
    }
    LocksMove(s, s', t);
  }

  lemma PinFrame(s: State, t: Tid, op: PinOp, rid: RoomId)
    requires PcAt(s.pcs, t) == PinLocked(op, rid) && Free(s, rid) && s.hub == Some(t)
    requires PcOk(PcAt(s.pcs, t), s.index, s.rooms, s.byClient)
    ensures var s' := PinRoom(s, t, op, rid);
      && SamePeople(s, s') && OnlyMoves(s.pcs, s'.pcs, t) && CreationsKept(s, s')
      && PcOk(PcAt(s'.pcs, t), s.index, s.rooms, s.byClient)
  {
    RelockSame(s, PinRoom(s, t, op, rid), rid, Some(t));
  }

  /** Trading the hub lock for the lock of a pinned room. */
  lemma PinKeeps(s: State, t: Tid, op: PinOp, rid: RoomId)
    requires Inv(s) && PcAt(s.pcs, t) == PinLocked(op, rid) && Free(s, rid)
    ensures Inv(PinRoom(s, t, op, rid))
  {
    assert s.hub == Some(t) <==> HoldsHub(PcAt(s.pcs, t));
    assert PcOk(PcAt(s.pcs, t), s.index, s.rooms, s.byClient);
    PinLocks(s, t, op, rid);
    PinFrame(s, t, op, rid);
    QuietMove(s, PinRoom(s, t, op, rid), t);
  }

  lemma UnlockLocks(s: State, t: Tid)
    requires Locks(s.hub, s.rooms, s.pcs) && PcAt(s.pcs, t).Pinned? && PcAt(s.pcs, t).rid in s.rooms
    ensures var s' := Unlock(s, t, PcAt(s.pcs, t).rid);
      Locks(s'.hub, s'.rooms, s'.pcs) && OwnLocks(s, s', t)
  {
    var rid := PcAt(s.pcs, t).rid;
    var s' := Unlock(s, t, rid);
    assert LockOf(s.rooms, rid) == Some(t) <==> HoldsRoom(PcAt(s.pcs, t), rid);
    forall r: RoomId ensures LockOf(s'.rooms, r) == Some(t) <==> HoldsRoom(PcAt(s'.pcs, t), r) {
      assert LockOf(s.rooms, r) == Some(t) <==> HoldsRoom(PcAt(s.pcs, t), r);
    }
    assert s.hub == Some(t) <==> HoldsHub(PcAt(s.pcs, t));
    LocksMove(s, s', t);
  }

  /** Giving a pinned room back untouched. */
  lemma UnlockKeeps(s: State, t: Tid)
    requires Inv(s) && PcAt(s.pcs, t).Pinned? && PcAt(s.pcs, t).rid in s.rooms
    ensures Inv(Unlock(s, t, PcAt(s.pcs, t).rid))
  {
    hide Tables, Mirrors, Knowledge, NoEcho, Threads;
    var s' := Unlock(s, t, PcAt(s.pcs, t).rid);
    UnlockLocks(s, t);
    CreatedKept(s, s', t);
    RelockSame(s, s', PcAt(s.pcs, t).rid, None);
    QuietMove(s, s', t);
  }
}
