/**
 Calls on a pinned room, store calls made without one, and the invariant of
 every run: StepKeeps collects all kinds of steps, RunKeeps follows for every schedule.
 */
module HubCalls {
  import opened Prelude
  import opened OpLog
  import opened HubMachine
  import opened HubInvariant
  import opened HubSteps
  import opened HubFanout
  import opened HubMembership
  import opened HubSweep

  // ------------------------------------------------------------- pinned rooms

  predicate Pins(s: State, t: Tid, op: PinOp, rid: RoomId) {
    PcAt(s.pcs, t) == Pinned(op, rid) && rid in s.rooms
  }

  lemma PinFacts(s: State, t: Tid, op: PinOp, rid: RoomId)
    requires Inv(s) && Pins(s, t, op, rid)
    ensures s.rooms[rid].key == op.room && Live(s, rid)
    ensures LockOf(s.rooms, rid) == Some(t) && s.hub != Some(t) && HoldOf(s, rid) == None
  {
    assert s.hub == Some(t) <==> HoldsHub(PcAt(s.pcs, t));
    assert PcOk(PcAt(s.pcs, t), s.index, s.rooms, s.byClient);
    assert LockOf(s.rooms, rid) == Some(t) <==> HoldsRoom(PcAt(s.pcs, t), rid);
  }

  /** From holding a pinned room to sending on it, with the same people in it. */
  ghost predicate Begins(s: State, s': State, t: Tid, op: PinOp, rid: RoomId, hold: Hold) {
    && Pins(s, t, op, rid)
    && s' == s.(rooms := s'.rooms, store := s'.store, pcs := s.pcs[t := Sending([hold])])
    && OnlyRoom(s, s', rid)
    && s'.rooms[rid].lock == s.rooms[rid].lock
    && s'.rooms[rid].peers.Keys == s.rooms[rid].peers.Keys
    && hold.rid == rid
  }

  lemma BeginLocks(s: State, s': State, t: Tid, op: PinOp, rid: RoomId, hold: Hold)
    requires Locks(s.hub, s.rooms, s.pcs) && Begins(s, s', t, op, rid, hold)
    ensures Locks(s'.hub, s'.rooms, s'.pcs) && OnlyDebt(s, s', t, rid)
    ensures LockOf(s'.rooms, rid) == Some(t) && HoldOf(s', rid) == Some(hold)
  {
    assert s.hub == Some(t) <==> HoldsHub(PcAt(s.pcs, t));
    var held := HoldsOf(PcAt(s'.pcs, t));
    assert held == [hold] && held[1..] == [];
    forall r: RoomId ensures LockOf(s'.rooms, r) == Some(t) <==> HoldsRoom(PcAt(s'.pcs, t), r) {
      assert LockOf(s.rooms, r) == Some(t) <==> HoldsRoom(PcAt(s.pcs, t), r);
    }
    LocksMove(s, s', t);
  }

  lemma SameKeysSize(a: Peers, b: Peers)
    requires a.Keys == b.Keys
    ensures |a| == |b| && (a == map[] <==> b == map[])
  {
    assert |a| == |a.Keys| && |b| == |b.Keys|;
  }

  lemma BeginLive(s: State, s': State, t: Tid, op: PinOp, rid: RoomId, hold: Hold, r: RoomId)
    requires Tables(s) && Begins(s, s', t, op, rid, hold) && r in s'.rooms && s'.rooms[r].peers != map[]
    ensures Live(s', r)
  {
    hide BeingCreated, Pins;
    SameKeysSize(s'.rooms[rid].peers, s.rooms[rid].peers);
    assert Live(s, r);
  }

  lemma BeginCreated(s: State, s': State, t: Tid, op: PinOp, rid: RoomId, hold: Hold, j: RoomKey)
    requires Tables(s) && Begins(s, s', t, op, rid, hold) && CreationsKept(s, s')
    requires j in s'.index && s'.index[j] in s'.rooms && s'.rooms[s'.index[j]].peers == map[]
    ensures BeingCreated(s', s'.index[j])
  {
    hide Live, Pins;
    SameKeysSize(s'.rooms[rid].peers, s.rooms[rid].peers);
    assert BeingCreated(s, s.index[j]);
  }

  lemma BeginKeys(s: State, s': State, t: Tid, op: PinOp, rid: RoomId, hold: Hold)
    requires Tables(s) && Begins(s, s', t, op, rid, hold)
    ensures forall j :: j in s'.index ==> s'.index[j] in s'.rooms && s'.rooms[s'.index[j]].key == j
    ensures forall r :: r in s'.rooms ==> r < s'.nextRoom && |s'.rooms[r].peers| <= MAX_ROOM_MEMBERS && "" !in s'.rooms[r].peers
  {
    hide Live, BeingCreated, Pins;
    SameKeysSize(s'.rooms[rid].peers, s.rooms[rid].peers);
  }

  lemma BeginTables(s: State, s': State, t: Tid, op: PinOp, rid: RoomId, hold: Hold)
    requires Tables(s) && Begins(s, s', t, op, rid, hold) && CreationsKept(s, s')
    ensures Tables(s')
  {
    hide Live, BeingCreated, Pins, CreationsKept;
    BeginKeys(s, s', t, op, rid, hold);
    forall r | r in s'.rooms && s'.rooms[r].peers != map[] ensures Live(s', r) {
      BeginLive(s, s', t, op, rid, hold, r);
    }
    forall j | j in s'.index && s'.rooms[s'.index[j]].peers == map[] ensures BeingCreated(s', s'.index[j]) {
      BeginCreated(s, s', t, op, rid, hold, j);
    }
  }

  lemma BeginMirrors(s: State, s': State, t: Tid, op: PinOp, rid: RoomId, hold: Hold)
    requires Mirrors(s) && Begins(s, s', t, op, rid, hold)
    ensures Mirrors(s')
  {
    forall d, j ensures j in KeysOf(s'.byClient, d) <==> Member(s', d, j) {
      assert j in KeysOf(s.byClient, d) <==> Member(s, d, j);
    }
  }

  lemma BeginThreads(s: State, s': State, t: Tid, op: PinOp, rid: RoomId, hold: Hold)
    requires Locks(s.hub, s.rooms, s.pcs) && Threads(s) && Begins(s, s', t, op, rid, hold)
    requires LockOf(s.rooms, rid) == Some(t) && HoldOk(hold, s'.rooms[rid])
    ensures Threads(s')
  {
    assert HoldsOk([hold], s'.rooms);
    assert PcOk(PcAt(s'.pcs, t), s'.index, s'.rooms, s'.byClient);
    ThreadsElsewhere(s, s', t, rid);
  }

  ghost predicate AllKnow(k: RoomKey, peers: Peers, hold: Option<Hold>, slot: Slot, obs: map<ClientId, seq<Obs>>) {
    forall d :: d in peers ==> PeerOk(k, d, peers, hold, slot, SessionOf(ObsAt(obs, d), k))
  }

  /** While a room is merely pinned, its peers know everything about it. */
  lemma PinnedKnow(s: State, t: Tid, op: PinOp, rid: RoomId)
    requires Inv(s) && Pins(s, t, op, rid)
    ensures AllKnow(op.room, s.rooms[rid].peers, None, SlotAt(s.store, op.room), s.obs)
  {
    PinFacts(s, t, op, rid);
    forall d | d in s.rooms[rid].peers
      ensures PeerOk(op.room, d, s.rooms[rid].peers, None, SlotAt(s.store, op.room), SessionOf(ObsAt(s.obs, d), op.room))
    {
      assert PeerKnows(s, rid, d);
    }
  }

  /** It remains to show what the peers of that one room know. */
  lemma BeginKeeps(s: State, s': State, t: Tid, op: PinOp, rid: RoomId, hold: Hold)
    requires Inv(s) && Begins(s, s', t, op, rid, hold) && HoldOk(hold, s'.rooms[rid])
    requires OnlyKey(s, s', op.room)
    requires AllKnow(op.room, s'.rooms[rid].peers, Some(hold), SlotAt(s'.store, op.room), s.obs)
    ensures Inv(s')
  {
    PinFacts(s, t, op, rid);
    BeginLocks(s, s', t, op, rid, hold);
    CreatedKept(s, s', t);
    BeginTables(s, s', t, op, rid, hold);
    BeginMirrors(s, s', t, op, rid, hold);
    BeginThreads(s, s', t, op, rid, hold);
    BeginKnowledge(s, s', t, op, rid, hold);
  }

  lemma BeginKnowledge(s: State, s': State, t: Tid, op: PinOp, rid: RoomId, hold: Hold)
    requires Tables(s) && Knowledge(s) && Begins(s, s', t, op, rid, hold)
    requires Live(s, rid) && s.rooms[rid].key == op.room && OnlyKey(s, s', op.room)
    requires HoldOf(s', rid) == Some(hold) && OnlyDebt(s, s', t, rid)
    requires AllKnow(op.room, s'.rooms[rid].peers, Some(hold), SlotAt(s'.store, op.room), s.obs)
    ensures Knowledge(s')
  {
    forall d | d in s'.rooms[rid].peers ensures PeerKnows(s', rid, d) {}
    KnowledgeElsewhere(s, s', t, rid);
  }

  lemma PresenceKnows(k: RoomKey, c: ClientId, d: ClientId, peers: Peers, sel: Selection, rid: RoomId, slot: Slot, sess: Option<Session>)
    requires c in peers && d in peers && PeerOk(k, d, peers, None, slot, sess)
    ensures PeerOk(k, d, peers[c := peers[c].(selection := Some(sel))],
      Some(Hold(k, rid, Some(Presence(k, c, sel)), peers.Keys - {c}, NoReply)), slot, sess)
  {
    var peers' := peers[c := peers[c].(selection := Some(sel))];
    if d == c {
      assert Others(peers', d) == Others(peers, d);
    } else {
      assert Selections(Others(peers', d)) == Selections(Others(peers, d))[c := Some(sel)];
    }
  }

  function SubmitHold(k: RoomKey, c: ClientId, peers: Peers, ops: Ops, rid: RoomId, slot: Slot): Hold {
    var entry := Entry(k, slot.log.Head() + 1, c, ops);
    Hold(k, rid, Some(Committed(entry)), peers.Keys - {c}, SubmitReply(entry))
  }

  function SubmitSlot(c: ClientId, ops: Ops, slot: Slot): Slot {
    slot.(log := Appended(slot.log, c, ops))
  }

  lemma SubmitKnows(k: RoomKey, c: ClientId, d: ClientId, peers: Peers, ops: Ops, rid: RoomId, slot: Slot, sess: Option<Session>)
    requires d in peers && PeerOk(k, d, peers, None, slot, sess)
    ensures PeerOk(k, d, peers, Some(SubmitHold(k, c, peers, ops, rid, slot)), SubmitSlot(c, ops, slot), sess)
  {
    if sess.value.epoch == slot.epoch {
      OpsAfterAppend(k, slot.log.hist, Op(c, ops), sess.value.from);
    }
  }

  function PresenceHold(s: State, c: ClientId, k: RoomKey, sel: Selection, rid: RoomId): Hold
    requires rid in s.rooms
  {
    Hold(k, rid, Some(Presence(k, c, sel)), s.rooms[rid].peers.Keys - {c}, NoReply)
  }

  lemma PresenceBegins(s: State, t: Tid, c: ClientId, k: RoomKey, sel: Selection, rid: RoomId)
    requires Pins(s, t, SetPresence(c, k, sel), rid) && c in s.rooms[rid].peers && s.rooms[rid].key == k
    requires AllKnow(k, s.rooms[rid].peers, None, SlotAt(s.store, k), s.obs)
    ensures var op := SetPresence(c, k, sel);
      var s' := RunPinned(s, t, op, rid);
      var hold := PresenceHold(s, c, k, sel, rid);
      && Begins(s, s', t, op, rid, hold) && HoldOk(hold, s'.rooms[rid]) && OnlyKey(s, s', k)
      && AllKnow(k, s'.rooms[rid].peers, Some(hold), SlotAt(s'.store, k), s.obs)
  {
    var peers := s.rooms[rid].peers;
    forall d | d in peers
      ensures PeerOk(k, d, peers[c := peers[c].(selection := Some(sel))], Some(PresenceHold(s, c, k, sel, rid)),
                     SlotAt(s.store, k), SessionOf(ObsAt(s.obs, d), k))
    {
      PresenceKnows(k, c, d, peers, sel, rid, SlotAt(s.store, k), SessionOf(ObsAt(s.obs, d), k));
    }
  }

  lemma RunPresence(s: State, t: Tid, c: ClientId, k: RoomKey, sel: Selection, rid: RoomId)
    requires Inv(s) && Pins(s, t, SetPresence(c, k, sel), rid) && c in s.rooms[rid].peers
    ensures Inv(RunPinned(s, t, SetPresence(c, k, sel), rid))
  {
    var op := SetPresence(c, k, sel);
    PinFacts(s, t, op, rid);
    PinnedKnow(s, t, op, rid);
    PresenceBegins(s, t, c, k, sel, rid);
    BeginKeeps(s, RunPinned(s, t, op, rid), t, op, rid, PresenceHold(s, c, k, sel, rid));
  }

  lemma SubmitBegins(s: State, t: Tid, c: ClientId, k: RoomKey, ops: Ops, base: int, rid: RoomId)
    requires Pins(s, t, SubmitOps(c, k, ops, base), rid) && c in s.rooms[rid].peers && s.rooms[rid].key == k
    requires base == SlotAt(s.store, k).log.Head()
    ensures var op := SubmitOps(c, k, ops, base);
      var s' := RunPinned(s, t, op, rid);
      var hold := SubmitHold(k, c, s.rooms[rid].peers, ops, rid, SlotAt(s.store, k));
      && Begins(s, s', t, op, rid, hold) && HoldOk(hold, s'.rooms[rid]) && OnlyKey(s, s', k)
      && s'.rooms == s.rooms && SlotAt(s'.store, k) == SubmitSlot(c, ops, SlotAt(s.store, k))
  {
  }

  lemma SubmitAllKnow(k: RoomKey, c: ClientId, peers: Peers, ops: Ops, rid: RoomId, slot: Slot, obs: map<ClientId, seq<Obs>>)
    requires AllKnow(k, peers, None, slot, obs)
    ensures AllKnow(k, peers, Some(SubmitHold(k, c, peers, ops, rid, slot)), SubmitSlot(c, ops, slot), obs)
  {
    forall d | d in peers {
      SubmitKnows(k, c, d, peers, ops, rid, slot, SessionOf(ObsAt(obs, d), k));
    }
  }

  lemma RunSubmit(s: State, t: Tid, c: ClientId, k: RoomKey, ops: Ops, base: int, rid: RoomId)
    requires Inv(s) && Pins(s, t, SubmitOps(c, k, ops, base), rid)
    requires c in s.rooms[rid].peers && base == SlotAt(s.store, k).log.Head()
    ensures Inv(RunPinned(s, t, SubmitOps(c, k, ops, base), rid))
  {
    hide Locks, Tables, Mirrors, Threads, Knowledge, NoEcho;
    var op := SubmitOps(c, k, ops, base);
    var peers := s.rooms[rid].peers;
    var slot := SlotAt(s.store, k);
    PinFacts(s, t, op, rid);
    PinnedKnow(s, t, op, rid);
    SubmitBegins(s, t, c, k, ops, base, rid);
    SubmitAllKnow(k, c, peers, ops, rid, slot, s.obs);
    BeginKeeps(s, RunPinned(s, t, op, rid), t, op, rid, SubmitHold(k, c, peers, ops, rid, slot));
  }

  function NotifyHold(s: State, k: RoomKey, origin: ClientId, saved: nat, rid: RoomId): Hold
    requires rid in s.rooms
  {
    Hold(k, rid, Some(FileChanged(k, saved)), s.rooms[rid].peers.Keys - {origin}, NoReply)
  }

  lemma NotifyBegins(s: State, t: Tid, k: RoomKey, origin: ClientId, saved: nat, rid: RoomId)
    requires Pins(s, t, Notify(k, origin, saved), rid) && s.rooms[rid].key == k
    requires AllKnow(k, s.rooms[rid].peers, None, SlotAt(s.store, k), s.obs)
    ensures var op := Notify(k, origin, saved);
      var s' := RunPinned(s, t, op, rid);
      var hold := NotifyHold(s, k, origin, saved, rid);
      && Begins(s, s', t, op, rid, hold) && HoldOk(hold, s'.rooms[rid]) && OnlyKey(s, s', k)
      && AllKnow(k, s'.rooms[rid].peers, Some(hold), SlotAt(s'.store, k), s.obs)
  {
  }

  lemma RunNotify(s: State, t: Tid, k: RoomKey, origin: ClientId, saved: nat, rid: RoomId)
    requires Inv(s) && Pins(s, t, Notify(k, origin, saved), rid)
    ensures Inv(RunPinned(s, t, Notify(k, origin, saved), rid))
  {
    var op := Notify(k, origin, saved);
    PinFacts(s, t, op, rid);
    PinnedKnow(s, t, op, rid);
    NotifyBegins(s, t, k, origin, saved, rid);
    BeginKeeps(s, RunPinned(s, t, op, rid), t, op, rid, NotifyHold(s, k, origin, saved, rid));
  }

  // -------------------------------------------------------------- store calls

  /** A save mark, a reset or a forget takes nothing from what a session already is. */
  lemma StoreKnows(k: RoomKey, d: ClientId, peers: Peers, hold: Option<Hold>, slot: Slot, op: StoreOp, sess: Option<Session>)
    requires PeerOk(k, d, peers, hold, slot, sess)
    ensures PeerOk(k, d, peers, hold, RunStore(slot, op), sess)
  {
    if op.ResetOp? && !(Joining(hold, d) && hold.value.reply.first) {
      var settled := Settled(hold, d, k, sess).value;
      if settled.epoch == slot.epoch {
        OpsAfterAppend(k, slot.log.hist, ResetMark, settled.from);
      }
    }
  }

  /** A store call at any moment, whoever holds the room. */
  lemma StoreKeeps(s: State, s': State, k: RoomKey, op: StoreOp)
    requires Inv(s) && s' == s.(store := s.store[k := RunStore(SlotAt(s.store, k), op)])
    ensures Inv(s')
  {
    hide Locks, Tables, Mirrors, Threads, NoEcho, PeerOk, FindHold, SessionOf, RunStore;
    forall rid, d | rid in s'.rooms && d in s'.rooms[rid].peers ensures PeerKnows(s', rid, d) {
      assert PeerKnows(s, rid, d);
      var room := s.rooms[rid];
      StoreKnows(room.key, d, room.peers, HoldOf(s, rid), SlotAt(s.store, room.key), op, SessionOf(ObsAt(s.obs, d), room.key));
    }
    StoreTables(s, s');
  }

  lemma StoreTables(s: State, s': State)
    requires Tables(s) && Mirrors(s) && Threads(s) && s' == s.(store := s'.store)
    ensures Tables(s') && Mirrors(s') && Threads(s')
  {
    assert SamePeople(s, s');
    assert forall r :: BeingCreated(s, r) ==> BeingCreated(s', r);
    TablesSame(s, s');
    MirrorsSame(s, s');
  }

  lemma RunPinnedKeeps(s: State, t: Tid, op: PinOp, rid: RoomId)
    requires Inv(s) && Pins(s, t, op, rid)
    ensures Inv(RunPinned(s, t, op, rid))
  {
    hide Inv;
    match op
    case SetPresence(c, k, sel) =>
      if c in s.rooms[rid].peers {
        RunPresence(s, t, c, k, sel, rid);
      } else {
        UnlockKeeps(s, t);
      }
    case SubmitOps(c, k, ops, base) =>
      if c in s.rooms[rid].peers && base == SlotAt(s.store, k).log.Head() {
        RunSubmit(s, t, c, k, ops, base, rid);
      } else {
        UnlockKeeps(s, t);
      }
    case Notify(k, origin, saved) => RunNotify(s, t, k, origin, saved, rid);
    case WithStore(k, storeOp) =>
      UnlockKeeps(s, t);
      StoreKeeps(Unlock(s, t, rid), RunPinned(s, t, op, rid), k, storeOp);
    case CatchUp(_, _) => UnlockKeeps(s, t);
    case ListPeers(_) => UnlockKeeps(s, t);
  }

  lemma AcquireKeeps(s: State, t: Tid, req: Request)
    requires Inv(s) && PcAt(s.pcs, t) == Waiting(req) && s.hub.None?
    ensures Inv(AcquireHub(s, t, req))
  {
    hide Locks, Mirrors, Knowledge, NoEcho, Tables;
    assert PcOk(PcAt(s.pcs, t), s.index, s.rooms, s.byClient);
    match req
    case Join(c, k, name) =>
      if k in s.index {
        TakeHub(s, t, JoinLocked(c, k, name, s.index[k]));
      } else {
        CreateKeeps(s, t, c, k, name);
      }
    case Leave(c, k) =>
      if k in s.index {
        TakeHub(s, t, LeaveLocked(c, k, s.index[k]));
      } else {
        LockFreeMove(s, t, Idle);
      }
    case LeaveAll(c) => TakeHub(s, t, Sweeping(c, KeysOf(s.byClient, c), []));
    case Pin(op) =>
      if op.room in s.index {
        TakeHub(s, t, PinLocked(op, s.index[op.room]));
      } else if op.WithStore? {
        LockFreeMove(s, t, Unpinned(op.room, op.op));
      } else {
        LockFreeMove(s, t, Idle);
      }
  }

  lemma JoinStepKeeps(s: State, t: Tid, c: ClientId, k: RoomKey, name: string, rid: RoomId)
    requires Inv(s) && PcAt(s.pcs, t) == JoinLocked(c, k, name, rid) && Free(s, rid)
    ensures Inv(JoinRoom(s, t, c, k, name, rid))
  {
    if Joins(s, t, c, k, name, rid) {
      JoinKeeps(s, t, c, k, name, rid);
    } else {
      assert s.hub == Some(t) <==> HoldsHub(PcAt(s.pcs, t));
      FullIsNotEmpty(s.rooms[rid].peers);
      DropHub(s, t);
    }
  }

  lemma FullIsNotEmpty(peers: Peers)
    requires |peers| >= MAX_ROOM_MEMBERS
    ensures peers != map[]
  {
  }

  lemma AdvanceKeeps(s: State, t: Tid)
    requires Inv(s) && Enabled(s, t, Advance)
    ensures Inv(AdvanceStep(s, t))
  {
    match PcAt(s.pcs, t)
    case Waiting(req) => AcquireKeeps(s, t, req);
    case JoinLocked(c, k, name, rid) => JoinStepKeeps(s, t, c, k, name, rid);
    case LeaveLocked(c, k, rid) => LeaveKeeps(s, t, c, k, rid);
    case PinLocked(op, rid) => PinKeeps(s, t, op, rid);
    case Pinned(op, rid) => RunPinnedKeeps(s, t, op, rid);
    case Sweeping(c, todo, held) => SweepEndKeeps(s, t, c, held);
    case Sending(held) => FinishKeeps(s, t, held);
    case FileReading(k, origin) =>
      LockFreeMove(s, t, Waiting(Pin(Notify(k, origin, SlotAt(s.store, k).log.saved))));
    case Unpinned(k, op) =>
      LockFreeMove(s, t, Idle);
      StoreKeeps(Goto(s, t, Idle), AdvanceStep(s, t), k, op);
  }

  lemma StepKeeps(s: State, t: Tid, a: Action)
    requires Inv(s) && Enabled(s, t, a)
    ensures Inv(Do(s, t, a))
  {
    match a
    case Start(req) => LockFreeMove(s, t, Waiting(req));
    case StartFile(k, origin) => LockFreeMove(s, t, FileReading(k, origin));
    case Advance => AdvanceKeeps(s, t);
    case Send(c) => SendKeeps(s, t, c);
    case Sweep(k) =>
      var pc := PcAt(s.pcs, t);
      SweepKeeps(s, t, pc.client, pc.todo, pc.held, k);
    case Cancel => UnlockKeeps(s, t);
  }

  /** Every state of every interleaving satisfies the invariant. */
  lemma {:induction false} RunKeeps(moves: seq<Move>)
    ensures Exec(moves).Some? ==> Inv(Exec(moves).value)
  {
    if moves == [] {
      InitInv();
    } else {
      var front := moves[..|moves| - 1];
      RunKeeps(front);
      if Exec(moves).Some? {
        StepKeeps(Exec(front).value, moves[|moves| - 1].t, moves[|moves| - 1].a);
      }
    }
  }
}
