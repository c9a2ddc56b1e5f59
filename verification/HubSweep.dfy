/**
 LeaveAll takes one client out of all its rooms under the hub lock, keeps
 every room it emptied of the client locked, then drops the hub lock and pays
 its debts room by room.  While it sweeps, the rooms still to visit are
 exactly those that the index lists, and the rooms already held no longer
 have the client as a member, so it never waits for a room of its own.  Every
 step of the sweep keeps the invariant.
 */
module HubSweep {
  import opened Prelude
  import opened OpLog
  import opened HubMachine
  import opened HubInvariant
  import opened HubSteps
  import opened HubFanout
  import opened HubMembership

  predicate Sweeps(s: State, t: Tid, c: ClientId, todo: set<RoomKey>, held: seq<Hold>, k: RoomKey) {
    PcAt(s.pcs, t) == Sweeping(c, todo, held) && k in todo && (k in s.index ==> Free(s, s.index[k]))
  }

  /** The rooms still to sweep are exactly those where the client is a member. */
  lemma TodoIsMember(s: State, t: Tid, c: ClientId, todo: set<RoomKey>, held: seq<Hold>, k: RoomKey)
    requires Inv(s) && Sweeps(s, t, c, todo, held, k)
    ensures s.hub == Some(t) && todo == KeysOf(s.byClient, c) && Member(s, c, k)
    ensures Live(s, s.index[k]) && s.rooms[s.index[k]].key == k
    ensures HoldsOk(held, s.rooms)
    ensures forall h :: h in held ==> h.rid in s.rooms && c !in s.rooms[h.rid].peers && h.rid != s.index[k]
  {
    assert s.hub == Some(t) <==> HoldsHub(PcAt(s.pcs, t));
    assert PcOk(PcAt(s.pcs, t), s.index, s.rooms, s.byClient);
  }

  lemma SweepRemoves(s: State, t: Tid, c: ClientId, todo: set<RoomKey>, held: seq<Hold>, k: RoomKey)
    requires k in s.index && Free(s, s.index[k]) && Live(s, s.index[k]) && c in s.rooms[s.index[k]].peers
    ensures Removes(s, SweepRoom(s, t, c, todo, held, k), t, s.index[k], c)
  {
  }

  lemma SweepLocks(s: State, t: Tid, c: ClientId, todo: set<RoomKey>, held: seq<Hold>, k: RoomKey)
    requires Locks(s.hub, s.rooms, s.pcs) && Sweeps(s, t, c, todo, held, k)
    requires k in s.index && c in s.rooms[s.index[k]].peers
    requires forall h :: h in held ==> h.rid != s.index[k]
    ensures var s' := SweepRoom(s, t, c, todo, held, k); var rid := s.index[k];
      Locks(s'.hub, s'.rooms, s'.pcs) && OnlyDebt(s, s', t, rid) && HoldOf(s', rid) == Some(LeftHold(s, rid, c))
  {
    var s' := SweepRoom(s, t, c, todo, held, k);
    var rid := s.index[k];
    var left := LeftHold(s, rid, c);
    assert s.hub == Some(t) <==> HoldsHub(PcAt(s.pcs, t));
    FindHoldIs(held, rid);
    forall r: RoomId
      ensures FindHold(HoldsOf(PcAt(s'.pcs, t)), r) == if r == rid then Some(left) else FindHold(held, r)
    {
      FindHoldAppend(held, left, r);
    }
    forall r: RoomId ensures LockOf(s'.rooms, r) == Some(t) <==> HoldsRoom(PcAt(s'.pcs, t), r) {
      assert LockOf(s.rooms, r) == Some(t) <==> HoldsRoom(PcAt(s.pcs, t), r);
    }
    LocksMove(s, s', t);
  }

  lemma SweptHolds(s: State, s': State, t: Tid, c: ClientId, rid: RoomId, held: seq<Hold>)
    requires Removes(s, s', t, rid, c) && HoldsOk(held, s.rooms)
    requires forall h :: h in held ==> h.rid in s.rooms && c !in s.rooms[h.rid].peers && h.rid != rid
    ensures HoldsOk(held + [LeftHold(s, rid, c)], s'.rooms)
    ensures forall h :: h in held + [LeftHold(s, rid, c)] ==> h.rid in s'.rooms && c !in s'.rooms[h.rid].peers
  {
    var left := LeftHold(s, rid, c);
    LeftHoldOk(s, s', t, rid, c);
    RemoveFrame(s, s', t, rid, c);
    forall h | h in held + [left] ensures h.rid in s'.rooms && HoldOk(h, s'.rooms[h.rid]) && c !in s'.rooms[h.rid].peers {
      if h != left {
        assert h in held && HoldOk(h, s.rooms[h.rid]);
      }
    }
  }

  lemma SweepThreads(s: State, t: Tid, c: ClientId, todo: set<RoomKey>, held: seq<Hold>, k: RoomKey)
    requires Locks(s.hub, s.rooms, s.pcs) && Threads(s) && s.hub == Some(t)
    requires Sweeps(s, t, c, todo, held, k) && todo == KeysOf(s.byClient, c) && HoldsOk(held, s.rooms)
    requires k in s.index && Live(s, s.index[k]) && s.rooms[s.index[k]].key == k && c in s.rooms[s.index[k]].peers
    requires Removes(s, SweepRoom(s, t, c, todo, held, k), t, s.index[k], c)
    requires forall h :: h in held ==> h.rid in s.rooms && c !in s.rooms[h.rid].peers && h.rid != s.index[k]
    ensures Threads(SweepRoom(s, t, c, todo, held, k))
  {
    var s' := SweepRoom(s, t, c, todo, held, k);
    var rid := s.index[k];
    SweptHolds(s, s', t, c, rid, held);
    RemoveShrinks(s, s', t, rid, c);
    assert PcOk(PcAt(s'.pcs, t), s'.index, s'.rooms, s'.byClient);
    RemoveFrame(s, s', t, rid, c);
    ThreadsElsewhere(s, s', t, rid);
  }

  lemma SweepKeeps(s: State, t: Tid, c: ClientId, todo: set<RoomKey>, held: seq<Hold>, k: RoomKey)
    requires Inv(s) && Sweeps(s, t, c, todo, held, k)
    ensures Inv(SweepRoom(s, t, c, todo, held, k))
  {
    var s' := SweepRoom(s, t, c, todo, held, k);
    TodoIsMember(s, t, c, todo, held, k);
    SweepRemoves(s, t, c, todo, held, k);
    SweepLocks(s, t, c, todo, held, k);
    NotCreating(s, t);
    RemovePeople(s, s', t, s.index[k], c);
    SweepThreads(s, t, c, todo, held, k);
    RemoveKnowledge(s, s', t, s.index[k], c);
  }

  lemma SweepEndLocks(s: State, s': State, t: Tid, c: ClientId, held: seq<Hold>)
    requires Locks(s.hub, s.rooms, s.pcs) && PcAt(s.pcs, t) == Sweeping(c, {}, held) && held != []
    requires s' == s.(hub := None, pcs := s.pcs[t := Sending(held)])
    ensures Locks(s'.hub, s'.rooms, s'.pcs) && OwnLock(s.hub, s'.hub, t)
    ensures forall r :: HoldOf(s', r) == HoldOf(s, r)
  {
    assert s.hub == Some(t) <==> HoldsHub(PcAt(s.pcs, t));
    forall r: RoomId ensures LockOf(s'.rooms, r) == Some(t) <==> HoldsRoom(PcAt(s'.pcs, t), r) {
      assert LockOf(s.rooms, r) == Some(t) <==> HoldsRoom(PcAt(s.pcs, t), r);
    }
    LocksMove(s, s', t);
  }

  /** Once every room is locked the hub lock goes, and only the notifications remain. */
  lemma SweepEndKeeps(s: State, t: Tid, c: ClientId, held: seq<Hold>)
    requires Inv(s) && PcAt(s.pcs, t) == Sweeping(c, {}, held)
    ensures Inv(AdvanceStep(s, t))
  {
    assert s.hub == Some(t) <==> HoldsHub(PcAt(s.pcs, t));
    if held == [] {
      DropHub(s, t);
    } else {
      var s' := s.(hub := None, pcs := s.pcs[t := Sending(held)]);
      assert PcOk(PcAt(s.pcs, t), s.index, s.rooms, s.byClient);
      SweepEndLocks(s, s', t, c, held);
      CreatedKept(s, s', t);
      TablesSame(s, s');
      MirrorsSame(s, s');
      ThreadsSame(s, s', t);
      KnowledgeUnmoved(s, s');
    }
  }

  lemma KnowledgeUnmoved(s: State, s': State)
    requires Knowledge(s) && s'.rooms == s.rooms && s'.store == s.store && s'.obs == s.obs
    requires forall r :: HoldOf(s', r) == HoldOf(s, r)
    ensures Knowledge(s')
  {
    forall rid, d | rid in s'.rooms && d in s'.rooms[rid].peers ensures PeerKnows(s', rid, d) {
      assert PeerKnows(s, rid, d);
    }
  }
}
