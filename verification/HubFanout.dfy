/**
 The steps that change one room, its log or somebody's knowledge of it keep
 the invariant.  A thread that holds a room owes its members an event; what a
 member knows, together with what it is still owed, is what the room is.  A
 send pays one of these debts, and finishing a room answers the caller.  All
 other rooms, and the members' knowledge of them, are untouched: that is what
 the lemmas ending in Elsewhere say.
 */
module HubFanout {
  import opened Prelude
  import opened OpLog
  import opened HubMachine
  import opened HubInvariant
  import opened HubSteps

  // ------------------------------------------------------ one room at a time

  /** Apart from the room rid, the room table is untouched. */
  ghost predicate OnlyRoom(s: State, s': State, rid: RoomId) {
    && s'.rooms.Keys == s.rooms.Keys
    && rid in s.rooms && s'.rooms[rid].key == s.rooms[rid].key
    && forall r :: r in s.rooms && r != rid ==> s'.rooms[r] == s.rooms[r]
  }

  /** Apart from rid, the moving thread owes the same as before. */
  ghost predicate OnlyDebt(s: State, s': State, t: Tid, rid: RoomId) {
    forall r: RoomId :: r != rid ==>
      FindHold(HoldsOf(PcAt(s'.pcs, t)), r) == FindHold(HoldsOf(PcAt(s.pcs, t)), r)
  }

  /** Apart from key k, every log and every session reads as before. */
  ghost predicate OnlyKey(s: State, s': State, k: RoomKey) {
    && (forall j :: j != k ==> SlotAt(s'.store, j) == SlotAt(s.store, j))
    && (forall c, j :: j != k ==> SessionOf(ObsAt(s'.obs, c), j) == SessionOf(ObsAt(s.obs, c), j))
  }

  lemma HoldElsewhere(s: State, s': State, t: Tid, rid: RoomId, r: RoomId)
    requires OnlyRoom(s, s', rid) && OnlyMoves(s.pcs, s'.pcs, t) && OnlyDebt(s, s', t, rid)
    requires r in s.rooms && r != rid
    ensures HoldOf(s', r) == HoldOf(s, r)
  {
  }

  /** Two rooms with members never share a key. */
  lemma LiveKeysDiffer(s: State, rid: RoomId, r: RoomId)
    requires Tables(s) && rid in s.rooms && r in s.rooms && r != rid
    requires Live(s, rid) && s.rooms[r].peers != map[]
    ensures s.rooms[r].key != s.rooms[rid].key
  {
    assert Live(s, r);
  }

  lemma KnowledgeElsewhere(s: State, s': State, t: Tid, rid: RoomId)
    requires Tables(s) && Knowledge(s) && OnlyRoom(s, s', rid)
    requires OnlyMoves(s.pcs, s'.pcs, t) && OnlyDebt(s, s', t, rid)
    requires (Live(s, rid) && OnlyKey(s, s', s.rooms[rid].key)) || (s'.store == s.store && s'.obs == s.obs)
    requires forall c :: c in s'.rooms[rid].peers ==> PeerKnows(s', rid, c)
    ensures Knowledge(s')
  {
    forall r, c | r in s'.rooms && c in s'.rooms[r].peers ensures PeerKnows(s', r, c) {
      if r != rid {
        assert PeerKnows(s, r, c);
        HoldElsewhere(s, s', t, rid, r);
        if Live(s, rid) {
          LiveKeysDiffer(s, rid, r);
        }
      }
    }
  }

  /** Nobody else's place in the code depends on a room that nobody else holds. */
  lemma ThreadsElsewhere(s: State, s': State, t: Tid, rid: RoomId)
    requires Locks(s.hub, s.rooms, s.pcs) && Threads(s) && OnlyRoom(s, s', rid)
    requires OnlyMoves(s.pcs, s'.pcs, t)
    requires LockOf(s.rooms, rid).None? || LockOf(s.rooms, rid) == Some(t)
    requires s.index == s'.index || s.hub == Some(t)
    requires s.byClient == s'.byClient || s.hub == Some(t)
    requires s'.index == s.index || (s'.index == s.index - {s.rooms[rid].key} && Live(s, rid))
    requires PcOk(PcAt(s'.pcs, t), s'.index, s'.rooms, s'.byClient)
    ensures Threads(s')
  {
    forall u: Tid ensures PcOk(PcAt(s'.pcs, u), s'.index, s'.rooms, s'.byClient) {
      if u != t {
        OtherThread(s, s', t, rid, u);
      }
    }
  }

  lemma OtherThread(s: State, s': State, t: Tid, rid: RoomId, u: Tid)
    requires Locks(s.hub, s.rooms, s.pcs) && Threads(s) && OnlyRoom(s, s', rid) && u != t
    requires PcAt(s'.pcs, u) == PcAt(s.pcs, u)
    requires LockOf(s.rooms, rid).None? || LockOf(s.rooms, rid) == Some(t)
    requires s.index == s'.index || s.hub == Some(t)
    requires s.byClient == s'.byClient || s.hub == Some(t)
    requires s'.index == s.index || (s'.index == s.index - {s.rooms[rid].key} && Live(s, rid))
    ensures PcOk(PcAt(s'.pcs, u), s'.index, s'.rooms, s'.byClient)
  {
    var pc := PcAt(s.pcs, u);
    assert PcOk(pc, s.index, s.rooms, s.byClient);
    assert s.hub == Some(u) <==> HoldsHub(pc);
    assert LockOf(s.rooms, rid) == Some(u) <==> HoldsRoom(pc, rid);
    FindHoldIs(HoldsOf(pc), rid);
    match pc
    case Sweeping(_, _, held) => assert forall h :: h in held ==> h.rid != rid;
    case Sending(held) => assert forall h :: h in held ==> h.rid != rid;
    case _ =>
  }

  // -------------------------------------------------------------------- sends

  lemma ObservedSession(obs: map<ClientId, seq<Obs>>, c: ClientId, o: Obs, d: ClientId, k: RoomKey)
    ensures SessionOf(ObsAt(Observe(obs, c, o), d), k)
         == if d == c then See(SessionOf(ObsAt(obs, c), k), o, k) else SessionOf(ObsAt(obs, d), k)
  {
    hide SessionOf, See;
    SessionStep(ObsAt(obs, c), o, k);
  }

  function Delivered(hold: Hold, c: ClientId): Hold {
    hold.(remaining := hold.remaining - {c})
  }

  /** The place of the sending thread after one send. */
  lemma SendPlace(held: seq<Hold>, c: ClientId, rooms: map<RoomId, Room>)
    requires held != [] && HoldsOk(held, rooms)
    ensures var next := [Delivered(held[0], c)] + held[1..];
      && HoldsOk(next, rooms)
      && (forall r :: FindHold(next, r) == if r == held[0].rid then Some(Delivered(held[0], c)) else FindHold(held, r))
  {
    var next := [Delivered(held[0], c)] + held[1..];
    assert next[1..] == held[1..];
    forall h | h in next ensures h.rid in rooms && HoldOk(h, rooms[h.rid]) {
      assert h == Delivered(held[0], c) || h in held;
      assert HoldOk(held[0], rooms[held[0].rid]);
    }
  }

  lemma SendKnows(k: RoomKey, c: ClientId, d: ClientId, room: Room, hold: Hold, slot: Slot, sess: Option<Session>)
    requires HoldOk(hold, room) && c in hold.remaining && hold.event.Some?
    requires PeerOk(k, d, room.peers, Some(hold), slot, sess)
    ensures PeerOk(k, d, room.peers, Some(Delivered(hold, c)), slot,
      if d == c then See(sess, Pushed(hold.event.value), k) else sess)
  {
  }

  lemma SendLocks(s: State, t: Tid, held: seq<Hold>, c: ClientId)
    requires Locks(s.hub, s.rooms, s.pcs) && PcAt(s.pcs, t) == Sending(held)
    requires held != [] && HoldsOk(held, s.rooms) && held[0].event.Some?
    ensures var s' := SendTo(s, t, held, c); Locks(s'.hub, s'.rooms, s'.pcs)
  {
    var s' := SendTo(s, t, held, c);
    SendPlace(held, c, s.rooms);
    forall r: RoomId ensures LockOf(s'.rooms, r) == Some(t) <==> HoldsRoom(PcAt(s'.pcs, t), r) {
      assert LockOf(s.rooms, r) == Some(t) <==> HoldsRoom(PcAt(s.pcs, t), r);
    }
    assert s.hub == Some(t) <==> HoldsHub(PcAt(s.pcs, t));
    LocksMove(s, s', t);
  }

  /** The holder of a room is found by following the room's lock. */
  lemma HoldOfHead(s: State, t: Tid, held: seq<Hold>)
    requires Locks(s.hub, s.rooms, s.pcs) && held != []
    requires PcAt(s.pcs, t) == Sending(held)
    ensures LockOf(s.rooms, held[0].rid) == Some(t) && HoldOf(s, held[0].rid) == Some(held[0])
  {
    assert LockOf(s.rooms, held[0].rid) == Some(t) <==> HoldsRoom(PcAt(s.pcs, t), held[0].rid);
  }

  lemma SendPeerKnows(s: State, t: Tid, held: seq<Hold>, c: ClientId, d: ClientId)
    requires Locks(s.hub, s.rooms, s.pcs) && PcAt(s.pcs, t) == Sending(held)
    requires held != [] && held[0].rid in s.rooms && HoldOk(held[0], s.rooms[held[0].rid])
    requires c in held[0].remaining && held[0].event.Some?
    requires Locks(s.hub, s.rooms, SendTo(s, t, held, c).pcs)
    requires d in s.rooms[held[0].rid].peers && PeerKnows(s, held[0].rid, d)
    ensures PeerKnows(SendTo(s, t, held, c), held[0].rid, d)
  {
    var hold := held[0];
    var k := s.rooms[hold.rid].key;
    HoldOfHead(s, t, held);
    HoldOfHead(SendTo(s, t, held, c), t, [Delivered(hold, c)] + held[1..]);
    ObservedSession(s.obs, c, Pushed(hold.event.value), d, k);
    SendKnows(k, c, d, s.rooms[hold.rid], hold, SlotAt(s.store, k), SessionOf(ObsAt(s.obs, d), k));
  }

  lemma SendOnlyKey(s: State, t: Tid, held: seq<Hold>, c: ClientId)
    requires held != [] && held[0].event.Some? && RoomOf(held[0].event.value) == held[0].room
    ensures OnlyKey(s, SendTo(s, t, held, c), held[0].room)
  {
    var s' := SendTo(s, t, held, c);
    forall d, j | j != held[0].room ensures SessionOf(ObsAt(s'.obs, d), j) == SessionOf(ObsAt(s.obs, d), j) {
      ObservedSession(s.obs, c, Pushed(held[0].event.value), d, j);
    }
  }

  lemma SendKnowledge(s: State, t: Tid, held: seq<Hold>, c: ClientId)
    requires Locks(s.hub, s.rooms, s.pcs) && Tables(s) && Knowledge(s) && PcAt(s.pcs, t) == Sending(held)
    requires held != [] && HoldsOk(held, s.rooms) && c in held[0].remaining && held[0].event.Some?
    requires Locks(s.hub, s.rooms, SendTo(s, t, held, c).pcs)
    ensures Knowledge(SendTo(s, t, held, c))
  {
    hide PeerOk;
    var s' := SendTo(s, t, held, c);
    var rid := held[0].rid;
    SendPlace(held, c, s.rooms);
    assert HoldOk(held[0], s.rooms[rid]);
    assert c in s.rooms[rid].peers;
    forall d | d in s'.rooms[rid].peers ensures PeerKnows(s', rid, d) {
      assert PeerKnows(s, rid, d);
      SendPeerKnows(s, t, held, c, d);
    }
    SendOnlyKey(s, t, held, c);
    KnowledgeElsewhere(s, s', t, rid);
  }

  lemma EchoFree(obs: map<ClientId, seq<Obs>>, c: ClientId, o: Obs)
    requires NoEcho(obs) && Unechoed(c, o)
    ensures NoEcho(Observe(obs, c, o))
  {
    var obs' := Observe(obs, c, o);
    forall d, p | p in ObsAt(obs', d) ensures Unechoed(d, p) {
      assert p in ObsAt(obs, d) || (d == c && p == o);
    }
  }

  lemma SendKeeps(s: State, t: Tid, c: ClientId)
    requires Inv(s) && Enabled(s, t, Send(c))
    ensures Inv(Do(s, t, Send(c)))
  {
    hide Tables, Mirrors, Knowledge, NoEcho, PeerKnows, FindHold;
    var held := PcAt(s.pcs, t).held;
    var s' := SendTo(s, t, held, c);
    assert PcOk(PcAt(s.pcs, t), s.index, s.rooms, s.byClient);
    assert HoldOk(held[0], s.rooms[held[0].rid]);
    SendLocks(s, t, held, c);
    SendKnowledge(s, t, held, c);
    SendPlace(held, c, s.rooms);
    CreatedKept(s, s', t);
    TablesSame(s, s');
    MirrorsSame(s, s');
    ThreadsSame(s, s', t);
    EchoFree(s.obs, c, Pushed(held[0].event.value));
  }

  // --------------------------------------------------- replies and unlocking

  lemma FinishLocks(s: State, t: Tid, held: seq<Hold>)
    requires Locks(s.hub, s.rooms, s.pcs) && PcAt(s.pcs, t) == Sending(held)
    requires held != [] && HoldsOk(held, s.rooms)
    ensures var s' := FinishRoom(s, t, held);
      Locks(s'.hub, s'.rooms, s'.pcs) && OnlyDebt(s, s', t, held[0].rid)
  {
    var s' := FinishRoom(s, t, held);
    HoldOfHead(s, t, held);
    forall r: RoomId
      ensures FindHold(HoldsOf(PcAt(s'.pcs, t)), r) == if r == held[0].rid then None else FindHold(held, r)
    {
      FindHoldHead(held, r);
      assert |held| == 1 ==> held[1..] == [];
    }
    forall r: RoomId ensures LockOf(s'.rooms, r) == Some(t) <==> HoldsRoom(PcAt(s'.pcs, t), r) {
      assert LockOf(s.rooms, r) == Some(t) <==> HoldsRoom(PcAt(s.pcs, t), r);
    }
    assert s.hub == Some(t) <==> HoldsHub(PcAt(s.pcs, t));
    LocksMove(s, s', t);
  }

  function ReplyLine(hold: Hold, slot: Slot): Obs
    requires !hold.reply.NoReply?
  {
    match hold.reply
    case JoinReply(c, first, peers) => JoinReturned(hold.room, first, peers, slot.epoch, slot.log)
    case SubmitReply(entry) => SubmitReturned(entry)
  }

  function Answered(hold: Hold): ClientId
    requires !hold.reply.NoReply?
  {
    if hold.reply.JoinReply? then hold.reply.client else hold.reply.entry.client
  }

  lemma FinishKnows(k: RoomKey, d: ClientId, room: Room, hold: Hold, slot: Slot, sess: Option<Session>)
    requires HoldOk(hold, room) && hold.remaining == {} && k == room.key && d in room.peers
    requires PeerOk(k, d, room.peers, Some(hold), slot, sess)
    ensures PeerOk(k, d, room.peers, None, slot,
      if !hold.reply.NoReply? && d == Answered(hold) then See(sess, ReplyLine(hold, slot), k) else sess)
  {
  }

  /** How the reply changes what each client can rebuild about each room. */
  lemma ReplySession(s: State, hold: Hold, d: ClientId, j: RoomKey)
    ensures SessionOf(ObsAt(ReplyObs(s, hold), d), j)
         == if !hold.reply.NoReply? && d == Answered(hold)
            then See(SessionOf(ObsAt(s.obs, d), j), ReplyLine(hold, SlotAt(s.store, hold.room)), j)
            else SessionOf(ObsAt(s.obs, d), j)
  {
    if !hold.reply.NoReply? {
      ObservedSession(s.obs, Answered(hold), ReplyLine(hold, SlotAt(s.store, hold.room)), d, j);
    }
  }

  lemma FinishPeerKnows(s: State, t: Tid, held: seq<Hold>, d: ClientId)
    requires Locks(s.hub, s.rooms, s.pcs) && PcAt(s.pcs, t) == Sending(held)
    requires held != [] && held[0].rid in s.rooms && HoldOk(held[0], s.rooms[held[0].rid]) && held[0].remaining == {}
    requires d in s.rooms[held[0].rid].peers && PeerKnows(s, held[0].rid, d)
    ensures PeerKnows(FinishRoom(s, t, held), held[0].rid, d)
  {
    var hold := held[0];
    var k := s.rooms[hold.rid].key;
    HoldOfHead(s, t, held);
    ReplySession(s, hold, d, k);
    FinishKnows(k, d, s.rooms[hold.rid], hold, SlotAt(s.store, k), SessionOf(ObsAt(s.obs, d), k));
  }

  lemma FinishOnlyKey(s: State, t: Tid, held: seq<Hold>)
    requires held != [] && held[0].rid in s.rooms && HoldOk(held[0], s.rooms[held[0].rid])
    ensures OnlyKey(s, FinishRoom(s, t, held), s.rooms[held[0].rid].key)
  {
    var s' := FinishRoom(s, t, held);
    forall d, j | j != held[0].room ensures SessionOf(ObsAt(s'.obs, d), j) == SessionOf(ObsAt(s.obs, d), j) {
      ReplySession(s, held[0], d, j);
    }
  }

  lemma FinishKnowledge(s: State, t: Tid, held: seq<Hold>)
    requires Locks(s.hub, s.rooms, s.pcs) && Tables(s) && Knowledge(s) && PcAt(s.pcs, t) == Sending(held)
    requires held != [] && held[0].rid in s.rooms && HoldOk(held[0], s.rooms[held[0].rid]) && held[0].remaining == {}
    requires OnlyDebt(s, FinishRoom(s, t, held), t, held[0].rid)
    ensures Knowledge(FinishRoom(s, t, held))
  {
    var rid := held[0].rid;
    var s' := FinishRoom(s, t, held);
    forall d | d in s'.rooms[rid].peers ensures PeerKnows(s', rid, d) {
      assert PeerKnows(s, rid, d);
      FinishPeerKnows(s, t, held, d);
    }
    FinishOnlyKey(s, t, held);
    if !held[0].reply.NoReply? {
      assert Answered(held[0]) in s.rooms[rid].peers;
      assert Live(s, rid);
    }
    KnowledgeElsewhere(s, s', t, rid);
  }

  lemma FinishPeople(s: State, t: Tid, held: seq<Hold>)
    requires Inv(s) && PcAt(s.pcs, t) == Sending(held) && held != [] && held[0].rid in s.rooms
    ensures var s' := FinishRoom(s, t, held);
      Tables(s') && Mirrors(s') && Threads(s')
  {
    hide Knowledge, NoEcho, PeerKnows, HoldOk, FindHold, SessionOf;
    var s' := FinishRoom(s, t, held);
    assert PcOk(PcAt(s.pcs, t), s.index, s.rooms, s.byClient);
    RelockSame(s, s', held[0].rid, None);
    CreatedKept(s, s', t);
    TablesSame(s, s');
    MirrorsSame(s, s');
    HoldsSame(held, s, s');
    ThreadsSame(s, s', t);
  }

  lemma FinishKeeps(s: State, t: Tid, held: seq<Hold>)
    requires Inv(s) && PcAt(s.pcs, t) == Sending(held) && Enabled(s, t, Advance)
    ensures Inv(FinishRoom(s, t, held))
  {
    assert PcOk(PcAt(s.pcs, t), s.index, s.rooms, s.byClient);
    FinishLocks(s, t, held);
    FinishKnowledge(s, t, held);
    FinishPeople(s, t, held);
    if !held[0].reply.NoReply? {
      EchoFree(s.obs, Answered(held[0]), ReplyLine(held[0], SlotAt(s.store, held[0].room)));
    }
  }
}
