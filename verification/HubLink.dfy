/** One effect, in class and threads. */
module HubLink {
  import opened Prelude
  import opened OpLog
  import opened HubMachine
  import opened HubInvariant
  import Hubs

  /** Who is in which room, and what has been sent or is owed. */
  function BoardOf(s: State, owed: Hubs.Sends): Hubs.Board {
    Hubs.Board(map k | k in s.index && s.index[k] in s.rooms :: s.rooms[s.index[k]].peers, s.byClient, owed)
  }

  /** What the holder of a room still has to send. */
  function OwedBy(hold: Hold): set<(ClientId, Event)> {
    if hold.event.None? then {} else set d | d in hold.remaining :: (d, hold.event.value)
  }

  function Owed(held: seq<Hold>): Hubs.Sends {
    if held == [] then multiset{} else Owed(held[..|held| - 1]) + multiset(OwedBy(held[|held| - 1]))
  }

  lemma OwedOne(hold: Hold)
    ensures Owed([hold]) == multiset(OwedBy(hold))
  {
    hide OwedBy;
    assert [hold][..0] == [];
  }

  lemma OwedMore(held: seq<Hold>, hold: Hold)
    ensures Owed(held + [hold]) == Owed(held) + multiset(OwedBy(hold))
  {
    hide OwedBy;
    assert (held + [hold])[..|held|] == held;
  }

  /** Every key names a room object of that key. */
  predicate Keyed(index: map<RoomKey, RoomId>, rooms: map<RoomId, Room>) {
    forall j :: j in index ==> index[j] in rooms && rooms[index[j]].key == j
  }

  lemma KeyedInv(s: State)
    requires Inv(s)
    ensures Keyed(s.index, s.rooms)
  {
    hide Locks, Mirrors, Threads, Knowledge, NoEcho;
  }

  function PeersBy(index: map<RoomKey, RoomId>, rooms: map<RoomId, Room>): map<RoomKey, Peers> {
    map k | k in index && index[k] in rooms :: rooms[index[k]].peers
  }

  lemma BoardRooms(s: State, owed: Hubs.Sends)
    ensures BoardOf(s, owed).rooms == PeersBy(s.index, s.rooms)
  {
  }

  /** A room object changes only the room that names it. */
  lemma OneRoom(index: map<RoomKey, RoomId>, rooms: map<RoomId, Room>, k: RoomKey, room: Room)
    requires Keyed(index, rooms) && k in index
    ensures PeersBy(index, rooms[index[k] := room]) == PeersBy(index, rooms)[k := room.peers]
  {
    var a, b := PeersBy(index, rooms[index[k] := room]), PeersBy(index, rooms)[k := room.peers];
    forall j | j in index ensures j in a && j in b && a[j] == b[j] {
      if j != k { assert rooms[index[j]].key == j && rooms[index[k]].key == k; }
    }
    assert a.Keys == b.Keys;
  }

  lemma JoinRoomIs(s: State, t: Tid, c: ClientId, k: RoomKey, name: string, rid: RoomId)
    requires Keyed(s.index, s.rooms) && Names(s.index, k, rid) && rid in s.rooms
    ensures var s', b := JoinRoom(s, t, c, k, name, rid), BoardOf(s, multiset{});
      if Hubs.Admits(Hubs.Members(b.rooms, k), c) then
        PcAt(s'.pcs, t).Sending? && BoardOf(s', Owed(PcAt(s'.pcs, t).held)) == Hubs.JoinBoard(b, c, k, name)
      else
        PcAt(s'.pcs, t) == Idle && BoardOf(s', multiset{}) == b
  {
    hide Keyed, BoardOf, PeersBy, OwedBy, Hubs.Copies;
    var s' := JoinRoom(s, t, c, k, name, rid);
    var peers := s.rooms[rid].peers;
    MembersAre(s, k, rid);
    BoardIs(s, multiset{});
    if Hubs.Admits(peers, c) {
      OneRoom(s.index, s.rooms, k, s'.rooms[rid]);
      var hold := PcAt(s'.pcs, t).held[0];
      OwedOne(hold);
      BoardIs(s', Owed([hold]));
      if c in peers { OwedNothing(hold); } else { OwedCopies(hold, peers, c); }
    } else {
      BoardIs(s', multiset{});
    }
  }

  lemma BoardIs(s: State, owed: Hubs.Sends)
    ensures BoardOf(s, owed) == Hubs.Board(PeersBy(s.index, s.rooms), s.byClient, owed)
  {
    BoardRooms(s, owed);
  }

  lemma MembersAre(s: State, k: RoomKey, rid: RoomId)
    requires Names(s.index, k, rid) && rid in s.rooms
    ensures k in BoardOf(s, multiset{}).rooms && BoardOf(s, multiset{}).rooms[k] == s.rooms[rid].peers
    ensures Hubs.Members(BoardOf(s, multiset{}).rooms, k) == s.rooms[rid].peers
  {
  }

  lemma OwedNothing(hold: Hold)
    requires hold.event.None?
    ensures multiset(OwedBy(hold)) == multiset{}
  {
  }

  lemma OwedCopies(hold: Hold, peers: Peers, c: ClientId)
    requires hold.event.Some? && hold.remaining == peers.Keys - {c}
    ensures OwedBy(hold) == Hubs.Copies(peers, c, hold.event.value)
  {
  }

  /** The step of a join under both locks does to the board what the whole call does; its messages are then owed. */
  lemma JoinStepIs(s: State, t: Tid, c: ClientId, k: RoomKey, name: string, rid: RoomId)
    requires Inv(s) && PcAt(s.pcs, t) == JoinLocked(c, k, name, rid) && Enabled(s, t, Advance)
    ensures var s', b := Do(s, t, Advance), BoardOf(s, multiset{});
      if c in Hubs.Members(b.rooms, k) || |Hubs.Members(b.rooms, k)| < 64 then
        PcAt(s'.pcs, t).Sending? && BoardOf(s', Owed(PcAt(s'.pcs, t).held)) == Hubs.JoinBoard(b, c, k, name)
      else
        PcAt(s'.pcs, t) == Idle && BoardOf(s', multiset{}) == b
  {
    hide Locks, Mirrors, Knowledge, NoEcho, HubInvariant.Tables, JoinRoom, BoardOf, Owed, Hubs.JoinBoard;
    assert PcOk(PcAt(s.pcs, t), s.index, s.rooms, s.byClient);
    KeyedInv(s);
    JoinRoomIs(s, t, c, k, name, rid);
  }

  lemma OthersEmpty(peers: Peers, c: ClientId)
    requires c in peers
    ensures Others(peers, c) == map[] <==> Hubs.Empties(peers, c)
  {
    assert forall d :: d in Others(peers, c) <==> d in peers && d != c;
    if forall d :: d in peers ==> d == c {
      assert peers.Keys == {c};
    } else {
      var d :| d in peers && d != c;
      assert d in Others(peers, c) && d in peers.Keys;
    }
  }

  /** Taking a member out of a room: what the set form of leaving does for this one room. */
  lemma RemovalIs(s: State, t: Tid, c: ClientId, k: RoomKey, rid: RoomId)
    requires Keyed(s.index, s.rooms) && Names(s.index, k, rid) && rid in s.rooms && c in s.rooms[rid].peers
    ensures var s', b := RemovePeer(s, t, rid, c), BoardOf(s, multiset{});
      && BoardOf(s', multiset{}).rooms == Hubs.RoomsLeft(b.rooms, c, {k})
      && s'.byClient == Hubs.IndexLeft(b.byClient, c, {k})
      && OwedBy(LeftHold(s, rid, c)) == Hubs.Notices(b.rooms, c, {k})
  {
    hide PeersBy, Others, OwedBy, Hubs.Notices, Hubs.RoomsLeft, BoardOf;
    var s' := RemovePeer(s, t, rid, c);
    assert s.rooms[rid].key == k;
    BoardIs(s, multiset{});
    BoardIs(s', multiset{});
    OneRoom(s.index, s.rooms, k, s'.rooms[rid]);
    MembersAre(s, k, rid);
    RoomsLeftOne(BoardOf(s, multiset{}).rooms, c, k);
    OthersEmpty(s.rooms[rid].peers, c);
    if Others(s.rooms[rid].peers, c) == map[] { LessIndex(s.index, s'.rooms, k); }
    OwedNotices(s, c, k, rid);
  }

  lemma RoomsLeftOne(rooms: map<RoomKey, Peers>, c: ClientId, k: RoomKey)
    requires k in rooms
    ensures Hubs.RoomsLeft(rooms, c, {k})
         == if Hubs.Empties(rooms[k], c) then rooms[k := Others(rooms[k], c)] - {k} else rooms[k := Others(rooms[k], c)]
  {
    hide Others;
  }

  lemma LessIndex(index: map<RoomKey, RoomId>, rooms: map<RoomId, Room>, k: RoomKey)
    ensures PeersBy(index - {k}, rooms) == PeersBy(index, rooms) - {k}
  {
  }

  lemma OwedNotices(s: State, c: ClientId, k: RoomKey, rid: RoomId)
    requires Names(s.index, k, rid) && rid in s.rooms && s.rooms[rid].key == k && c in s.rooms[rid].peers
    ensures OwedBy(LeftHold(s, rid, c)) == Hubs.Notices(BoardOf(s, multiset{}).rooms, c, {k})
  {
    var rooms := BoardOf(s, multiset{}).rooms;
    assert rooms[k] == s.rooms[rid].peers;
    var a, b := OwedBy(LeftHold(s, rid, c)), Hubs.Notices(rooms, c, {k});
    forall n | n in b ensures n in a {
      var j, d :| j in {k} && j in rooms && c in rooms[j] && d in rooms[j] && d != c && n == (d, PeerLeft(j, c));
    }
    forall n | n in a ensures n in b {
      var d :| d in Others(s.rooms[rid].peers, c).Keys && n == (d, PeerLeft(k, c));
      assert k in {k} && d in rooms[k];
    }
  }

  /** The step of a member's leave under both locks. */
  lemma LeaveStepIs(s: State, t: Tid, c: ClientId, k: RoomKey, rid: RoomId)
    requires Inv(s) && PcAt(s.pcs, t) == LeaveLocked(c, k, rid) && Enabled(s, t, Advance) && c in s.rooms[rid].peers
    ensures var s' := Do(s, t, Advance);
      PcAt(s'.pcs, t).Sending? && BoardOf(s', Owed(PcAt(s'.pcs, t).held)) == Hubs.LeaveSet(BoardOf(s, multiset{}), c, {k})
  {
    hide Locks, Mirrors, Knowledge, NoEcho, HubInvariant.Tables, RemovePeer, OwedBy, Hubs.RoomsLeft, Hubs.IndexLeft, Hubs.Notices;
    assert PcOk(PcAt(s.pcs, t), s.index, s.rooms, s.byClient);
    KeyedInv(s);
    RemovalIs(s, t, c, k, rid);
    OwedOne(LeftHold(s, rid, c));
  }

  /** One room of a sweep: of all rooms it takes the client out of the one it locks, and owes that room's notices too. */
  lemma SweepStepIs(s: State, t: Tid, k: RoomKey)
    requires Inv(s) && Enabled(s, t, Sweep(k))
    ensures var pc, s' := PcAt(s.pcs, t), Do(s, t, Sweep(k));
      && PcAt(s'.pcs, t).Sweeping? && PcAt(s'.pcs, t).todo == pc.todo - {k}
      && BoardOf(s', Owed(PcAt(s'.pcs, t).held)) == Hubs.LeaveSet(BoardOf(s, Owed(pc.held)), pc.client, {k})
  {
    hide Locks, Knowledge, NoEcho, HubInvariant.Tables, RemovePeer, OwedBy, Hubs.RoomsLeft, Hubs.IndexLeft, Hubs.Notices;
    var pc := PcAt(s.pcs, t);
    assert PcOk(pc, s.index, s.rooms, s.byClient);
    assert k in KeysOf(s.byClient, pc.client) <==> Member(s, pc.client, k);
    KeyedInv(s);
    RemovalIs(s, t, pc.client, k, s.index[k]);
    OwedMore(pc.held, LeftHold(s, s.index[k], pc.client));
    assert BoardOf(s, Owed(pc.held)).rooms == BoardOf(s, multiset{}).rooms;
  }

  lemma PresenceIs(s: State, t: Tid, c: ClientId, k: RoomKey, selection: Selection, rid: RoomId)
    requires Keyed(s.index, s.rooms) && Names(s.index, k, rid) && rid in s.rooms
    ensures var s', b := RunPinned(s, t, SetPresence(c, k, selection), rid), BoardOf(s, multiset{});
      if c in Hubs.Members(b.rooms, k) then
        PcAt(s'.pcs, t).Sending? && BoardOf(s', Owed(PcAt(s'.pcs, t).held)) == Hubs.PresenceBoard(b, c, k, selection)
      else
        PcAt(s'.pcs, t) == Idle && BoardOf(s', multiset{}) == b
  {
    hide Keyed, BoardOf, PeersBy, OwedBy, Hubs.Copies;
    var s' := RunPinned(s, t, SetPresence(c, k, selection), rid);
    var peers := s.rooms[rid].peers;
    MembersAre(s, k, rid);
    BoardIs(s, multiset{});
    OneRoom(s.index, s.rooms, k, s'.rooms[rid]);
    if c in peers {
      var hold := PcAt(s'.pcs, t).held[0];
      OwedOne(hold);
      BoardIs(s', Owed([hold]));
      OwedCopies(hold, peers, c);
    } else {
      BoardIs(s', multiset{});
      SamePeers(BoardOf(s, multiset{}).rooms, k);
    }
  }

  lemma SamePeers(rooms: map<RoomKey, Peers>, k: RoomKey)
    requires k in rooms
    ensures rooms[k := rooms[k]] == rooms
  {
  }

  /** The step of a presence call under the room lock. */
  lemma PresenceStepIs(s: State, t: Tid, c: ClientId, k: RoomKey, selection: Selection, rid: RoomId)
    requires Inv(s) && PcAt(s.pcs, t) == Pinned(SetPresence(c, k, selection), rid) && Enabled(s, t, Advance)
    ensures var s', b := Do(s, t, Advance), BoardOf(s, multiset{});
      if c in Hubs.Members(b.rooms, k) then
        PcAt(s'.pcs, t).Sending? && BoardOf(s', Owed(PcAt(s'.pcs, t).held)) == Hubs.PresenceBoard(b, c, k, selection)
      else
        PcAt(s'.pcs, t) == Idle && BoardOf(s', multiset{}) == b
  {
    hide Locks, Mirrors, Knowledge, NoEcho, HubInvariant.Tables, RunPinned, BoardOf, Owed, Hubs.PresenceBoard;
    assert PcOk(PcAt(s.pcs, t), s.index, s.rooms, s.byClient);
    KeyedInv(s);
    PresenceIs(s, t, c, k, selection, rid);
  }

  lemma NotifyIs(s: State, t: Tid, k: RoomKey, origin: ClientId, saved: nat, rid: RoomId)
    requires Keyed(s.index, s.rooms) && Names(s.index, k, rid) && rid in s.rooms
    ensures var s', b := RunPinned(s, t, Notify(k, origin, saved), rid), BoardOf(s, multiset{});
      && PcAt(s'.pcs, t).Sending? && s'.obs == s.obs && s'.store == s.store
      && BoardOf(s', Owed(PcAt(s'.pcs, t).held))
           == b.(sent := multiset(Hubs.Copies(Hubs.Members(b.rooms, k), origin, FileChanged(k, saved))))
  {
    hide Keyed, BoardOf, PeersBy, OwedBy, Hubs.Copies;
    var s' := RunPinned(s, t, Notify(k, origin, saved), rid);
    MembersAre(s, k, rid);
    BoardIs(s, multiset{});
    var hold := PcAt(s'.pcs, t).held[0];
    OwedOne(hold);
    BoardIs(s', Owed([hold]));
    OwedCopies(hold, s.rooms[rid].peers, origin);
  }

  /** The step of a file change under the room lock: every member but the origin is owed the news, once. */
  lemma NotifyStepIs(s: State, t: Tid, k: RoomKey, origin: ClientId, saved: nat, rid: RoomId)
    requires Inv(s) && PcAt(s.pcs, t) == Pinned(Notify(k, origin, saved), rid) && Enabled(s, t, Advance)
    ensures var s', b := Do(s, t, Advance), BoardOf(s, multiset{});
      && PcAt(s'.pcs, t).Sending? && s'.obs == s.obs && s'.store == s.store
      && BoardOf(s', Owed(PcAt(s'.pcs, t).held))
           == b.(sent := multiset(Hubs.Copies(Hubs.Members(b.rooms, k), origin, FileChanged(k, saved))))
  {
    hide Locks, Mirrors, Knowledge, NoEcho, HubInvariant.Tables, RunPinned, BoardOf, Owed;
    assert PcOk(PcAt(s.pcs, t), s.index, s.rooms, s.byClient);
    KeyedInv(s);
    NotifyIs(s, t, k, origin, saved, rid);
  }

  /** A send pays exactly one owed message, to the client whose log it enters, and leaves the tables alone. */
  lemma SendPays(s: State, t: Tid, c: ClientId)
    requires Enabled(s, t, Send(c))
    ensures var held, s' := PcAt(s.pcs, t).held, Do(s, t, Send(c));
      && PcAt(s'.pcs, t).Sending? && held[0].event.Some?
      && s'.obs == Observe(s.obs, c, Pushed(held[0].event.value))
      && BoardOf(s', Owed(PcAt(s'.pcs, t).held) + multiset{(c, held[0].event.value)}) == BoardOf(s, Owed(held))
  {
    hide OwedBy;
    var held, s' := PcAt(s.pcs, t).held, Do(s, t, Send(c));
    var less := held[0].(remaining := held[0].remaining - {c});
    OwedLess(held[0], c);
    OwedHead(held);
    OwedHead([less] + held[1..]);
    assert ([less] + held[1..])[1..] == held[1..];
  }

  lemma OwedLess(hold: Hold, c: ClientId)
    requires c in hold.remaining && hold.event.Some?
    ensures multiset(OwedBy(hold)) == multiset(OwedBy(hold.(remaining := hold.remaining - {c}))) + multiset{(c, hold.event.value)}
  {
    var less := OwedBy(hold.(remaining := hold.remaining - {c}));
    assert OwedBy(hold) == less + {(c, hold.event.value)};
    assert (c, hold.event.value) !in less;
  }

  lemma {:induction false} OwedHead(held: seq<Hold>)
    requires held != []
    ensures Owed(held) == multiset(OwedBy(held[0])) + Owed(held[1..])
  {
    hide OwedBy;
    if |held| == 1 {
      OwedOne(held[0]);
      assert held == [held[0]];
    } else {
      var init := held[..|held| - 1];
      OwedHead(init);
      assert held[1..][..|held| - 2] == init[1..];
    }
  }
}
