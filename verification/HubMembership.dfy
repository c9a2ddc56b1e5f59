/**
 Creating rooms, joining them and leaving them keep the invariant.  Membership
 touches all four tables at once, so each step is proved table by table: the
 locks, the rooms, the index of clients, the places of the threads, and what
 every member of the room knows.  A join is settled by its reply, a leave by
 the event that its holder still owes to those who stay; a room that empties
 takes its log with it, which is why sessions carry an incarnation.
 */
module HubMembership {
  import opened Prelude
  import opened OpLog
  import opened HubMachine
  import opened HubInvariant
  import opened HubSteps
  import opened HubFanout

  // ------------------------------------------------------------ room creation

  /** The first join of an absent room puts an empty room object in the index. */
  lemma CreateKeeps(s: State, t: Tid, c: ClientId, k: RoomKey, name: string)
    requires Inv(s) && s.hub.None? && PcAt(s.pcs, t) == Waiting(Join(c, k, name)) && k !in s.index && c != ""
    ensures Inv(AcquireHub(s, t, Join(c, k, name)))
  {
    var s' := AcquireHub(s, t, Join(c, k, name));
    assert forall rid :: rid in s.rooms ==> s'.rooms[rid] == s.rooms[rid];
    CreateShape(s, t, c, k, name);
    CreateTables(s, s', t, c, k, name);
    CreateMirrors(s, t, c, k, name);
    CreateThreads(s, t, c, k, name);
    CreateKnowledge(s, t, c, k, name);
  }

  /** The room has been created and indexed, and its creator waits for it. */
  ghost predicate Creates(s: State, s': State, t: Tid, c: ClientId, k: RoomKey, name: string) {
    && s'.hub == Some(t) && s'.pcs == s.pcs[t := JoinLocked(c, k, name, s.nextRoom)]
    && s'.index == s.index[k := s.nextRoom] && s'.nextRoom == s.nextRoom + 1
    && s'.rooms == s.rooms[s.nextRoom := Room(k, None, map[])]
  }

  lemma CreateShape(s: State, t: Tid, c: ClientId, k: RoomKey, name: string)
    requires k !in s.index
    ensures Creates(s, AcquireHub(s, t, Join(c, k, name)), t, c, k, name)
  {
  }

  lemma NobodyCreating(s: State)
    requires s.hub.None? && Tables(s)
    ensures forall j :: j in s.index ==> s.rooms[s.index[j]].peers != map[]
  {
    hide Live;
  }

  lemma CreateLive(s: State, s': State, t: Tid, c: ClientId, k: RoomKey, name: string, rid: RoomId)
    requires k !in s.index && Tables(s) && Creates(s, s', t, c, k, name)
    requires rid in s'.rooms && s'.rooms[rid].peers != map[]
    ensures Live(s', rid)
  {
    hide BeingCreated;
    assert Live(s, rid);
  }

  lemma CreateTables(s: State, s': State, t: Tid, c: ClientId, k: RoomKey, name: string)
    requires s.hub.None? && k !in s.index && Tables(s) && Creates(s, s', t, c, k, name)
    ensures Tables(s')
  {
    NobodyCreating(s);
    CreateKeys(s, s', t, c, k, name);
    hide Live;
    forall rid | rid in s'.rooms && s'.rooms[rid].peers != map[] ensures Live(s', rid) {
      CreateLive(s, s', t, c, k, name, rid);
    }
    forall j | j in s'.index && s'.rooms[s'.index[j]].peers == map[] ensures BeingCreated(s', s'.index[j]) {
      assert j == k;
    }
  }

  lemma CreateKeys(s: State, s': State, t: Tid, c: ClientId, k: RoomKey, name: string)
    requires k !in s.index && Tables(s) && Creates(s, s', t, c, k, name)
    ensures forall j :: j in s'.index ==> s'.index[j] in s'.rooms && s'.rooms[s'.index[j]].key == j
    ensures forall rid :: rid in s'.rooms ==> rid < s'.nextRoom && |s'.rooms[rid].peers| <= MAX_ROOM_MEMBERS && "" !in s'.rooms[rid].peers
  {
    hide Live, BeingCreated;
  }

  lemma CreateMirrors(s: State, t: Tid, c: ClientId, k: RoomKey, name: string)
    requires k !in s.index && Tables(s) && Mirrors(s)
    ensures Mirrors(AcquireHub(s, t, Join(c, k, name)))
  {
    var s' := AcquireHub(s, t, Join(c, k, name));
    forall d, j ensures j in KeysOf(s'.byClient, d) <==> Member(s', d, j) {
      assert j in KeysOf(s.byClient, d) <==> Member(s, d, j);
    }
  }

  lemma CreateThreads(s: State, t: Tid, c: ClientId, k: RoomKey, name: string)
    requires s.hub.None? && k !in s.index && c != ""
    requires Locks(s.hub, s.rooms, s.pcs) && Threads(s) && Tables(s) && PcAt(s.pcs, t).Waiting?
    ensures var s' := AcquireHub(s, t, Join(c, k, name)); Locks(s'.hub, s'.rooms, s'.pcs) && Threads(s')
  {
    hide HoldOk, FindHold;
    var s' := AcquireHub(s, t, Join(c, k, name));
    assert s.nextRoom !in s.rooms;
    forall r: RoomId ensures LockOf(s'.rooms, r) == LockOf(s.rooms, r) {}
    forall r: RoomId ensures LockOf(s'.rooms, r) == Some(t) <==> HoldsRoom(PcAt(s'.pcs, t), r) {
      assert LockOf(s.rooms, r) == Some(t) <==> HoldsRoom(PcAt(s.pcs, t), r);
    }
    LocksMove(s, s', t);
    forall u: Tid ensures PcOk(PcAt(s'.pcs, u), s'.index, s'.rooms, s'.byClient) {
      if u != t {
        assert PcOk(PcAt(s.pcs, u), s.index, s.rooms, s.byClient);
        MoreRooms(PcAt(s.pcs, u), s, s');
      }
    }
  }

  lemma MoreRooms(pc: Pc, s: State, s': State)
    requires PcOk(pc, s.index, s.rooms, s.byClient) && s'.byClient == s.byClient
    requires forall k :: k in s.index ==> Names(s'.index, k, s.index[k])
    requires forall rid :: rid in s.rooms ==> rid in s'.rooms && s'.rooms[rid] == s.rooms[rid]
    ensures PcOk(pc, s'.index, s'.rooms, s'.byClient)
  {
    match pc
    case Sweeping(_, _, held) =>
      assert HoldsOk(held, s.rooms);
      assert HoldsOk(held, s'.rooms);
    case Sending(held) =>
      assert HoldsOk(held, s.rooms);
      assert HoldsOk(held, s'.rooms);
    case _ =>
  }

  lemma CreateKnowledge(s: State, t: Tid, c: ClientId, k: RoomKey, name: string)
    requires k !in s.index && Tables(s) && Knowledge(s) && PcAt(s.pcs, t).Waiting?
    ensures Knowledge(AcquireHub(s, t, Join(c, k, name)))
  {
    var s' := AcquireHub(s, t, Join(c, k, name));
    assert s.nextRoom !in s.rooms;
    assert s'.rooms[s.nextRoom].peers == map[];
    forall rid, d | rid in s'.rooms && d in s'.rooms[rid].peers ensures PeerKnows(s', rid, d) {
      assert rid in s.rooms && s'.rooms[rid] == s.rooms[rid];
      assert PeerKnows(s, rid, d);
      HoldOfSame(s, s', t, rid);
    }
  }

  // ------------------------------------------------------------------ joining

  predicate Joins(s: State, t: Tid, c: ClientId, k: RoomKey, name: string, rid: RoomId) {
    && PcAt(s.pcs, t) == JoinLocked(c, k, name, rid) && Free(s, rid)
    && (c in s.rooms[rid].peers || |s.rooms[rid].peers| < MAX_ROOM_MEMBERS)
  }

  lemma JoinFacts(s: State, t: Tid, c: ClientId, k: RoomKey, name: string, rid: RoomId)
    requires Inv(s) && Joins(s, t, c, k, name, rid)
    ensures s.hub == Some(t) && Names(s.index, k, rid) && s.rooms[rid].key == k && Live(s, rid) && c != ""
  {
    assert s.hub == Some(t) <==> HoldsHub(PcAt(s.pcs, t));
    assert PcOk(PcAt(s.pcs, t), s.index, s.rooms, s.byClient);
  }

  lemma JoinLocks(s: State, t: Tid, c: ClientId, k: RoomKey, name: string, rid: RoomId)
    requires Locks(s.hub, s.rooms, s.pcs) && Joins(s, t, c, k, name, rid)
    ensures var s' := JoinRoom(s, t, c, k, name, rid); Locks(s'.hub, s'.rooms, s'.pcs)
  {
    var s' := JoinRoom(s, t, c, k, name, rid);
    assert s.hub == Some(t) <==> HoldsHub(PcAt(s.pcs, t));
    var held := HoldsOf(PcAt(s'.pcs, t));
    assert |held| == 1 && held[0].rid == rid && held[1..] == [];
    forall r: RoomId ensures LockOf(s'.rooms, r) == Some(t) <==> HoldsRoom(PcAt(s'.pcs, t), r) {
      assert LockOf(s.rooms, r) == Some(t) <==> HoldsRoom(PcAt(s.pcs, t), r);
    }
    LocksMove(s, s', t);
  }

  lemma PeersGrow(peers: Peers, c: ClientId, info: PeerInfo)
    ensures |peers[c := info]| <= |peers| + if c in peers then 0 else 1
    ensures peers[c := info] != map[]
  {
    assert c in peers[c := info];
    assert peers[c := info].Keys == peers.Keys + {c};
    assert |peers.Keys| == |peers| && |peers[c := info].Keys| == |peers[c := info]|;
    if c in peers {
      assert peers.Keys + {c} == peers.Keys;
    }
  }

  lemma JoinTables(s: State, s': State, rid: RoomId, c: ClientId, info: PeerInfo)
    requires Tables(s) && OnlyRoom(s, s', rid) && Live(s, rid) && c != ""
    requires s'.index == s.index && s'.nextRoom == s.nextRoom
    requires s'.rooms[rid].peers == s.rooms[rid].peers[c := info]
    requires c in s.rooms[rid].peers || |s.rooms[rid].peers| < MAX_ROOM_MEMBERS
    requires forall r :: BeingCreated(s, r) ==> r == rid
    ensures Tables(s')
  {
    PeersGrow(s.rooms[rid].peers, c, info);
    forall r | r in s'.rooms && s'.rooms[r].peers != map[] ensures Live(s', r) {
      assert r == rid || Live(s, r);
    }
    assert forall j :: j in s'.index ==> s'.rooms[s'.index[j]].peers != map[];
  }

  lemma JoinMirrors(s: State, t: Tid, c: ClientId, k: RoomKey, name: string, rid: RoomId)
    requires Tables(s) && Mirrors(s) && Joins(s, t, c, k, name, rid) && Names(s.index, k, rid)
    ensures Mirrors(JoinRoom(s, t, c, k, name, rid))
  {
    hide JoinRoom, Joins, Member, KeysOf, Live, BeingCreated;
    forall d, j { JoinMirrorsAt(s, t, c, k, name, rid, d, j); }
    JoinNotEmpty(s, t, c, k, name, rid);
  }

  lemma JoinNotEmpty(s: State, t: Tid, c: ClientId, k: RoomKey, name: string, rid: RoomId)
    requires Mirrors(s) && Joins(s, t, c, k, name, rid)
    ensures var s' := JoinRoom(s, t, c, k, name, rid); forall d :: d in s'.byClient ==> s'.byClient[d] != {}
  {
    hide Member;
  }

  /** What a join does to the tables. */
  lemma JoinShape(s: State, t: Tid, c: ClientId, k: RoomKey, name: string, rid: RoomId)
    requires Joins(s, t, c, k, name, rid)
    ensures var s' := JoinRoom(s, t, c, k, name, rid);
      && s'.index == s.index && rid in s'.rooms && s'.rooms[rid].peers.Keys == s.rooms[rid].peers.Keys + {c}
      && (forall r :: r in s'.rooms <==> r in s.rooms)
      && (forall r :: r in s.rooms && r != rid ==> s'.rooms[r] == s.rooms[r])
      && s'.byClient == s.byClient[c := KeysOf(s.byClient, c) + {k}]
  {
    hide KeysOf, Others;
  }

  lemma JoinMirrorsAt(s: State, t: Tid, c: ClientId, k: RoomKey, name: string, rid: RoomId, d: ClientId, j: RoomKey)
    requires Tables(s) && Mirrors(s) && Joins(s, t, c, k, name, rid) && Names(s.index, k, rid)
    ensures var s' := JoinRoom(s, t, c, k, name, rid); j in KeysOf(s'.byClient, d) <==> Member(s', d, j)
  {
    hide JoinRoom, Live, BeingCreated, Tables, Mirrors;
    JoinShape(s, t, c, k, name, rid);
    MirrorAt(s, d, j);
    OneKeyPerRoom(s, j, k, rid);
  }

  lemma MirrorAt(s: State, d: ClientId, j: RoomKey)
    requires Mirrors(s)
    ensures j in KeysOf(s.byClient, d) <==> Member(s, d, j)
  {
  }

  lemma OneKeyPerRoom(s: State, j: RoomKey, k: RoomKey, rid: RoomId)
    requires Tables(s) && Names(s.index, k, rid)
    ensures j in s.index && s.index[j] == rid ==> j == k
  {
  }

  lemma JoinThreads(s: State, t: Tid, c: ClientId, k: RoomKey, name: string, rid: RoomId)
    requires Locks(s.hub, s.rooms, s.pcs) && Threads(s) && s.hub == Some(t)
    requires Joins(s, t, c, k, name, rid) && s.rooms[rid].key == k
    ensures Threads(JoinRoom(s, t, c, k, name, rid))
  {
    var s' := JoinRoom(s, t, c, k, name, rid);
    var held := HoldsOf(PcAt(s'.pcs, t));
    assert HoldOk(held[0], s'.rooms[rid]);
    assert HoldsOk(held, s'.rooms);
    assert PcOk(PcAt(s'.pcs, t), s'.index, s'.rooms, s'.byClient);
    ThreadsElsewhere(s, s', t, rid);
  }

  /** A returning client changes nothing that any session records. */
  lemma RejoinKnows(k: RoomKey, c: ClientId, d: ClientId, peers: Peers, info: PeerInfo, rid: RoomId, slot: Slot, sess: Option<Session>)
    requires c in peers && d in peers && info.selection == peers[c].selection
    requires PeerOk(k, d, peers, None, slot, sess)
    ensures PeerOk(k, d, peers[c := info], Some(Hold(k, rid, None, {}, JoinReply(c, false, Others(peers, c)))), slot, sess)
  {
    assert Selections(Others(peers[c := info], d)) == Selections(Others(peers, d));
    assert Others(peers[c := info], c) == Others(peers, c);
  }

  /** A new client is announced to everybody else, and is told who they are. */
  lemma FreshJoinKnows(k: RoomKey, c: ClientId, d: ClientId, peers: Peers, info: PeerInfo, rid: RoomId, slot: Slot, sess: Option<Session>)
    requires c !in peers && (d == c || (d in peers && PeerOk(k, d, peers, None, slot, sess)))
    ensures PeerOk(k, d, peers[c := info],
      Some(Hold(k, rid, Some(PeerJoined(k, c, info)), peers.Keys, JoinReply(c, true, peers))), slot, sess)
  {
    assert Others(peers[c := info], c) == peers;
    if d != c {
      assert Selections(Others(peers[c := info], d)) == Selections(Others(peers, d))[c := info.selection];
    }
  }

  lemma JoinKnowledge(s: State, t: Tid, c: ClientId, k: RoomKey, name: string, rid: RoomId)
    requires Tables(s) && Knowledge(s) && Joins(s, t, c, k, name, rid) && Live(s, rid) && s.rooms[rid].key == k
    ensures Knowledge(JoinRoom(s, t, c, k, name, rid))
  {
    var s' := JoinRoom(s, t, c, k, name, rid);
    forall d | d in s'.rooms[rid].peers ensures PeerKnows(s', rid, d) {
      JoinPeerKnows(s, t, c, k, name, rid, d);
    }
    JoinFrame(s, t, c, k, name, rid);
    KnowledgeElsewhere(s, s', t, rid);
  }

  lemma JoinFrame(s: State, t: Tid, c: ClientId, k: RoomKey, name: string, rid: RoomId)
    requires Joins(s, t, c, k, name, rid)
    ensures var s' := JoinRoom(s, t, c, k, name, rid);
      OnlyRoom(s, s', rid) && OnlyMoves(s.pcs, s'.pcs, t) && OnlyDebt(s, s', t, rid) && OnlyKey(s, s', k)
  {
    var held := HoldsOf(PcAt(JoinRoom(s, t, c, k, name, rid).pcs, t));
    assert held[1..] == [];
  }

  lemma JoinPeerKnows(s: State, t: Tid, c: ClientId, k: RoomKey, name: string, rid: RoomId, d: ClientId)
    requires Knowledge(s) && Joins(s, t, c, k, name, rid) && s.rooms[rid].key == k
    requires d in JoinRoom(s, t, c, k, name, rid).rooms[rid].peers
    ensures PeerKnows(JoinRoom(s, t, c, k, name, rid), rid, d)
  {
    hide PeerOk, Settled, Agrees;
    var s' := JoinRoom(s, t, c, k, name, rid);
    var peers := s.rooms[rid].peers;
    var sess := SessionOf(ObsAt(s.obs, d), k);
    assert HoldOf(s, rid) == None;
    assert d in peers ==> PeerKnows(s, rid, d);
    var info := s'.rooms[rid].peers[c];
    if c in peers {
      RejoinKnows(k, c, d, peers, info, rid, SlotAt(s.store, k), sess);
    } else {
      FreshJoinKnows(k, c, d, peers, info, rid, SlotAt(s.store, k), sess);
    }
  }

  lemma JoinKeeps(s: State, t: Tid, c: ClientId, k: RoomKey, name: string, rid: RoomId)
    requires Inv(s) && Joins(s, t, c, k, name, rid)
    ensures Inv(JoinRoom(s, t, c, k, name, rid))
  {
    hide Locks, Tables, Mirrors, Threads, Knowledge, NoEcho;
    JoinFacts(s, t, c, k, name, rid);
    JoinLocks(s, t, c, k, name, rid);
    JoinTables(s, JoinRoom(s, t, c, k, name, rid), rid, c, JoinRoom(s, t, c, k, name, rid).rooms[rid].peers[c]);
    JoinMirrors(s, t, c, k, name, rid);
    JoinThreads(s, t, c, k, name, rid);
    JoinKnowledge(s, t, c, k, name, rid);
  }

  // ------------------------------------------------------------------ leaving

  /** Member c is taken out of room rid by thread t, which goes on to hold the room. */
  ghost predicate Removes(s: State, s': State, t: Tid, rid: RoomId, c: ClientId) {
    && Free(s, rid) && Live(s, rid) && c in s.rooms[rid].peers
    && s' == RemovePeer(s, t, rid, c).(hub := s'.hub, pcs := s'.pcs)
    && OnlyMoves(s.pcs, s'.pcs, t)
  }

  /** The tables after a removal: one member fewer, and no index entry for an empty room. */
  ghost predicate Shrinks(s: State, s': State, rid: RoomId, c: ClientId) {
    && OnlyRoom(s, s', rid) && Live(s, rid)
    && s'.nextRoom == s.nextRoom
    && s'.rooms[rid].peers == Others(s.rooms[rid].peers, c)
    && s'.index == if s'.rooms[rid].peers == map[] then s.index - {s.rooms[rid].key} else s.index
  }

  lemma OthersShrink(peers: Peers, c: ClientId)
    ensures |Others(peers, c)| <= |peers|
  {
    assert Others(peers, c).Keys <= peers.Keys;
    SubsetSize(Others(peers, c).Keys, peers.Keys);
    assert |Others(peers, c)| == |Others(peers, c).Keys| && |peers| == |peers.Keys|;
  }

  lemma SubsetSize<T>(a: set<T>, b: set<T>)
    requires a <= b
    ensures |a| <= |b|
  {
    assert b == a + (b - a);
  }

  lemma RemoveTables(s: State, s': State, rid: RoomId, c: ClientId)
    requires Tables(s) && Shrinks(s, s', rid, c)
    requires forall r :: !BeingCreated(s, r)
    ensures Tables(s')
  {
    OthersShrink(s.rooms[rid].peers, c);
    forall j | j in s'.index
      ensures s'.index[j] in s'.rooms && s'.rooms[s'.index[j]].key == j && s'.rooms[s'.index[j]].peers != map[]
    {
      RemoveEntry(s, s', rid, c, j);
    }
    forall r | r in s'.rooms && s'.rooms[r].peers != map[] ensures Live(s', r) {
      RemoveLive(s, s', rid, c, r);
    }
  }

  lemma RemoveEntry(s: State, s': State, rid: RoomId, c: ClientId, j: RoomKey)
    requires Tables(s) && Shrinks(s, s', rid, c) && j in s'.index && forall r :: !BeingCreated(s, r)
    ensures s'.index[j] in s'.rooms && s'.rooms[s'.index[j]].key == j && s'.rooms[s'.index[j]].peers != map[]
  {
    assert j in s.index && s'.index[j] == s.index[j];
    assert s.rooms[s.index[j]].key == j && s.rooms[s.index[j]].peers != map[];
  }

  lemma RemoveLive(s: State, s': State, rid: RoomId, c: ClientId, r: RoomId)
    requires Tables(s) && Shrinks(s, s', rid, c) && r in s'.rooms && s'.rooms[r].peers != map[]
    ensures Live(s', r)
  {
    if r != rid {
      assert s.rooms[r].peers != map[];
      assert Live(s, r);
    }
  }

  lemma RemoveMirrors(s: State, s': State, rid: RoomId, c: ClientId)
    requires Mirrors(s) && Tables(s) && Shrinks(s, s', rid, c)
    requires forall d :: KeysOf(s'.byClient, d) == KeysOf(s.byClient, d) - (if d == c then {s.rooms[rid].key} else {})
    requires forall d :: d in s'.byClient ==> s'.byClient[d] != {}
    ensures Mirrors(s')
  {
    var k := s.rooms[rid].key;
    forall d, j ensures j in KeysOf(s'.byClient, d) <==> Member(s', d, j) {
      assert j in KeysOf(s.byClient, d) <==> Member(s, d, j);
      RemoveMember(s, s', rid, c, d, j);
    }
  }

  lemma RemoveMember(s: State, s': State, rid: RoomId, c: ClientId, d: ClientId, j: RoomKey)
    requires Tables(s) && Shrinks(s, s', rid, c)
    ensures Member(s', d, j) <==> Member(s, d, j) && !(d == c && j == s.rooms[rid].key)
  {
    assert d in Others(s.rooms[rid].peers, c) <==> d in s.rooms[rid].peers && d != c;
    if j in s.index && j != s.rooms[rid].key {
      assert s.index[j] != rid;
    }
  }

  lemma RemoveShrinks(s: State, s': State, t: Tid, rid: RoomId, c: ClientId)
    requires Removes(s, s', t, rid, c)
    ensures Shrinks(s, s', rid, c)
    ensures forall d :: KeysOf(s'.byClient, d) == KeysOf(s.byClient, d) - (if d == c then {s.rooms[rid].key} else {})
  {
  }

  lemma RemoveNonempty(s: State, s': State, t: Tid, rid: RoomId, c: ClientId)
    requires Mirrors(s) && Removes(s, s', t, rid, c)
    ensures forall d :: d in s'.byClient ==> s'.byClient[d] != {}
  {
  }

  /** What is left of the room is told who left, and nothing else changes for it. */
  lemma LeftKnows(k: RoomKey, c: ClientId, d: ClientId, peers: Peers, rid: RoomId, slot: Slot, sess: Option<Session>)
    requires c in peers && d in peers && d != c
    requires PeerOk(k, d, peers, None, slot, sess)
    ensures PeerOk(k, d, Others(peers, c),
      Some(Hold(k, rid, Some(PeerLeft(k, c)), Others(peers, c).Keys, NoReply)), slot, sess)
  {
    assert Selections(Others(Others(peers, c), d)) == Selections(Others(peers, d)) - {c};
  }

  lemma RemoveFrame(s: State, s': State, t: Tid, rid: RoomId, c: ClientId)
    requires Removes(s, s', t, rid, c)
    ensures OnlyRoom(s, s', rid) && OnlyKey(s, s', s.rooms[rid].key)
    ensures s'.index == s.index || s'.index == s.index - {s.rooms[rid].key}
  {
  }

  lemma RemovePeerKnows(s: State, s': State, t: Tid, rid: RoomId, c: ClientId, d: ClientId)
    requires Removes(s, s', t, rid, c) && HoldOf(s', rid) == Some(LeftHold(s, rid, c))
    requires d in s'.rooms[rid].peers && PeerKnows(s, rid, d)
    ensures PeerKnows(s', rid, d)
  {
    var room := s.rooms[rid];
    assert HoldOf(s, rid) == None;
    assert d in Others(room.peers, c);
    LeftKnows(room.key, c, d, room.peers, rid, SlotAt(s.store, room.key), SessionOf(ObsAt(s.obs, d), room.key));
  }

  lemma RemoveKnowledge(s: State, s': State, t: Tid, rid: RoomId, c: ClientId)
    requires Tables(s) && Knowledge(s) && Removes(s, s', t, rid, c)
    requires HoldOf(s', rid) == Some(LeftHold(s, rid, c)) && OnlyDebt(s, s', t, rid)
    ensures Knowledge(s')
  {
    forall d | d in s'.rooms[rid].peers ensures PeerKnows(s', rid, d) {
      assert PeerKnows(s, rid, d);
      RemovePeerKnows(s, s', t, rid, c, d);
    }
    RemoveFrame(s, s', t, rid, c);
    KnowledgeElsewhere(s, s', t, rid);
  }

  lemma LeftHoldOk(s: State, s': State, t: Tid, rid: RoomId, c: ClientId)
    requires Removes(s, s', t, rid, c)
    ensures HoldOk(LeftHold(s, rid, c), s'.rooms[rid]) && c !in s'.rooms[rid].peers
  {
  }

  lemma LeaveLocks(s: State, t: Tid, c: ClientId, k: RoomKey, rid: RoomId)
    requires Locks(s.hub, s.rooms, s.pcs) && PcAt(s.pcs, t) == LeaveLocked(c, k, rid)
    requires Free(s, rid) && c in s.rooms[rid].peers
    ensures var s' := LeaveRoom(s, t, c, rid);
      Locks(s'.hub, s'.rooms, s'.pcs) && OnlyDebt(s, s', t, rid) && HoldOf(s', rid) == Some(LeftHold(s, rid, c))
  {
    var s' := LeaveRoom(s, t, c, rid);
    assert s.hub == Some(t) <==> HoldsHub(PcAt(s.pcs, t));
    var held := HoldsOf(PcAt(s'.pcs, t));
    assert held == [LeftHold(s, rid, c)] && held[1..] == [];
    forall r: RoomId ensures LockOf(s'.rooms, r) == Some(t) <==> HoldsRoom(PcAt(s'.pcs, t), r) {
      assert LockOf(s.rooms, r) == Some(t) <==> HoldsRoom(PcAt(s.pcs, t), r);
    }
    LocksMove(s, s', t);
  }

  /** Everything about a removal that does not depend on who performs it. */
  lemma RemovePeople(s: State, s': State, t: Tid, rid: RoomId, c: ClientId)
    requires Tables(s) && Mirrors(s) && Removes(s, s', t, rid, c)
    requires forall r :: !BeingCreated(s, r)
    ensures Tables(s') && Mirrors(s')
  {
    RemoveShrinks(s, s', t, rid, c);
    RemoveNonempty(s, s', t, rid, c);
    RemoveTables(s, s', rid, c);
    RemoveMirrors(s, s', rid, c);
  }

  lemma LeaveThreads(s: State, t: Tid, c: ClientId, k: RoomKey, rid: RoomId)
    requires Locks(s.hub, s.rooms, s.pcs) && Threads(s) && PcAt(s.pcs, t) == LeaveLocked(c, k, rid)
    requires s.hub == Some(t) && rid in s.rooms && Removes(s, LeaveRoom(s, t, c, rid), t, rid, c)
    ensures Threads(LeaveRoom(s, t, c, rid))
  {
    var s' := LeaveRoom(s, t, c, rid);
    LeftHoldOk(s, s', t, rid, c);
    RemoveFrame(s, s', t, rid, c);
    ThreadsElsewhere(s, s', t, rid);
  }

  lemma LeaveRemoves(s: State, t: Tid, c: ClientId, rid: RoomId)
    requires Free(s, rid) && Live(s, rid) && c in s.rooms[rid].peers
    ensures Removes(s, LeaveRoom(s, t, c, rid), t, rid, c)
  {
  }

  /** Rooms are created only by a join, which then holds the hub lock. */
  lemma NotCreating(s: State, t: Tid)
    requires s.hub == Some(t) && !PcAt(s.pcs, t).JoinLocked?
    ensures forall r :: !BeingCreated(s, r)
  {
  }

  lemma LeaveMember(s: State, t: Tid, c: ClientId, k: RoomKey, rid: RoomId)
    requires Inv(s) && PcAt(s.pcs, t) == LeaveLocked(c, k, rid) && Free(s, rid) && Live(s, rid)
    requires s.hub == Some(t) && c in s.rooms[rid].peers
    ensures Inv(LeaveRoom(s, t, c, rid))
  {
    var s' := LeaveRoom(s, t, c, rid);
    LeaveRemoves(s, t, c, rid);
    LeaveLocks(s, t, c, k, rid);
    NotCreating(s, t);
    RemovePeople(s, s', t, rid, c);
    LeaveThreads(s, t, c, k, rid);
    RemoveKnowledge(s, s', t, rid, c);
  }

  lemma LeaveKeeps(s: State, t: Tid, c: ClientId, k: RoomKey, rid: RoomId)
    requires Inv(s) && PcAt(s.pcs, t) == LeaveLocked(c, k, rid) && Free(s, rid)
    ensures Inv(LeaveRoom(s, t, c, rid))
  {
    assert s.hub == Some(t) <==> HoldsHub(PcAt(s.pcs, t));
    assert PcOk(PcAt(s.pcs, t), s.index, s.rooms, s.byClient);
    if c !in s.rooms[rid].peers {
      DropHub(s, t);
    } else {
      LeaveMember(s, t, c, k, rid);
    }
  }
}
