/** The hub's own methods, run one call at a time. */
module Hubs {
  import opened Prelude
  import opened OpLog
  import opened HubMachine
  import opened MemoryStores

  type Sends = multiset<(ClientId, Event)>

  datatype Board = Board(rooms: map<RoomKey, Peers>, byClient: map<ClientId, set<RoomKey>>, sent: Sends)

  ghost predicate Consistent(b: Board) {
    && (forall k :: k in b.rooms ==> b.rooms[k] != map[] && |b.rooms[k]| <= MAX_ROOM_MEMBERS)
    && (forall c, k :: k in KeysOf(b.byClient, c) <==> k in b.rooms && c in b.rooms[k])
    && (forall c :: c in b.byClient ==> b.byClient[c] != {})
  }

  // ---------------------------------------------------------- leaving, by set

  predicate Empties(peers: Peers, c: ClientId) {
    peers.Keys == {c}
  }

  function RoomsLeft(rooms: map<RoomKey, Peers>, c: ClientId, ks: set<RoomKey>): map<RoomKey, Peers> {
    map k | k in rooms && !(k in ks && Empties(rooms[k], c)) :: if k in ks then Others(rooms[k], c) else rooms[k]
  }

  function IndexLeft(byClient: map<ClientId, set<RoomKey>>, c: ClientId, ks: set<RoomKey>): map<ClientId, set<RoomKey>> {
    var keys := KeysOf(byClient, c) - ks;
    if keys == {} then byClient - {c} else byClient[c := keys]
  }

  /** Who is told about c leaving the rooms ks. */
  function Notices(rooms: map<RoomKey, Peers>, c: ClientId, ks: set<RoomKey>): set<(ClientId, Event)> {
    set k, d | k in ks && k in rooms && c in rooms[k] && d in rooms[k] && d != c :: (d, PeerLeft(k, c))
  }

  /** Client c out of all the rooms ks at once. */
  function LeaveSet(b: Board, c: ClientId, ks: set<RoomKey>): Board {
    Board(RoomsLeft(b.rooms, c, ks), IndexLeft(b.byClient, c, ks), b.sent + multiset(Notices(b.rooms, c, ks)))
  }

  /** Client c out of the rooms ks one after the other. */
  function LeaveEach(b: Board, c: ClientId, ks: seq<RoomKey>): Board {
    if ks == [] then b else LeaveSet(LeaveEach(b, c, ks[..|ks| - 1]), c, {ks[|ks| - 1]})
  }

  lemma RoomsLeftTwice(rooms: map<RoomKey, Peers>, c: ClientId, ks: set<RoomKey>, more: set<RoomKey>)
    requires ks !! more
    ensures RoomsLeft(RoomsLeft(rooms, c, ks), c, more) == RoomsLeft(rooms, c, ks + more)
  {
  }

  lemma NoticesTwice(rooms: map<RoomKey, Peers>, c: ClientId, ks: set<RoomKey>, more: set<RoomKey>)
    requires ks !! more
    ensures Notices(rooms, c, ks) !! Notices(RoomsLeft(rooms, c, ks), c, more)
    ensures Notices(rooms, c, ks) + Notices(RoomsLeft(rooms, c, ks), c, more) == Notices(rooms, c, ks + more)
  {
    var later := RoomsLeft(rooms, c, ks);
    assert forall k :: k in more && k in rooms && !Empties(rooms[k], c) ==> k in later && later[k] == rooms[k];
    forall n | n in Notices(rooms, c, ks + more)
      ensures n in Notices(rooms, c, ks) || n in Notices(later, c, more)
    {
      var k, d :| k in ks + more && k in rooms && c in rooms[k] && d in rooms[k] && d != c && n == (d, PeerLeft(k, c));
      assert !Empties(rooms[k], c);
    }
  }

  lemma IndexLeftTwice(byClient: map<ClientId, set<RoomKey>>, c: ClientId, ks: set<RoomKey>, more: set<RoomKey>)
    ensures IndexLeft(IndexLeft(byClient, c, ks), c, more) == IndexLeft(byClient, c, ks + more)
  {
    assert KeysOf(byClient, c) - ks - more == KeysOf(byClient, c) - (ks + more);
  }

  lemma LeaveSetTwice(b: Board, c: ClientId, ks: set<RoomKey>, more: set<RoomKey>)
    requires ks !! more
    ensures LeaveSet(LeaveSet(b, c, ks), c, more) == LeaveSet(b, c, ks + more)
  {
    RoomsLeftTwice(b.rooms, c, ks, more);
    IndexLeftTwice(b.byClient, c, ks, more);
    NoticesTwice(b.rooms, c, ks, more);
    DisjointSum(Notices(b.rooms, c, ks), Notices(RoomsLeft(b.rooms, c, ks), c, more));
  }

  lemma DisjointSum(a: set<(ClientId, Event)>, b: set<(ClientId, Event)>)
    requires a !! b
    ensures multiset(a + b) == multiset(a) + multiset(b)
  {
  }

  function Elements(ks: seq<RoomKey>): set<RoomKey> {
    set k | k in ks
  }

  /** Leaving rooms one by one, in any order, comes to the same as leaving them all at once. */
  lemma {:induction false} LeaveOrderIrrelevant(b: Board, c: ClientId, ks: seq<RoomKey>)
    requires Consistent(b) && forall i, j :: 0 <= i < j < |ks| ==> ks[i] != ks[j]
    ensures LeaveEach(b, c, ks) == LeaveSet(b, c, Elements(ks))
  {
    if ks == [] {
      assert Elements(ks) == {};
      LeaveNothing(b, c);
    } else {
      var front := ks[..|ks| - 1];
      var last := ks[|ks| - 1];
      LeaveOrderIrrelevant(b, c, front);
      assert Elements(ks) == Elements(front) + {last};
      LeaveSetTwice(b, c, Elements(front), {last});
    }
  }

  lemma LeaveNothing(b: Board, c: ClientId)
    requires Consistent(b)
    ensures LeaveSet(b, c, {}) == b
  {
    assert RoomsLeft(b.rooms, c, {}) == b.rooms;
    assert Notices(b.rooms, c, {}) == {};
    assert KeysOf(b.byClient, c) - {} == KeysOf(b.byClient, c);
    assert IndexLeft(b.byClient, c, {}) == b.byClient;
  }

  lemma LeaveConsistent(b: Board, c: ClientId, ks: set<RoomKey>)
    requires Consistent(b)
    ensures Consistent(LeaveSet(b, c, ks))
  {
    var b' := LeaveSet(b, c, ks);
    forall k | k in b'.rooms ensures b'.rooms[k] != map[] && |b'.rooms[k]| <= MAX_ROOM_MEMBERS {
      if k in ks {
        StillInhabited(b.rooms[k], c);
      }
    }
    forall d, k ensures k in KeysOf(b'.byClient, d) <==> k in b'.rooms && d in b'.rooms[k] {
      assert k in KeysOf(b.byClient, d) <==> k in b.rooms && d in b.rooms[k];
    }
  }

  lemma StillInhabited(peers: Peers, c: ClientId)
    requires peers != map[] && !Empties(peers, c)
    ensures Others(peers, c) != map[] && |Others(peers, c)| <= |peers|
  {
    var rest := peers.Keys - {c};
    assert rest != {};
    var d :| d in rest;
    assert d in Others(peers, c);
    assert |peers| == |peers.Keys| && |Others(peers, c)| == |Others(peers, c).Keys|;
    assert peers.Keys == Others(peers, c).Keys + (peers.Keys - Others(peers, c).Keys);
  }

  /** After LeaveAll the client is in no room, and nobody else's membership changed. */
  lemma LeaveAllLeavesAll(b: Board, c: ClientId)
    requires Consistent(b)
    ensures var b' := LeaveSet(b, c, KeysOf(b.byClient, c));
      && c !in b'.byClient
      && (forall k :: k in b'.rooms ==> k in b.rooms && b'.rooms[k] == Others(b.rooms[k], c))
      && (forall k :: k in b.rooms && k !in b'.rooms ==> Empties(b.rooms[k], c))
  {
    var keys := KeysOf(b.byClient, c);
    assert keys - keys == {};
    forall k | k in b.rooms && k !in keys ensures Others(b.rooms[k], c) == b.rooms[k] {
      assert c !in b.rooms[k];
    }
  }

  // ------------------------------------------------------------------ the hub

  datatype HubError = NotInRoom | RoomFull | Rejected(error: StoreError)

  datatype JoinResult = JoinResult(peers: Peers, head: int, savedSeq: int)

  function Members(rooms: map<RoomKey, Peers>, k: RoomKey): Peers {
    if k in rooms then rooms[k] else map[]
  }

  /** One event for every member except one. */
  function Copies(peers: Peers, skip: ClientId, event: Event): set<(ClientId, Event)> {
    set d | d in peers && d != skip :: (d, event)
  }

  predicate Admits(peers: Peers, c: ClientId) {
    c in peers || |peers| < MAX_ROOM_MEMBERS
  }

  /** The board after an admitted join. */
  function JoinBoard(b: Board, c: ClientId, k: RoomKey, name: string): Board {
    var peers := Members(b.rooms, k);
    var info := PeerInfo(name, if c in peers then peers[c].selection else None);
    Board(b.rooms[k := peers[c := info]],
          b.byClient[c := KeysOf(b.byClient, c) + {k}],
          if c in peers then b.sent else b.sent + multiset(Copies(peers, c, PeerJoined(k, c, info))))
  }

  lemma JoinedSize(peers: Peers, c: ClientId, info: PeerInfo)
    requires Admits(peers, c) && |peers| <= MAX_ROOM_MEMBERS
    ensures peers[c := info] != map[] && |peers[c := info]| <= MAX_ROOM_MEMBERS
  {
    var peers' := peers[c := info];
    assert c in peers';
    assert peers'.Keys == peers.Keys + {c};
    assert |peers'| == |peers'.Keys| && |peers| == |peers.Keys|;
    if c in peers {
      assert peers.Keys + {c} == peers.Keys;
    }
  }

  lemma JoinConsistent(b: Board, c: ClientId, k: RoomKey, name: string)
    requires Consistent(b) && Admits(Members(b.rooms, k), c)
    ensures Consistent(JoinBoard(b, c, k, name))
  {
    var b' := JoinBoard(b, c, k, name);
    JoinedSize(Members(b.rooms, k), c, b'.rooms[k][c]);
    JoinMirrors(b, c, k, name);
  }

  lemma JoinMirrors(b: Board, c: ClientId, k: RoomKey, name: string)
    requires Consistent(b)
    ensures var b' := JoinBoard(b, c, k, name);
      forall d, j :: j in KeysOf(b'.byClient, d) <==> j in b'.rooms && d in b'.rooms[j]
  {
    var b' := JoinBoard(b, c, k, name);
    forall d, j ensures j in KeysOf(b'.byClient, d) <==> j in b'.rooms && d in b'.rooms[j] {
      assert j in KeysOf(b.byClient, d) <==> j in b.rooms && d in b.rooms[j];
    }
  }

  /**
   * After a join the room shows the client under the name of that join, with the selection it had, and everybody else
   * as before; a newcomer is announced so to each member.
   */
  lemma JoinShows(b: Board, c: ClientId, k: RoomKey, name: string)
    ensures var before, after := Members(b.rooms, k), JoinBoard(b, c, k, name);
      && k in after.rooms && after.rooms[k].Keys == before.Keys + {c}
      && after.rooms[k][c].name == name
      && after.rooms[k][c].selection == (if c in before then before[c].selection else None)
      && (forall d :: d in before && d != c ==> after.rooms[k][d] == before[d])
      && (forall j :: j != k ==> (j in after.rooms <==> j in b.rooms) && (j in b.rooms ==> after.rooms[j] == b.rooms[j]))
      && (c !in before ==> forall d :: d in before ==> after.sent[(d, PeerJoined(k, c, PeerInfo(name, None)))] == b.sent[(d, PeerJoined(k, c, PeerInfo(name, None)))] + 1)
  {
    var before, after := Members(b.rooms, k), JoinBoard(b, c, k, name);
    var info := PeerInfo(name, None);
    if c !in before {
      forall d | d in before ensures after.sent[(d, PeerJoined(k, c, info))] == b.sent[(d, PeerJoined(k, c, info))] + 1 {
        assert (d, PeerJoined(k, c, info)) in Copies(before, c, PeerJoined(k, c, info));
      }
    }
  }

  /** Joining again under another name changes the name, and nothing is announced. */
  lemma JoinAgain(b: Board, c: ClientId, k: RoomKey, name: string, other: string)
    ensures var once := JoinBoard(b, c, k, name);
      JoinBoard(once, c, k, other) == Board(JoinBoard(b, c, k, other).rooms, once.byClient, once.sent)
  {
    hide Copies;
    var peers := Members(b.rooms, k);
    var once := JoinBoard(b, c, k, name);
    var selection := if c in peers then peers[c].selection else None;
    assert once.rooms[k][c := PeerInfo(other, selection)] == peers[c := PeerInfo(other, selection)];
    assert KeysOf(once.byClient, c) + {k} == KeysOf(once.byClient, c);
    assert once.rooms[k := peers[c := PeerInfo(other, selection)]] == b.rooms[k := peers[c := PeerInfo(other, selection)]];
  }

  function RoomName(n: nat): RoomKey {
    if n == 0 then "" else RoomName(n - 1) + "r"
  }

  lemma {:induction false} RoomNameLength(n: nat)
    ensures |RoomName(n)| == n
  {
    if n == 0 {
    } else {
      RoomNameLength(n - 1);
    }
  }

  /** One client joining n different rooms of an empty hub. */
  function JoinMany(c: ClientId, n: nat): Board {
    if n == 0 then Board(map[], map[], multiset{}) else JoinBoard(JoinMany(c, n - 1), c, RoomName(n), "")
  }

  /**
   Only rooms are bounded: n joins of new rooms, each of them admitted, put n
   rooms into the client's index set, so the 64-member limit does not bound it.
   */
  lemma {:induction false} IndexSetsAreUnbounded(c: ClientId, n: nat)
    ensures |KeysOf(JoinMany(c, n).byClient, c)| == n
    ensures forall k :: k in KeysOf(JoinMany(c, n).byClient, c) || k in JoinMany(c, n).rooms ==> |k| <= n
    ensures n > 0 ==> Admits(Members(JoinMany(c, n - 1).rooms, RoomName(n)), c)
  {
    if n == 0 {
    } else {
      IndexSetsAreUnbounded(c, n - 1);
      RoomNameLength(n);
    }
  }

  lemma OthersAbsent(peers: Peers, c: ClientId)
    requires c !in peers
    ensures Others(peers, c) == peers
  {
  }

  lemma OthersRoundTrip(peers: Peers, c: ClientId, info: PeerInfo)
    requires c !in peers
    ensures Others(peers[c := info], c) == peers
    ensures Empties(peers[c := info], c) <==> peers == map[]
  {
    assert peers[c := info].Keys == peers.Keys + {c};
    if peers == map[] {
      assert peers.Keys == {};
    } else {
      assert peers.Keys != {};
      var d :| d in peers.Keys;
      assert d in peers[c := info].Keys;
    }
  }

  /** A client that joins and leaves again leaves no trace but the announcements. */
  lemma JoinLeaveRestores(b: Board, c: ClientId, k: RoomKey, name: string)
    requires Consistent(b) && c !in Members(b.rooms, k)
    ensures var b' := LeaveSet(JoinBoard(b, c, k, name), c, {k});
      b'.rooms == b.rooms && b'.byClient == b.byClient
  {
    var joined := JoinBoard(b, c, k, name);
    RoomRestored(b.rooms, c, k, joined.rooms[k][c]);
    assert c in b.byClient ==> b.byClient[c] != {};
    assert k !in KeysOf(b.byClient, c);
    IndexRestored(b.byClient, c, k);
  }

  lemma RoomRestored(rooms: map<RoomKey, Peers>, c: ClientId, k: RoomKey, info: PeerInfo)
    requires c !in Members(rooms, k) && (k in rooms ==> rooms[k] != map[])
    ensures RoomsLeft(rooms[k := Members(rooms, k)[c := info]], c, {k}) == rooms
  {
    OthersRoundTrip(Members(rooms, k), c, info);
  }

  lemma IndexRestored(byClient: map<ClientId, set<RoomKey>>, c: ClientId, k: RoomKey)
    requires k !in KeysOf(byClient, c) && (c in byClient ==> byClient[c] != {})
    ensures IndexLeft(byClient[c := KeysOf(byClient, c) + {k}], c, {k}) == byClient
  {
    assert KeysOf(byClient, c) + {k} - {k} == KeysOf(byClient, c);
  }

  lemma LeaveAbsent(b: Board, c: ClientId, k: RoomKey)
    requires Consistent(b) && c !in Members(b.rooms, k)
    ensures LeaveSet(b, c, {k}) == b
  {
    if k in b.rooms {
      OthersAbsent(b.rooms[k], c);
    }
    assert k !in KeysOf(b.byClient, c);
    assert RoomsLeft(b.rooms, c, {k}) == b.rooms;
    assert Notices(b.rooms, c, {k}) == {};
    assert KeysOf(b.byClient, c) - {k} == KeysOf(b.byClient, c);
    assert IndexLeft(b.byClient, c, {k}) == b.byClient;
  }

  ghost function Told(told: set<ClientId>, event: Event): Sends {
    multiset(set d | d in told :: (d, event))
  }

  lemma OneMoreCopy(told: set<ClientId>, d: ClientId, event: Event)
    requires d !in told
    ensures Told(told + {d}, event) == Told(told, event) + multiset{(d, event)}
  {
    var before := set x | x in told :: (x, event);
    assert (set x | x in told + {d} :: (x, event)) == before + {(d, event)};
    assert (d, event) !in before;
  }

  lemma NobodyToldYet(event: Event)
    ensures Told({}, event) == multiset{}
  {
    assert (set d: ClientId | d in {} :: (d, event)) == {};
  }

  lemma EverybodyTold(peers: Peers, skip: ClientId, event: Event)
    ensures Told(peers.Keys - {skip}, event) == multiset(Copies(peers, skip, event))
  {
    assert (set d | d in peers.Keys - {skip} :: (d, event)) == Copies(peers, skip, event);
  }

  lemma EmptiesIsNoOthers(peers: Peers, c: ClientId)
    requires c in peers
    ensures Others(peers, c) == map[] <==> Empties(peers, c)
  {
    assert Others(peers, c).Keys == peers.Keys - {c};
    assert Others(peers, c) == map[] <==> Others(peers, c).Keys == {};
  }

  lemma OneMoreRoom(rooms: map<RoomKey, Peers>, c: ClientId, told: set<RoomKey>, k: RoomKey)
    requires k !in told && k in rooms && c in rooms[k]
    ensures multiset(Notices(rooms, c, told + {k}))
         == multiset(Notices(rooms, c, told)) + multiset(Copies(Others(rooms[k], c), c, PeerLeft(k, c)))
  {
    var copies := Copies(Others(rooms[k], c), c, PeerLeft(k, c));
    assert Notices(rooms, c, told + {k}) == Notices(rooms, c, told) + copies;
    DisjointSum(Notices(rooms, c, told), copies);
  }

  lemma NoNotices(rooms: map<RoomKey, Peers>, c: ClientId)
    ensures Notices(rooms, c, {}) == {}
  {
  }

  lemma SumMoves(first: Sends, notices: Sends, copies: Sends, before: Sends, after: Sends)
    requires before == first + notices && after == before + copies
    ensures after == first + (notices + copies)
  {
  }

  /** A room's log is forgotten exactly when its last member leaves. */
  ghost predicate LogsAfter(rooms: map<RoomKey, Peers>, logs: map<RoomKey, Log>, logs': map<RoomKey, Log>, c: ClientId, ks: set<RoomKey>) {
    forall k :: LogAt(logs', k) == if k in ks && k in rooms && Empties(rooms[k], c) then EmptyLog else LogAt(logs, k)
  }

  /** The tables with the rooms `done` already left, and the members that are still to be told. */
  ghost predicate Collected(rooms: map<RoomKey, Peers>, byClient: map<ClientId, set<RoomKey>>,
      rooms': map<RoomKey, Peers>, byClient': map<ClientId, set<RoomKey>>, pending: map<RoomKey, Peers>,
      c: ClientId, done: set<RoomKey>) {
    && rooms' == RoomsLeft(rooms, c, done) && byClient' == IndexLeft(byClient, c, done)
    && pending.Keys == done
    && forall k :: k in done ==> k in rooms && pending[k] == Others(rooms[k], c)
  }

  lemma StillThere(rooms: map<RoomKey, Peers>, rooms': map<RoomKey, Peers>, c: ClientId, done: set<RoomKey>, k: RoomKey)
    requires rooms' == RoomsLeft(rooms, c, done) && k !in done && k in rooms
    ensures k in rooms' && rooms'[k] == rooms[k]
  {
  }

  lemma CollectOneMore(rooms: map<RoomKey, Peers>, byClient: map<ClientId, set<RoomKey>>,
      rooms1: map<RoomKey, Peers>, byClient1: map<ClientId, set<RoomKey>>, pending: map<RoomKey, Peers>,
      c: ClientId, done: set<RoomKey>, k: RoomKey)
    requires Collected(rooms, byClient, rooms1, byClient1, pending, c, done)
    requires k !in done && k in rooms && k in rooms1
    ensures Collected(rooms, byClient, RoomsLeft(rooms1, c, {k}), IndexLeft(byClient1, c, {k}),
      pending[k := Others(rooms1[k], c)], c, done + {k})
  {
    StillThere(rooms, rooms1, c, done, k);
    RoomsLeftTwice(rooms, c, done, {k});
    IndexLeftTwice(byClient, c, done, {k});
  }

  lemma LogsOneMore(rooms: map<RoomKey, Peers>, rooms1: map<RoomKey, Peers>, logs: map<RoomKey, Log>,
      logs1: map<RoomKey, Log>, logs2: map<RoomKey, Log>, c: ClientId, done: set<RoomKey>, k: RoomKey)
    requires rooms1 == RoomsLeft(rooms, c, done) && k !in done && k in rooms
    requires LogsAfter(rooms, logs, logs1, c, done) && LogsAfter(rooms1, logs1, logs2, c, {k})
    ensures LogsAfter(rooms, logs, logs2, c, done + {k})
  {
    StillThere(rooms, rooms1, c, done, k);
  }

  lemma LeaveNone(rooms: map<RoomKey, Peers>, byClient: map<ClientId, set<RoomKey>>, c: ClientId)
    requires c in byClient ==> byClient[c] != {}
    ensures RoomsLeft(rooms, c, {}) == rooms && IndexLeft(byClient, c, {}) == byClient
  {
    assert KeysOf(byClient, c) - {} == KeysOf(byClient, c);
  }

  function PresenceBoard(b: Board, c: ClientId, k: RoomKey, selection: Selection): Board
    requires k in b.rooms && c in b.rooms[k]
  {
    var peers := b.rooms[k];
    Board(b.rooms[k := peers[c := peers[c].(selection := Some(selection))]], b.byClient,
          b.sent + multiset(Copies(peers, c, HubMachine.Presence(k, c, selection))))
  }

  lemma PresenceConsistent(b: Board, c: ClientId, k: RoomKey, selection: Selection)
    requires Consistent(b) && k in b.rooms && c in b.rooms[k]
    ensures Consistent(PresenceBoard(b, c, k, selection))
  {
    var b' := PresenceBoard(b, c, k, selection);
    JoinedSize(b.rooms[k], c, b'.rooms[k][c]);
    forall d, j ensures j in KeysOf(b'.byClient, d) <==> j in b'.rooms && d in b'.rooms[j] {
      assert j in KeysOf(b.byClient, d) <==> j in b.rooms && d in b.rooms[j];
    }
  }

  /**
   The rooms, the client index and the sends are updated in place, and each
   method is tied to a function of the state before it.  The interleavings of
   these calls are the subject of HubMachine; what is proved here is that
   dropping a client from all its rooms does not depend on the order in which
   the rooms are visited.
   */
  class Hub {
    var rooms: map<RoomKey, Peers>
    var byClient: map<ClientId, set<RoomKey>>
    var sent: seq<(ClientId, Event)>
    const store: MemoryStore

    ghost predicate Valid()
      reads this, store
    {
      store.Valid() && Consistent(Abs())
    }

    ghost function Abs(): Board
      reads this
    {
      Board(rooms, byClient, multiset(sent))
    }

    constructor (store: MemoryStore)
      requires store.Valid()
      ensures Valid() && this.store == store && Abs() == Board(map[], map[], multiset{})
    {
      this.store := store;
      rooms, byClient, sent := map[], map[], [];
    }

    /** The fan-out loop: one send to every peer except one. */
    method SendTo(peers: Peers, skip: ClientId, event: Event)
      modifies this`sent
      ensures multiset(sent) == old(multiset(sent)) + multiset(Copies(peers, skip, event))
    {
      hide Copies, Told;
      var todo := peers.Keys - {skip};
      ghost var told := {};
      NobodyToldYet(event);
      while todo != {}
        invariant todo !! told && todo + told == peers.Keys - {skip}
        invariant multiset(sent) == old(multiset(sent)) + Told(told, event)
      {
        var d :| d in todo;
        OneMoreCopy(told, d, event);
        sent := sent + [(d, event)];
        todo, told := todo - {d}, told + {d};
      }
      assert told == peers.Keys - {skip};
      EverybodyTold(peers, skip, event);
    }

    method Join(c: ClientId, k: RoomKey, name: string) returns (r: Result<JoinResult, HubError>)
      requires Valid()
      modifies this
      ensures Valid()
      ensures var before := old(Abs());
        var peers := Members(before.rooms, k);
        if c in peers || |peers| < 64
        then Abs() == JoinBoard(before, c, k, name)
          && r == Success(JoinResult(Others(peers, c), LogAt(store.logs, k).Head(), LogAt(store.logs, k).saved))
        else Abs() == before && r == Failure(RoomFull)
    {
      ghost var before := Abs();
      var peers := if k in rooms then rooms[k] else map[];
      var first := c !in peers;
      if first && |peers| >= MAX_ROOM_MEMBERS {
        return Failure(RoomFull);
      }
      var info := PeerInfo(name, if first then None else peers[c].selection);
      rooms := rooms[k := peers[c := info]];
      byClient := byClient[c := KeysOf(byClient, c) + {k}];
      if first {
        SendTo(peers, c, PeerJoined(k, c, info));
      }
      JoinConsistent(before, c, k, name);
      var state := store.LogState(false, k);
      return Success(JoinResult(Others(peers, c), state.value.0, state.value.1));
    }

    /** Out of the tables, with the log forgotten when nobody is left; the sends are the caller's. */
    method RemovePeer(c: ClientId, k: RoomKey) returns (rest: Peers)
      requires store.Valid() && k in rooms && c in rooms[k]
      modifies this`rooms, this`byClient, store
      ensures store.Valid()
      ensures rest == Others(old(rooms)[k], c)
      ensures rooms == RoomsLeft(old(rooms), c, {k}) && byClient == IndexLeft(old(byClient), c, {k})
      ensures LogsAfter(old(rooms), old(store.logs), store.logs, c, {k})
    {
      rest := Others(rooms[k], c);
      EmptiesIsNoOthers(rooms[k], c);
      var keys := KeysOf(byClient, c) - {k};
      byClient := if keys == {} then byClient - {c} else byClient[c := keys];
      if rest == map[] {
        rooms := rooms - {k};
        var _ := store.Forget(false, k);
      } else {
        rooms := rooms[k := rest];
      }
    }

    method Leave(c: ClientId, k: RoomKey)
      requires Valid()
      modifies this, store
      ensures Valid()
      ensures Abs() == LeaveSet(old(Abs()), c, {k})
      ensures LogsAfter(old(rooms), old(store.logs), store.logs, c, {k})
    {
      ghost var before := Abs();
      if k !in rooms || c !in rooms[k] {
        LeaveAbsent(before, c, k);
        return;
      }
      var rest := RemovePeer(c, k);
      SendTo(rest, c, PeerLeft(k, c));
      assert Copies(rest, c, PeerLeft(k, c)) == Notices(before.rooms, c, {k});
      LeaveConsistent(before, c, {k});
    }

    method LeaveAll(c: ClientId)
      requires Valid()
      modifies this, store
      ensures Valid()
      ensures Abs() == LeaveSet(old(Abs()), c, KeysOf(old(byClient), c))
      ensures LogsAfter(old(rooms), old(store.logs), store.logs, c, KeysOf(old(byClient), c))
    {
      ghost var before := Abs();
      var keys := KeysOf(byClient, c);
      var pending := CollectRooms(c, keys);
      NotifyRooms(c, pending, before.rooms);
      LeaveConsistent(before, c, keys);
    }

    /** Every room of the client is emptied of it before anybody is notified. */
    method CollectRooms(c: ClientId, keys: set<RoomKey>) returns (pending: map<RoomKey, Peers>)
      requires store.Valid() && (c in byClient ==> byClient[c] != {})
      requires forall k :: k in keys ==> k in rooms && c in rooms[k]
      modifies this`rooms, this`byClient, store
      ensures store.Valid()
      ensures Collected(old(rooms), old(byClient), rooms, byClient, pending, c, keys)
      ensures LogsAfter(old(rooms), old(store.logs), store.logs, c, keys)
    {
      hide Others;
      pending := map[];
      var todo := keys;
      ghost var done := {};
      LeaveNone(rooms, byClient, c);
      while todo != {}
        invariant store.Valid()
        invariant todo !! done && todo + done == keys
        invariant Collected(old(rooms), old(byClient), rooms, byClient, pending, c, done)
        invariant LogsAfter(old(rooms), old(store.logs), store.logs, c, done)
      {
        var k :| k in todo;
        ghost var rooms1, logs1, byClient1, pending1 := rooms, store.logs, byClient, pending;
        StillThere(old(rooms), rooms, c, done, k);
        var rest := RemovePeer(c, k);
        pending := pending[k := rest];
        CollectOneMore(old(rooms), old(byClient), rooms1, byClient1, pending1, c, done, k);
        LogsOneMore(old(rooms), rooms1, old(store.logs), logs1, store.logs, c, done, k);
        todo, done := todo - {k}, done + {k};
      }
      assert done == keys;
    }

    method NotifyRooms(c: ClientId, pending: map<RoomKey, Peers>, ghost before: map<RoomKey, Peers>)
      requires forall k :: k in pending ==> k in before && c in before[k] && pending[k] == Others(before[k], c)
      modifies this`sent
      ensures multiset(sent) == old(multiset(sent)) + multiset(Notices(before, c, pending.Keys))
    {
      hide Copies, Notices, Others;
      ghost var first, notices := multiset(sent), multiset{};
      ghost var told := {};
      var todo := pending.Keys;
      NoNotices(before, c);
      while todo != {}
        invariant todo !! told && todo + told == pending.Keys
        invariant notices == multiset(Notices(before, c, told))
        invariant multiset(sent) == first + notices
      {
        var k :| k in todo;
        ghost var copies := multiset(Copies(pending[k], c, PeerLeft(k, c)));
        ghost var sent1 := multiset(sent);
        SendTo(pending[k], c, PeerLeft(k, c));
        OneMoreRoom(before, c, told, k);
        SumMoves(first, notices, copies, sent1, multiset(sent));
        notices := notices + copies;
        todo, told := todo - {k}, told + {k};
      }
      assert told == pending.Keys;
    }

    method Presence(c: ClientId, k: RoomKey, selection: Selection) returns (err: Option<HubError>)
      requires Valid()
      modifies this
      ensures Valid()
      ensures if c in Members(old(rooms), k)
        then err == None && Abs() == PresenceBoard(old(Abs()), c, k, selection)
        else err == Some(NotInRoom) && Abs() == old(Abs())
    {
      if k !in rooms || c !in rooms[k] {
        return Some(NotInRoom);
      }
      ghost var before := Abs();
      var peers := rooms[k];
      rooms := rooms[k := peers[c := peers[c].(selection := Some(selection))]];
      SendTo(peers, c, HubMachine.Presence(k, c, selection));
      PresenceConsistent(before, c, k, selection);
      return None;
    }

    /** The order of the source: membership, then the compare-and-swap, then the fan-out. */
    method Submit(cancelled: bool, c: ClientId, k: RoomKey, ops: Ops, baseSeq: int) returns (r: Result<int, HubError>)
      requires Valid()
      modifies this, store
      ensures Valid()
      ensures rooms == old(rooms) && byClient == old(byClient)
      ensures var log := LogAt(old(store.logs), k);
        var entry := Entry(k, log.Head() + 1, c, ops);
        if c !in Members(old(rooms), k) then
          r == Failure(NotInRoom) && store.logs == old(store.logs) && sent == old(sent)
        else if cancelled then
          r == Failure(Rejected(Cancelled)) && store.logs == old(store.logs) && sent == old(sent)
        else if baseSeq != log.Head() then
          r == Failure(Rejected(StaleBase(log.Head()))) && Updates(old(store.logs), store.logs, k, log) && sent == old(sent)
        else
          && r == Success(entry.num)
          && Updates(old(store.logs), store.logs, k, Appended(log, c, ops))
          && multiset(sent) == old(multiset(sent)) + multiset(Copies(rooms[k], c, Committed(entry)))
    {
      hide Copies, Others, Appended;
      if k !in rooms || c !in rooms[k] {
        return Failure(NotInRoom);
      }
      var answer := store.Append(cancelled, k, c, ops, baseSeq);
      if answer.Failure? {
        return Failure(Rejected(answer.error));
      }
      SendTo(rooms[k], c, Committed(Entry(k, answer.value, c, ops)));
      return Success(answer.value);
    }
  }
}
