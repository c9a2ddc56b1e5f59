/** What every run of the hub keeps. */
module HubInvariant {
  import opened Prelude
  import opened OpLog
  import opened HubMachine

  // ----------------------------------------------------------------- sessions

  /**
   A client's session is what it can rebuild from its own log: the peers it
   believes are there, and the batches it has seen since it last joined.  The
   invariant says how far each session may lag behind the room while some
   thread is still sending.
   */
  datatype Session = Session(view: map<ClientId, Option<Selection>>, epoch: nat, from: nat, got: seq<Entry>)

  function Selections(peers: Peers): map<ClientId, Option<Selection>> {
    map c | c in peers :: peers[c].selection
  }

  /** How one line of a client's log changes what it knows about room k. */
  function See(sess: Option<Session>, o: Obs, k: RoomKey): Option<Session> {
    match o
    case JoinReturned(room, first, peers, epoch, log) =>
      if room != k then sess
      else if first || sess.None? then Some(Session(Selections(peers), epoch, log.Head(), []))
      else Some(sess.value.(view := Selections(peers)))
    case SubmitReturned(entry) => if entry.room != k then sess else Got(sess, entry)
    case Pushed(event) =>
      if RoomOf(event) != k || sess.None? then sess
      else match event
        case PeerJoined(_, c, info) => Some(sess.value.(view := sess.value.view[c := info.selection]))
        case PeerLeft(_, c) => Some(sess.value.(view := sess.value.view - {c}))
        case Presence(_, c, sel) => Some(sess.value.(view := sess.value.view[c := Some(sel)]))
        case Committed(entry) => Got(sess, entry)
        case FileChanged(_, _) => sess
  }

  function Got(sess: Option<Session>, entry: Entry): Option<Session> {
    if sess.None? then None else Some(sess.value.(got := sess.value.got + [entry]))
  }

  function SessionOf(log: seq<Obs>, k: RoomKey): Option<Session> {
    if log == [] then None else See(SessionOf(log[..|log| - 1], k), log[|log| - 1], k)
  }

  lemma SessionStep(log: seq<Obs>, o: Obs, k: RoomKey)
    ensures SessionOf(log + [o], k) == See(SessionOf(log, k), o, k)
  {
    assert (log + [o])[..|log|] == log;
  }

  // ------------------------------------------------------------ who holds what

  predicate HoldsHub(pc: Pc) {
    pc.JoinLocked? || pc.LeaveLocked? || pc.PinLocked? || pc.Sweeping?
  }

  function HoldsOf(pc: Pc): seq<Hold> {
    match pc
    case Sweeping(_, _, held) => held
    case Sending(held) => held
    case _ => []
  }

  function FindHold(held: seq<Hold>, rid: RoomId): Option<Hold> {
    if held == [] then None
    else if held[0].rid == rid then Some(held[0])
    else FindHold(held[1..], rid)
  }

  predicate HoldsRoom(pc: Pc, rid: RoomId) {
    (pc.Pinned? && pc.rid == rid) || FindHold(HoldsOf(pc), rid).Some?
  }

  function LockOf(rooms: map<RoomId, Room>, rid: RoomId): Option<Tid> {
    if rid in rooms then rooms[rid].lock else None
  }

  ghost predicate Locks(hub: Option<Tid>, rooms: map<RoomId, Room>, pcs: map<Tid, Pc>) {
    && (forall t: Tid :: hub == Some(t) <==> HoldsHub(PcAt(pcs, t)))
    && (forall t: Tid, rid: RoomId :: LockOf(rooms, rid) == Some(t) <==> HoldsRoom(PcAt(pcs, t), rid))
  }

  predicate Distinct(held: seq<Hold>) {
    forall i, j :: 0 <= i < j < |held| ==> held[i].rid != held[j].rid
  }

  lemma {:induction false} FindHoldIs(held: seq<Hold>, rid: RoomId)
    ensures FindHold(held, rid).Some? ==> FindHold(held, rid).value in held && FindHold(held, rid).value.rid == rid
    ensures FindHold(held, rid).None? <==> forall h :: h in held ==> h.rid != rid
  {
    if held == [] {
    } else {
      FindHoldIs(held[1..], rid);
      assert forall h :: h in held <==> h == held[0] || h in held[1..];
    }
  }

  lemma {:induction false} FindHoldAppend(held: seq<Hold>, h: Hold, rid: RoomId)
    ensures FindHold(held + [h], rid) ==
      if FindHold(held, rid).Some? then FindHold(held, rid) else if h.rid == rid then Some(h) else None
  {
    if held != [] {
      assert (held + [h])[1..] == held[1..] + [h];
      FindHoldAppend(held[1..], h, rid);
    } else {
      assert (held + [h])[1..] == [];
    }
  }

  lemma FindHoldHead(held: seq<Hold>, rid: RoomId)
    requires held != [] && Distinct(held)
    ensures FindHold(held[1..], rid) == if rid == held[0].rid then None else FindHold(held, rid)
  {
    FindHoldIs(held[1..], rid);
  }

  // -------------------------------------------------------------- room tables

  ghost predicate Tables(s: State) {
    && (forall k :: k in s.index ==> s.index[k] in s.rooms && s.rooms[s.index[k]].key == k)
    && (forall rid :: rid in s.rooms ==> rid < s.nextRoom)
    && (forall rid :: rid in s.rooms && s.rooms[rid].peers != map[] ==> Live(s, rid))
    && (forall rid :: rid in s.rooms ==> |s.rooms[rid].peers| <= MAX_ROOM_MEMBERS && "" !in s.rooms[rid].peers)
    && (forall k :: k in s.index && s.rooms[s.index[k]].peers == map[] ==> BeingCreated(s, s.index[k]))
  }

  /** The room object is the one that its key currently names. */
  predicate Live(s: State, rid: RoomId)
    requires rid in s.rooms
  {
    s.rooms[rid].key in s.index && s.index[s.rooms[rid].key] == rid
  }

  predicate BeingCreated(s: State, rid: RoomId) {
    s.hub.Some? && var pc := PcAt(s.pcs, s.hub.value); pc.JoinLocked? && pc.rid == rid
  }

  /** Client c is a member of the room that key k names. */
  predicate Member(s: State, c: ClientId, k: RoomKey) {
    k in s.index && s.index[k] in s.rooms && c in s.rooms[s.index[k]].peers
  }

  /** The client-to-rooms index mirrors the rooms and never keeps an empty set. */
  ghost predicate Mirrors(s: State) {
    && (forall c, k :: k in KeysOf(s.byClient, c) <==> Member(s, c, k))
    && (forall c :: c in s.byClient ==> s.byClient[c] != {})
  }

  // --------------------------------------------------------- thread well-formedness

  predicate HoldOk(h: Hold, room: Room) {
    && h.room == room.key
    && h.remaining <= room.peers.Keys
    && (h.remaining != {} ==> h.event.Some?)
    && (h.event.Some? ==> RoomOf(h.event.value) == h.room)
    && (h.event.Some? && h.event.value.Committed? ==> h.event.value.entry.client !in h.remaining)
    && (h.reply.JoinReply? ==> h.reply.client in room.peers && h.reply.client !in h.remaining)
    && (h.reply.SubmitReply? ==>
          && h.reply.entry.room == h.room
          && h.reply.entry.client in room.peers && h.reply.entry.client !in h.remaining)
  }

  ghost predicate HoldsOk(held: seq<Hold>, rooms: map<RoomId, Room>) {
    Distinct(held) && forall h :: h in held ==> h.rid in rooms && HoldOk(h, rooms[h.rid])
  }

  predicate Names(index: map<RoomKey, RoomId>, k: RoomKey, rid: RoomId) {
    k in index && index[k] == rid
  }

  ghost predicate PcOk(pc: Pc, index: map<RoomKey, RoomId>, rooms: map<RoomId, Room>, byClient: map<ClientId, set<RoomKey>>) {
    match pc
    case Waiting(req) => req.Join? || req.LeaveAll? ==> req.client != ""
    case JoinLocked(c, k, _, rid) => c != "" && Names(index, k, rid)
    case LeaveLocked(_, k, rid) => Names(index, k, rid)
    case PinLocked(op, rid) => Names(index, op.room, rid)
    case Pinned(op, rid) => Names(index, op.room, rid)
    case Sweeping(c, todo, held) =>
      && todo == KeysOf(byClient, c)
      && HoldsOk(held, rooms)
      && forall h :: h in held ==> h.rid in rooms && c !in rooms[h.rid].peers
    case Sending(held) => held != [] && HoldsOk(held, rooms)
    case _ => true
  }

  ghost predicate Threads(s: State) {
    forall t: Tid :: PcOk(PcAt(s.pcs, t), s.index, s.rooms, s.byClient)
  }

  // ------------------------------------------------------------ what peers know

  /** The session has the room's other peers, and within its incarnation every batch since it joined. */
  predicate Agrees(sess: Session, k: RoomKey, c: ClientId, peers: Peers, slot: Slot) {
    && sess.view == Selections(Others(peers, c))
    && sess.epoch <= slot.epoch
    && (sess.epoch == slot.epoch ==>
          sess.from <= slot.log.Head() && sess.got == OpsAfter(k, slot.log.hist, sess.from))
  }

  /** The session once the holder of the room has delivered what it still owes to c. */
  function Settled(hold: Option<Hold>, c: ClientId, k: RoomKey, sess: Option<Session>): Option<Session> {
    if hold.Some? && c in hold.value.remaining && hold.value.event.Some? then
      See(sess, Pushed(hold.value.event.value), k)
    else if hold.Some? && hold.value.reply.SubmitReply? && hold.value.reply.entry.client == c then
      See(sess, SubmitReturned(hold.value.reply.entry), k)
    else sess
  }

  predicate Joining(hold: Option<Hold>, c: ClientId) {
    hold.Some? && hold.value.reply.JoinReply? && hold.value.reply.client == c
  }

  predicate PeerOk(k: RoomKey, c: ClientId, peers: Peers, hold: Option<Hold>, slot: Slot, sess: Option<Session>) {
    && (Joining(hold, c) ==> hold.value.reply.peers == Others(peers, c))
    && (!(Joining(hold, c) && hold.value.reply.first) ==>
          var settled := Settled(hold, c, k, sess);
          settled.Some? && Agrees(settled.value, k, c, peers, slot))
  }

  function HoldOf(s: State, rid: RoomId): Option<Hold> {
    var lock := LockOf(s.rooms, rid);
    if lock.Some? then FindHold(HoldsOf(PcAt(s.pcs, lock.value)), rid) else None
  }

  predicate PeerKnows(s: State, rid: RoomId, c: ClientId)
    requires rid in s.rooms
  {
    var room := s.rooms[rid];
    PeerOk(room.key, c, room.peers, HoldOf(s, rid), SlotAt(s.store, room.key), SessionOf(ObsAt(s.obs, c), room.key))
  }

  ghost predicate Knowledge(s: State) {
    forall rid, c {:trigger PeerKnows(s, rid, c)} :: rid in s.rooms && c in s.rooms[rid].peers ==> PeerKnows(s, rid, c)
  }

  /** Nobody is ever sent its own batch, and only its author is told that a batch was accepted. */
  predicate Unechoed(c: ClientId, o: Obs) {
    && (o.Pushed? && o.event.Committed? ==> o.event.entry.client != c)
    && (o.SubmitReturned? ==> o.entry.client == c)
  }

  ghost predicate NoEcho(obs: map<ClientId, seq<Obs>>) {
    forall c, o :: o in ObsAt(obs, c) ==> Unechoed(c, o)
  }

  ghost predicate Inv(s: State) {
    && Locks(s.hub, s.rooms, s.pcs)
    && Tables(s)
    && Mirrors(s)
    && Threads(s)
    && Knowledge(s)
    && NoEcho(s.obs)
  }

  lemma InitInv()
    ensures Inv(Init)
  {
  }
}
