/**
 The collaboration hub as a transition system.  Each thread runs one hub call;
 a step is one stretch of code up to the next lock acquisition, store call or
 send, so that every interleaving of those points is a run.  The hub lock and
 the room locks are part of the state, a dead room object stays distinct from
 its successor under the same key, and every client has an append-only log of
 what it was sent and what its own calls returned.
 */
module HubMachine {
  import opened Prelude
  import opened OpLog

  type Tid = nat
  type RoomId = nat
  type Selection = string  // opaque, already validated JSON

  const MAX_ROOM_MEMBERS := 64

  datatype PeerInfo = PeerInfo(name: string, selection: Option<Selection>)

  type Peers = map<ClientId, PeerInfo>

  datatype Event =
    | PeerJoined(room: RoomKey, client: ClientId, info: PeerInfo)
    | PeerLeft(room: RoomKey, client: ClientId)
    | Presence(room: RoomKey, client: ClientId, selection: Selection)
    | Committed(entry: Entry)
    | FileChanged(room: RoomKey, savedSeq: nat)

  function RoomOf(event: Event): RoomKey {
    match event
    case Committed(entry) => entry.room
    case _ => event.room
  }

  /** One line of a client's log; `first` and `epoch` are bookkeeping of the model. */
  datatype Obs =
    | Pushed(event: Event)
    | JoinReturned(room: RoomKey, first: bool, peers: Peers, epoch: nat, log: Log)
    | SubmitReturned(entry: Entry)

  // ------------------------------------------------------------------ threads

  datatype StoreOp = MarkSavedOp(n: int) | ResetOp | ForgetOp

  /** The calls that pin an existing room before they do anything. */
  datatype PinOp =
    | SetPresence(client: ClientId, room: RoomKey, selection: Selection)
    | SubmitOps(client: ClientId, room: RoomKey, ops: Ops, base: int)
    | CatchUp(client: ClientId, room: RoomKey)
    | ListPeers(room: RoomKey)
    | Notify(room: RoomKey, origin: ClientId, savedSeq: nat)
    | WithStore(room: RoomKey, op: StoreOp)

  datatype Request =
    | Join(client: ClientId, room: RoomKey, name: string)
    | Leave(client: ClientId, room: RoomKey)
    | LeaveAll(client: ClientId)
    | Pin(op: PinOp)

  datatype Reply =
    | NoReply
    | JoinReply(client: ClientId, first: bool, peers: Peers)
    | SubmitReply(entry: Entry)

  /** A locked room with the event its holder still has to send, and to whom. */
  datatype Hold = Hold(room: RoomKey, rid: RoomId, event: Option<Event>, remaining: set<ClientId>, reply: Reply)

  datatype Pc =
    | Idle
    | Waiting(req: Request)                                            // wants the hub lock
    | JoinLocked(client: ClientId, room: RoomKey, name: string, rid: RoomId)  // hub lock; wants the room
    | LeaveLocked(client: ClientId, room: RoomKey, rid: RoomId)        // hub lock; wants the room
    | PinLocked(op: PinOp, rid: RoomId)                                // hub lock; wants the room
    | Pinned(op: PinOp, rid: RoomId)                                   // room lock
    | Sweeping(client: ClientId, todo: set<RoomKey>, held: seq<Hold>)  // hub lock and all held rooms
    | Sending(held: seq<Hold>)                                         // all held rooms
    | FileReading(room: RoomKey, origin: ClientId)                     // no lock
    | Unpinned(room: RoomKey, storeOp: StoreOp)                          // no lock: the room did not exist

  // -------------------------------------------------------------------- state

  datatype Room = Room(key: RoomKey, lock: Option<Tid>, peers: Peers)

  /** A store slot: the log of the current incarnation and how many came before. */
  datatype Slot = Slot(epoch: nat, log: Log)

  datatype State = State(
    hub: Option<Tid>,
    index: map<RoomKey, RoomId>,
    rooms: map<RoomId, Room>,
    nextRoom: RoomId,
    byClient: map<ClientId, set<RoomKey>>,
    store: map<RoomKey, Slot>,
    pcs: map<Tid, Pc>,
    obs: map<ClientId, seq<Obs>>)

  const Init := State(None, map[], map[], 0, map[], map[], map[], map[])

  function PcAt(pcs: map<Tid, Pc>, t: Tid): Pc {
    if t in pcs then pcs[t] else Idle
  }

  function ObsAt(obs: map<ClientId, seq<Obs>>, c: ClientId): seq<Obs> {
    if c in obs then obs[c] else []
  }

  function SlotAt(store: map<RoomKey, Slot>, k: RoomKey): Slot {
    if k in store then store[k] else Slot(0, EmptyLog)
  }

  function KeysOf(byClient: map<ClientId, set<RoomKey>>, c: ClientId): set<RoomKey> {
    if c in byClient then byClient[c] else {}
  }

  function Others(peers: Peers, c: ClientId): Peers {
    map d | d in peers && d != c :: peers[d]
  }

  function Observe(obs: map<ClientId, seq<Obs>>, c: ClientId, o: Obs): map<ClientId, seq<Obs>> {
    obs[c := ObsAt(obs, c) + [o]]
  }

  function RunStore(slot: Slot, op: StoreOp): Slot {
    match op
    case MarkSavedOp(n) => slot.(log := Marked(slot.log, n))
    case ResetOp => slot.(log := Cleared(slot.log))
    case ForgetOp => Slot(slot.epoch + 1, EmptyLog)
  }

  // -------------------------------------------------------------------- steps

  /** A notification is not a call of its own: a file change reads the watermark first. */
  datatype Action = Start(req: Request) | StartFile(room: RoomKey, origin: ClientId)
                  | Advance | Send(to: ClientId) | Sweep(room: RoomKey) | Cancel

  predicate Free(s: State, rid: RoomId) {
    rid in s.rooms && s.rooms[rid].lock.None?
  }

  predicate Enabled(s: State, t: Tid, a: Action) {
    var pc := PcAt(s.pcs, t);
    match a
    case Start(req) => pc.Idle? && (req.Join? || req.LeaveAll? ==> req.client != "") && !(req.Pin? && req.op.Notify?)
    case StartFile(_, _) => pc.Idle?
    case Advance =>
      (match pc
       case Idle => false
       case Waiting(_) => s.hub.None?
       case JoinLocked(_, _, _, rid) => Free(s, rid)
       case LeaveLocked(_, _, rid) => Free(s, rid)
       case PinLocked(_, rid) => Free(s, rid)
       case Pinned(_, rid) => rid in s.rooms
       case Sweeping(_, todo, _) => todo == {}
       case Sending(held) => held != [] && held[0].remaining == {} && held[0].rid in s.rooms
       case FileReading(_, _) => true
       case Unpinned(_, _) => true)
    case Send(c) =>
      pc.Sending? && pc.held != [] && c in pc.held[0].remaining && pc.held[0].event.Some?
    case Sweep(k) => pc.Sweeping? && k in pc.todo && (k in s.index ==> Free(s, s.index[k]))
    case Cancel => pc.Pinned? && pc.op.SubmitOps? && pc.rid in s.rooms
  }

  function Goto(s: State, t: Tid, pc: Pc): State {
    s.(pcs := s.pcs[t := pc])
  }

  function Unlock(s: State, t: Tid, rid: RoomId): State
    requires rid in s.rooms
  {
    s.(rooms := s.rooms[rid := s.rooms[rid].(lock := None)], pcs := s.pcs[t := Idle])
  }

  /** The first stretch of a call, under the hub lock. */
  function AcquireHub(s: State, t: Tid, req: Request): State {
    match req
    case Join(c, k, name) =>
      if k in s.index then
        s.(hub := Some(t), pcs := s.pcs[t := JoinLocked(c, k, name, s.index[k])])
      else
        s.(hub := Some(t), index := s.index[k := s.nextRoom],
           rooms := s.rooms[s.nextRoom := Room(k, None, map[])], nextRoom := s.nextRoom + 1,
           pcs := s.pcs[t := JoinLocked(c, k, name, s.nextRoom)])
    case Leave(c, k) =>
      if k in s.index then s.(hub := Some(t), pcs := s.pcs[t := LeaveLocked(c, k, s.index[k])])
      else Goto(s, t, Idle)
    case LeaveAll(c) =>
      s.(hub := Some(t), pcs := s.pcs[t := Sweeping(c, KeysOf(s.byClient, c), [])])
    case Pin(op) =>
      if op.room in s.index then s.(hub := Some(t), pcs := s.pcs[t := PinLocked(op, s.index[op.room])])
      else if op.WithStore? then Goto(s, t, Unpinned(op.room, op.op))
      else Goto(s, t, Idle)
  }

  /** Join, from taking the room lock to releasing the hub lock. */
  function JoinRoom(s: State, t: Tid, c: ClientId, k: RoomKey, name: string, rid: RoomId): State
    requires rid in s.rooms
  {
    var peers := s.rooms[rid].peers;
    if c !in peers && |peers| >= MAX_ROOM_MEMBERS then
      s.(hub := None, pcs := s.pcs[t := Idle])
    else
      var info := PeerInfo(name, if c in peers then peers[c].selection else None);
      var hold := if c in peers
        then Hold(k, rid, None, {}, JoinReply(c, false, Others(peers, c)))
        else Hold(k, rid, Some(PeerJoined(k, c, info)), peers.Keys, JoinReply(c, true, peers));
      s.(hub := None,
         rooms := s.rooms[rid := Room(s.rooms[rid].key, Some(t), peers[c := info])],
         byClient := s.byClient[c := KeysOf(s.byClient, c) + {k}],
         pcs := s.pcs[t := Sending([hold])])
  }

  /** removePeer, with the store's Forget when the room empties, leaving the room locked by t. */
  function RemovePeer(s: State, t: Tid, rid: RoomId, c: ClientId): State
    requires rid in s.rooms
  {
    var room := s.rooms[rid];
    var peers := Others(room.peers, c);
    var keys := KeysOf(s.byClient, c) - {room.key};
    s.(rooms := s.rooms[rid := Room(room.key, Some(t), peers)],
       byClient := if keys == {} then s.byClient - {c} else s.byClient[c := keys],
       index := if peers == map[] then s.index - {room.key} else s.index,
       store := if peers == map[] then s.store[room.key := RunStore(SlotAt(s.store, room.key), ForgetOp)]
                else s.store)
  }

  function LeftHold(s: State, rid: RoomId, c: ClientId): Hold
    requires rid in s.rooms
  {
    var room := s.rooms[rid];
    Hold(room.key, rid, Some(PeerLeft(room.key, c)), Others(room.peers, c).Keys, NoReply)
  }

  function LeaveRoom(s: State, t: Tid, c: ClientId, rid: RoomId): State
    requires rid in s.rooms
  {
    if c in s.rooms[rid].peers then
      RemovePeer(s, t, rid, c).(hub := None, pcs := s.pcs[t := Sending([LeftHold(s, rid, c)])])
    else
      s.(hub := None, pcs := s.pcs[t := Idle])
  }

  function SweepRoom(s: State, t: Tid, c: ClientId, todo: set<RoomKey>, held: seq<Hold>, k: RoomKey): State
    requires k in s.index ==> s.index[k] in s.rooms
  {
    if k in s.index && c in s.rooms[s.index[k]].peers then
      var rid := s.index[k];
      RemovePeer(s, t, rid, c).(pcs := s.pcs[t := Sweeping(c, todo - {k}, held + [LeftHold(s, rid, c)])])
    else
      Goto(s, t, Sweeping(c, todo - {k}, held))
  }

  /** pinRoom, from taking the room lock to releasing the hub lock. */
  function PinRoom(s: State, t: Tid, op: PinOp, rid: RoomId): State
    requires rid in s.rooms
  {
    s.(hub := None, rooms := s.rooms[rid := s.rooms[rid].(lock := Some(t))], pcs := s.pcs[t := Pinned(op, rid)])
  }

  /** What a pinned call does before its sends. */
  function RunPinned(s: State, t: Tid, op: PinOp, rid: RoomId): State
    requires rid in s.rooms
  {
    var room := s.rooms[rid];
    match op
    case SetPresence(c, k, sel) =>
      if c in room.peers then
        s.(rooms := s.rooms[rid := room.(peers := room.peers[c := room.peers[c].(selection := Some(sel))])],
           pcs := s.pcs[t := Sending([Hold(k, rid, Some(Presence(k, c, sel)), room.peers.Keys - {c}, NoReply)])])
      else Unlock(s, t, rid)
    case SubmitOps(c, k, ops, base) =>
      var slot := SlotAt(s.store, k);
      if c in room.peers && base == slot.log.Head() then
        var entry := Entry(k, slot.log.Head() + 1, c, ops);
        s.(store := s.store[k := slot.(log := Appended(slot.log, c, ops))],
           pcs := s.pcs[t := Sending([Hold(k, rid, Some(Committed(entry)), room.peers.Keys - {c}, SubmitReply(entry))])])
      else Unlock(s, t, rid)
    case Notify(k, origin, saved) =>
      Goto(s, t, Sending([Hold(k, rid, Some(FileChanged(k, saved)), room.peers.Keys - {origin}, NoReply)]))
    case WithStore(k, op) =>
      Unlock(s, t, rid).(store := s.store[k := RunStore(SlotAt(s.store, k), op)])
    case CatchUp(_, _) => Unlock(s, t, rid)
    case ListPeers(_) => Unlock(s, t, rid)
  }

  function SendTo(s: State, t: Tid, held: seq<Hold>, c: ClientId): State
    requires held != [] && held[0].event.Some?
  {
    var hold := held[0];
    s.(obs := Observe(s.obs, c, Pushed(hold.event.value)),
       pcs := s.pcs[t := Sending([hold.(remaining := hold.remaining - {c})] + held[1..])])
  }

  /** The call's answer to its own client; Join reads the log position here. */
  function ReplyObs(s: State, hold: Hold): map<ClientId, seq<Obs>> {
    match hold.reply
    case NoReply => s.obs
    case JoinReply(c, first, peers) =>
      var slot := SlotAt(s.store, hold.room);
      Observe(s.obs, c, JoinReturned(hold.room, first, peers, slot.epoch, slot.log))
    case SubmitReply(entry) => Observe(s.obs, entry.client, SubmitReturned(entry))
  }

  function FinishRoom(s: State, t: Tid, held: seq<Hold>): State
    requires held != [] && held[0].rid in s.rooms
  {
    var hold := held[0];
    s.(obs := ReplyObs(s, hold),
       rooms := s.rooms[hold.rid := s.rooms[hold.rid].(lock := None)],
       pcs := s.pcs[t := if |held| == 1 then Idle else Sending(held[1..])])
  }

  function AdvanceStep(s: State, t: Tid): State
    requires Enabled(s, t, Advance)
  {
    match PcAt(s.pcs, t)
    case Waiting(req) => AcquireHub(s, t, req)
    case JoinLocked(c, k, name, rid) => JoinRoom(s, t, c, k, name, rid)
    case LeaveLocked(c, k, rid) => LeaveRoom(s, t, c, rid)
    case PinLocked(op, rid) => PinRoom(s, t, op, rid)
    case Pinned(op, rid) => RunPinned(s, t, op, rid)
    case Sweeping(c, todo, held) =>
      s.(hub := None, pcs := s.pcs[t := if held == [] then Idle else Sending(held)])
    case Sending(held) => FinishRoom(s, t, held)
    case FileReading(k, origin) =>
      Goto(s, t, Waiting(Pin(Notify(k, origin, SlotAt(s.store, k).log.saved))))
    case Unpinned(k, op) =>
      s.(store := s.store[k := RunStore(SlotAt(s.store, k), op)], pcs := s.pcs[t := Idle])
  }

  function Do(s: State, t: Tid, a: Action): State
    requires Enabled(s, t, a)
  {
    match a
    case Start(req) => Goto(s, t, Waiting(req))
    case StartFile(k, origin) => Goto(s, t, FileReading(k, origin))
    case Advance => AdvanceStep(s, t)
    case Send(c) => SendTo(s, t, PcAt(s.pcs, t).held, c)
    case Sweep(k) =>
      var pc := PcAt(s.pcs, t);
      SweepRoom(s, t, pc.client, pc.todo, pc.held, k)
    case Cancel => Unlock(s, t, PcAt(s.pcs, t).rid)
  }

  datatype Move = Move(t: Tid, a: Action)

  /** The state after a schedule, or None when some move was not enabled. */
  function Exec(moves: seq<Move>): Option<State> {
    if moves == [] then Some(Init)
    else
      var before := Exec(moves[..|moves| - 1]);
      var last := moves[|moves| - 1];
      if before.Some? && Enabled(before.value, last.t, last.a)
      then Some(Do(before.value, last.t, last.a))
      else None
  }
}
