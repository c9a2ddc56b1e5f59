/** Every call is carried out. */
module HubCarried {
  import opened Prelude
  import opened OpLog
  import opened HubMachine
  import opened HubInvariant
  import HubCalls
  import HubTheorems

  /** The thread is in this call and has not come to its room yet, or is still taking the client out of rooms. */
  predicate UnderWay(pc: Pc, req: Request) {
    pc == Waiting(req) ||
    match req
    case Join(c, k, name) => pc.JoinLocked? && pc.client == c && pc.room == k && pc.name == name
    case Leave(c, k) => pc.LeaveLocked? && pc.client == c && pc.room == k
    case LeaveAll(c) => pc.Sweeping? && pc.client == c
    case Pin(op) =>
      (pc.PinLocked? && pc.op == op) || (pc.Pinned? && pc.op == op) || (op.WithStore? && pc == Unpinned(op.room, op.op))
  }

  predicate Shows(s: State, c: ClientId, k: RoomKey, info: PeerInfo) {
    Member(s, c, k) && s.rooms[s.index[k]].peers[c] == info
  }

  function MembersOf(s: State, k: RoomKey): Peers {
    if k in s.index && s.index[k] in s.rooms then s.rooms[s.index[k]].peers else map[]
  }

  function LogOf(s: State, k: RoomKey): Log {
    SlotAt(s.store, k).log
  }

  predicate Owes(pc: Pc, d: ClientId, event: Event) {
    pc.Sending? && pc.held != [] && d in pc.held[0].remaining && pc.held[0].event == Some(event)
  }

  /** What one step of thread t has done for the call. */
  ghost predicate Carried(s: State, s': State, t: Tid, req: Request) {
    match req
    case Join(c, k, name) =>
      var before := MembersOf(s, k);
      if c in before then Shows(s', c, k, PeerInfo(name, before[c].selection))
      else if |before| < 64 then
        Shows(s', c, k, PeerInfo(name, None)) && forall d :: d in before ==> Owes(PcAt(s'.pcs, t), d, PeerJoined(k, c, PeerInfo(name, None)))
      else s'.rooms == s.rooms
    case Leave(c, k) =>
      && !Member(s', c, k)
      && (Member(s, c, k) ==> forall d :: d in MembersOf(s, k) && d != c ==> Owes(PcAt(s'.pcs, t), d, PeerLeft(k, c)))
    case LeaveAll(c) => forall k :: !Member(s', c, k)
    case Pin(op) =>
      match op
      case SetPresence(c, k, sel) =>
        Member(s, c, k) ==>
          && Shows(s', c, k, PeerInfo(MembersOf(s, k)[c].name, Some(sel)))
          && forall d :: d in MembersOf(s, k) && d != c ==> Owes(PcAt(s'.pcs, t), d, Presence(k, c, sel))
      case SubmitOps(c, k, ops, base) =>
        Member(s, c, k) ==>
          if base == LogOf(s, k).Head() then
            && LogOf(s', k) == Appended(LogOf(s, k), c, ops)
            && forall d :: d in MembersOf(s, k) && d != c ==> Owes(PcAt(s'.pcs, t), d, Committed(Entry(k, base + 1, c, ops)))
          else LogOf(s', k) == LogOf(s, k)
      case WithStore(k, MarkSavedOp(n)) => LogOf(s', k) == Marked(LogOf(s, k), n)
      case WithStore(k, ResetOp) => LogOf(s', k) == Cleared(LogOf(s, k))
      case WithStore(k, ForgetOp) => LogOf(s', k) == EmptyLog
      case Notify(k, origin, saved) =>
        forall d :: d in MembersOf(s, k) && d != origin ==> Owes(PcAt(s'.pcs, t), d, FileChanged(k, saved))
      case _ => true
  }

  lemma Starts(s: State, t: Tid, req: Request)
    requires req.LeaveAll? || req.Join? || (req.Pin? && (req.op.room in s.index || req.op.WithStore?)) || (req.Leave? && req.room in s.index)
    ensures UnderWay(PcAt(AcquireHub(s, t, req).pcs, t), req)
  {
    hide KeysOf;
    match req
    case Join(_, _, _) =>
    case Leave(_, _) =>
    case LeaveAll(_) =>
    case Pin(_) =>
  }

  /** A room that does not exist has no members and is told nothing. */
  lemma Nowhere(s: State, t: Tid, req: Request)
    requires match req
      case Leave(_, k) => k !in s.index
      case Pin(op) => op.room !in s.index && !op.WithStore?
      case _ => false
    ensures Carried(s, AcquireHub(s, t, req), t, req)
  {
    hide Owes;
  }

  predicate Named(s: State, k: RoomKey, rid: RoomId) {
    Names(s.index, k, rid) && rid in s.rooms && s.rooms[rid].key == k
  }

  lemma PcNamed(s: State, t: Tid)
    requires Inv(s)
    ensures match PcAt(s.pcs, t)
      case JoinLocked(_, k, _, rid) => Named(s, k, rid)
      case LeaveLocked(_, k, rid) => Named(s, k, rid)
      case Pinned(op, rid) => Named(s, op.room, rid)
      case Sweeping(c, todo, _) => todo == KeysOf(s.byClient, c)
      case _ => true
  {
    hide Locks, Knowledge, NoEcho, Mirrors, KeysOf, HoldsOk, Live;
    assert PcOk(PcAt(s.pcs, t), s.index, s.rooms, s.byClient);
  }

  lemma Joins(s: State, t: Tid, c: ClientId, k: RoomKey, name: string, rid: RoomId)
    requires Named(s, k, rid)
    ensures Carried(s, JoinRoom(s, t, c, k, name, rid), t, Join(c, k, name))
  {
    hide KeysOf, Others;
  }

  lemma Leaves(s: State, t: Tid, c: ClientId, k: RoomKey, rid: RoomId)
    requires Named(s, k, rid)
    ensures Carried(s, LeaveRoom(s, t, c, rid), t, Leave(c, k))
  {
    hide KeysOf, RunStore;
  }

  lemma ShowsSelection(s: State, t: Tid, c: ClientId, k: RoomKey, sel: Selection, rid: RoomId)
    requires Named(s, k, rid)
    ensures Carried(s, RunPinned(s, t, SetPresence(c, k, sel), rid), t, Pin(SetPresence(c, k, sel)))
  {
  }

  lemma Submits(s: State, t: Tid, c: ClientId, k: RoomKey, ops: Ops, base: int, rid: RoomId)
    requires Named(s, k, rid)
    ensures Carried(s, RunPinned(s, t, SubmitOps(c, k, ops, base), rid), t, Pin(SubmitOps(c, k, ops, base)))
  {
    hide Appended;
  }

  lemma Notifies(s: State, t: Tid, k: RoomKey, origin: ClientId, saved: nat, rid: RoomId)
    requires Named(s, k, rid)
    ensures Carried(s, RunPinned(s, t, Notify(k, origin, saved), rid), t, Pin(Notify(k, origin, saved)))
  {
  }

  lemma Stores(s: State, s': State, t: Tid, k: RoomKey, op: StoreOp)
    requires s'.store == s.store[k := RunStore(SlotAt(s.store, k), op)]
    ensures Carried(s, s', t, Pin(WithStore(k, op)))
  {
    hide Marked, Cleared, Owes;
  }

  lemma AtRoom(s: State, t: Tid, op: PinOp, rid: RoomId)
    requires Named(s, op.room, rid)
    ensures Carried(s, RunPinned(s, t, op, rid), t, Pin(op))
  {
    hide Carried, Appended, RunStore;
    match op
    case SetPresence(c, k, sel) => ShowsSelection(s, t, c, k, sel, rid);
    case SubmitOps(c, k, ops, base) => Submits(s, t, c, k, ops, base, rid);
    case Notify(k, origin, saved) => Notifies(s, t, k, origin, saved, rid);
    case WithStore(k, storeOp) => Stores(s, RunPinned(s, t, op, rid), t, k, storeOp);
    case _ => ReadsOnly(s, RunPinned(s, t, op, rid), t, op);
  }

  lemma ReadsOnly(s: State, s': State, t: Tid, op: PinOp)
    requires op.CatchUp? || op.ListPeers?
    ensures Carried(s, s', t, Pin(op))
  {
  }

  lemma Swept(s: State, s': State, t: Tid, c: ClientId)
    requires Inv(s) && KeysOf(s.byClient, c) == {} && s'.index == s.index && s'.rooms == s.rooms
    ensures Carried(s, s', t, LeaveAll(c))
  {
    hide Locks, Knowledge, NoEcho, Threads, HubInvariant.Tables;
    forall k ensures !Member(s', c, k) {
      assert k in KeysOf(s.byClient, c) <==> Member(s, c, k);
    }
  }

  /** A step of a call that is not cancelled leaves it under way or carries it out. */
  lemma StepCarries(s: State, t: Tid, a: Action, req: Request)
    requires Inv(s) && Enabled(s, t, a) && !a.Cancel? && UnderWay(PcAt(s.pcs, t), req)
    ensures UnderWay(PcAt(Do(s, t, a).pcs, t), req) || Carried(s, Do(s, t, a), t, req)
  {
    hide Inv, Carried, AcquireHub, JoinRoom, LeaveRoom, RunPinned, RunStore;
    var pc := PcAt(s.pcs, t);
    PcNamed(s, t);
    match pc
    case Waiting(_) => Begins(s, t, req);
    case JoinLocked(c, k, name, rid) => Joins(s, t, c, k, name, rid);
    case LeaveLocked(c, k, rid) => Leaves(s, t, c, k, rid);
    case PinLocked(_, _) =>
    case Pinned(op, rid) => AtRoom(s, t, op, rid);
    case Unpinned(k, op) => Stores(s, Do(s, t, a), t, k, op);
    case Sweeping(_, _, _) => if a.Advance? { Swept(s, Do(s, t, a), t, pc.client); }
  }

  lemma Begins(s: State, t: Tid, req: Request)
    ensures UnderWay(PcAt(AcquireHub(s, t, req).pcs, t), req) || Carried(s, AcquireHub(s, t, req), t, req)
  {
    hide UnderWay, Carried, AcquireHub;
    if req.LeaveAll? || req.Join? || (req.Pin? && (req.op.room in s.index || req.op.WithStore?)) || (req.Leave? && req.room in s.index) {
      Starts(s, t, req);
    } else {
      Nowhere(s, t, req);
    }
  }

  /** Move j of the run is made for the call of thread t and carries it out, or cancels it. */
  ghost predicate CarriedAt(moves: seq<Move>, j: nat, t: Tid, req: Request)
    requires j < |moves|
  {
    && moves[j].t == t && Exec(moves[..j]).Some? && Exec(moves[..j + 1]).Some?
    && (moves[j].a.Cancel? || Carried(Exec(moves[..j]).value, Exec(moves[..j + 1]).value, t, req))
  }

  lemma OneMore(moves: seq<Move>)
    requires moves != [] && Exec(moves).Some?
    ensures var front, m := moves[..|moves| - 1], moves[|moves| - 1];
      Exec(front).Some? && Enabled(Exec(front).value, m.t, m.a) && Exec(moves).value == Do(Exec(front).value, m.t, m.a)
  {
  }

  lemma OthersStay(s: State, t: Tid, a: Action, u: Tid)
    requires Enabled(s, t, a) && u != t
    ensures PcAt(Do(s, t, a).pcs, u) == PcAt(s.pcs, u)
  {
    hide AdvanceStep, SweepRoom, SendTo;
    if a.Start? || a.StartFile? {
    } else {
      HubTheorems.CallsProgress(s, t, a, u);
    }
  }

  /** A call is under way when it is started; a file change, once the watermark has been read. */
  lemma CallBegins(s: State, t: Tid, a: Action)
    requires Enabled(s, t, a) && (a.Start? || (a.Advance? && PcAt(s.pcs, t).FileReading?))
    ensures var pc, s' := PcAt(s.pcs, t), Do(s, t, a);
      UnderWay(PcAt(s'.pcs, t), if a.Start? then a.req else Pin(Notify(pc.room, pc.origin, LogOf(s, pc.room).saved)))
  {
  }

  /** In every run: what was under way at some moment still is, or has been carried out since, or was a submission cancelled. */
  lemma {:induction false} CallsAreCarried(moves: seq<Move>, i: nat, t: Tid, req: Request)
    requires Exec(moves).Some? && i <= |moves|
    requires Exec(moves[..i]).Some? && UnderWay(PcAt(Exec(moves[..i]).value.pcs, t), req)
    ensures UnderWay(PcAt(Exec(moves).value.pcs, t), req) || exists j :: i <= j < |moves| && CarriedAt(moves, j, t, req)
    decreases |moves|
  {
    hide Inv, Carried, Do, Enabled, UnderWay;
    if i == |moves| {
      assert moves[..i] == moves;
    } else {
      var front, n := moves[..|moves| - 1], |moves| - 1;
      OneMore(moves);
      var s, m := Exec(front).value, moves[n];
      assert front[..i] == moves[..i] && moves[..n] == front && moves[..n + 1] == moves;
      CallsAreCarried(front, i, t, req);
      if j :| i <= j < |front| && CarriedAt(front, j, t, req) {
        assert front[..j] == moves[..j] && front[..j + 1] == moves[..j + 1];
        assert CarriedAt(moves, j, t, req);
      } else if m.t == t {
        HubCalls.RunKeeps(front);
        if !m.a.Cancel? { StepCarries(s, t, m.a, req); }
        assert UnderWay(PcAt(Exec(moves).value.pcs, t), req) || CarriedAt(moves, n, t, req);
      } else {
        OthersStay(s, m.t, m.a, t);
      }
    }
  }
}
