/** What the hub does to a room's log. */
module HubStore {
  import opened Prelude
  import opened OpLog
  import opened HubMachine

  /** What a move does to a log: one action of the log, or the end of its incarnation. */
  datatype Effect = Did(act: Act) | Forgotten

  datatype Touch = Touch(room: RoomKey, effect: Effect)

  function EffectOf(op: StoreOp): Effect {
    match op
    case MarkSavedOp(n) => Did(MarkSaved(n))
    case ResetOp => Did(Reset)
    case ForgetOp => Forgotten
  }

  /** A member leaves a room that nobody else is in. */
  predicate LeavesEmpty(s: State, c: ClientId, rid: RoomId) {
    rid in s.rooms && c in s.rooms[rid].peers && forall d :: d in s.rooms[rid].peers ==> d == c
  }

  /** The only moves that touch a log: a member's submission, a save, a reset or a forget, and the last one leaving. */
  function TouchOf(s: State, m: Move): Option<Touch> {
    var pc := PcAt(s.pcs, m.t);
    if m.a.Advance? && pc.Pinned? && pc.op.SubmitOps? then
      if pc.rid in s.rooms && pc.op.client in s.rooms[pc.rid].peers
      then Some(Touch(pc.op.room, Did(Submit(pc.op.client, pc.op.ops, pc.op.base)))) else None
    else if m.a.Advance? && pc.Pinned? && pc.op.WithStore? then Some(Touch(pc.op.room, EffectOf(pc.op.op)))
    else if m.a.Advance? && pc.Unpinned? then Some(Touch(pc.room, EffectOf(pc.storeOp)))
    else if m.a.Advance? && pc.LeaveLocked? then
      if LeavesEmpty(s, pc.client, pc.rid) then Some(Touch(s.rooms[pc.rid].key, Forgotten)) else None
    else if m.a.Sweep? && pc.Sweeping? then
      if m.a.room in s.index && LeavesEmpty(s, pc.client, s.index[m.a.room]) then
        Some(Touch(s.rooms[s.index[m.a.room]].key, Forgotten)) else None
    else None
  }

  /** The log actions of room k since its log was last forgotten. */
  function ActsOf(moves: seq<Move>, k: RoomKey): seq<Act> {
    if moves == [] then []
    else
      var front, last := moves[..|moves| - 1], moves[|moves| - 1];
      var acts := ActsOf(front, k);
      match Exec(front)
      case None => acts
      case Some(s) =>
        match TouchOf(s, last)
        case None => acts
        case Some(Touch(room, effect)) => if room != k then acts else if effect.Did? then acts + [effect.act] else []
  }

  function After(log: Log, effect: Effect): Log {
    match effect
    case Did(act) => Step(log, act)
    case Forgotten => EmptyLog
  }

  lemma OpIs(slot: Slot, op: StoreOp)
    ensures RunStore(slot, op).log == After(slot.log, EffectOf(op))
  {
  }

  lemma EmptyIs(s: State, c: ClientId, rid: RoomId)
    requires rid in s.rooms && c in s.rooms[rid].peers
    ensures Others(s.rooms[rid].peers, c) == map[] <==> LeavesEmpty(s, c, rid)
  {
    var peers := s.rooms[rid].peers;
    assert forall d :: d in peers && d != c ==> d in Others(peers, c);
  }

  lemma RemovalTouches(s: State, t: Tid, rid: RoomId, c: ClientId, k: RoomKey)
    requires rid in s.rooms && c in s.rooms[rid].peers
    ensures SlotAt(RemovePeer(s, t, rid, c).store, k).log
         == if LeavesEmpty(s, c, rid) && s.rooms[rid].key == k then EmptyLog else SlotAt(s.store, k).log
  {
    hide Others, LeavesEmpty;
    EmptyIs(s, c, rid);
  }

  lemma LeaveTouches(s: State, t: Tid, c: ClientId, rid: RoomId, k: RoomKey)
    requires rid in s.rooms
    ensures SlotAt(LeaveRoom(s, t, c, rid).store, k).log
         == if LeavesEmpty(s, c, rid) && s.rooms[rid].key == k then EmptyLog else SlotAt(s.store, k).log
  {
    hide LeavesEmpty, RemovePeer, LeftHold, Others;
    if c in s.rooms[rid].peers { RemovalTouches(s, t, rid, c, k); } else { NotThere(s, c, rid); }
  }

  lemma SweepTouches(s: State, t: Tid, c: ClientId, todo: set<RoomKey>, held: seq<Hold>, j: RoomKey, k: RoomKey)
    requires j in s.index ==> s.index[j] in s.rooms
    ensures SlotAt(SweepRoom(s, t, c, todo, held, j).store, k).log
         == if j in s.index && LeavesEmpty(s, c, s.index[j]) && s.rooms[s.index[j]].key == k then EmptyLog else SlotAt(s.store, k).log
  {
    hide LeavesEmpty, RemovePeer, LeftHold, Others;
    if j in s.index {
      var rid := s.index[j];
      if c in s.rooms[rid].peers { RemovalTouches(s, t, rid, c, k); } else { NotThere(s, c, rid); }
    }
  }

  /** The log of room k after something is done to a log. */
  function Touched(log: Log, k: RoomKey, touch: Option<Touch>): Log {
    match touch
    case None => log
    case Some(Touch(room, effect)) => if room == k then After(log, effect) else log
  }

  lemma AdvanceTouches(s: State, t: Tid, k: RoomKey)
    requires Enabled(s, t, Advance)
    ensures SlotAt(AdvanceStep(s, t).store, k).log == Touched(SlotAt(s.store, k).log, k, TouchOf(s, Move(t, Advance)))
  {
    hide LeavesEmpty, LeaveRoom, RunPinned, JoinRoom, FinishRoom, RunStore, Step;
    var pc := PcAt(s.pcs, t);
    if pc.LeaveLocked? {
      LeaveTouches(s, t, pc.client, pc.rid, k);
    } else if pc.Pinned? {
      PinnedTouches(s, t, pc.op, pc.rid, k);
    } else if pc.Unpinned? {
      OpIs(SlotAt(s.store, pc.room), pc.storeOp);
    } else {
      QuietStep(s, t);
    }
  }

  /** One move changes a room's log by exactly what it does to it. */
  lemma MoveTouches(s: State, m: Move, k: RoomKey)
    requires Enabled(s, m.t, m.a)
    ensures SlotAt(Do(s, m.t, m.a).store, k).log == Touched(SlotAt(s.store, k).log, k, TouchOf(s, m))
  {
    hide LeavesEmpty, AdvanceStep, SweepRoom, RunStore, Step;
    var pc := PcAt(s.pcs, m.t);
    match m.a
    case Advance => AdvanceTouches(s, m.t, k);
    case Sweep(j) => SweepTouches(s, m.t, pc.client, pc.todo, pc.held, j, k);
    case _ =>
  }

  lemma QuietStep(s: State, t: Tid)
    requires var pc := PcAt(s.pcs, t); Enabled(s, t, Advance) && !pc.LeaveLocked? && !pc.Pinned? && !pc.Unpinned?
    ensures AdvanceStep(s, t).store == s.store
  {
    hide AcquireHub, JoinRoom, ReplyObs;
    var pc := PcAt(s.pcs, t);
    if pc.Waiting? { QuietAcquire(s, t, pc.req); }
    if pc.JoinLocked? { QuietJoin(s, t, pc.client, pc.room, pc.name, pc.rid); }
  }

  lemma QuietAcquire(s: State, t: Tid, req: Request)
    ensures AcquireHub(s, t, req).store == s.store
  {
    hide KeysOf;
  }

  lemma QuietJoin(s: State, t: Tid, c: ClientId, k: RoomKey, name: string, rid: RoomId)
    requires rid in s.rooms
    ensures JoinRoom(s, t, c, k, name, rid).store == s.store
  {
    hide Others, KeysOf;
  }

  lemma NotThere(s: State, c: ClientId, rid: RoomId)
    requires rid in s.rooms && c !in s.rooms[rid].peers
    ensures !LeavesEmpty(s, c, rid)
  {
  }

  lemma PinnedTouches(s: State, t: Tid, op: PinOp, rid: RoomId, k: RoomKey)
    requires rid in s.rooms
    ensures SlotAt(RunPinned(s, t, op, rid).store, k).log ==
      match op
      case SubmitOps(c, j, ops, base) =>
        if j == k && c in s.rooms[rid].peers then Step(SlotAt(s.store, k).log, Submit(c, ops, base)) else SlotAt(s.store, k).log
      case WithStore(j, store) => if j == k then After(SlotAt(s.store, k).log, EffectOf(store)) else SlotAt(s.store, k).log
      case _ => SlotAt(s.store, k).log
  {
    hide Appended, Marked, Cleared;
    if op.WithStore? { OpIs(SlotAt(s.store, op.room), op.op); }
  }

  /**
   * In every interleaving, a room's log is the run of the log actions made on it since it was last forgotten, in the
   * order of the moves that made them; so what holds of runs of the log holds of the hub's logs.
   */
  lemma {:induction false} LogIsRun(moves: seq<Move>, k: RoomKey)
    requires Exec(moves).Some?
    ensures SlotAt(Exec(moves).value.store, k).log == OpLog.Run(ActsOf(moves, k))
  {
    hide Enabled, Do, TouchOf, OpLog.Step;
    if moves == [] {
    } else {
      var front, last := moves[..|moves| - 1], moves[|moves| - 1];
      var s := Exec(front).value;
      LogIsRun(front, k);
      MoveTouches(s, last, k);
      var acts := ActsOf(front, k);
      match TouchOf(s, last)
      case None =>
      case Some(Touch(room, effect)) =>
        if room == k && effect.Did? { assert (acts + [effect.act])[..|acts|] == acts; }
    }
  }

  /**
   * In every interleaving: whoever asks for what follows number n of room k is told to reload if and only if the log
   * never came to n, has gone on by more than 5000 since, or was reset or saved past n since it was last forgotten.
   */
  lemma ReloadsExactly(moves: seq<Move>, k: RoomKey, n: int)
    requires Exec(moves).Some?
    ensures var log, acts, from := SlotAt(Exec(moves).value.store, k).log, ActsOf(moves, k), Max(0, n);
      Since(k, log, n).None? <==>
        from > |log.hist| || |log.hist| > from + 5000 || exists j :: 0 <= j < |acts| && PassesOver(acts, j, from)
  {
    hide Since, PassesOver;
    LogIsRun(moves, k);
    CatchUpAccepted(ActsOf(moves, k), k, n);
  }
}
