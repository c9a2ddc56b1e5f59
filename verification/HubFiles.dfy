/** What clients are told about changed files. */
module HubFiles {
  import opened Prelude
  import opened OpLog
  import opened HubMachine

  /** Watermark n of room k was in force at some moment of the run. */
  ghost predicate WasSaved(moves: seq<Move>, k: RoomKey, n: nat) {
    exists i :: 0 <= i <= |moves| && SavedThen(moves, i, k, n)
  }

  predicate SavedThen(moves: seq<Move>, i: nat, k: RoomKey, n: nat)
    requires i <= |moves|
  {
    Exec(moves[..i]).Some? && SlotAt(Exec(moves[..i]).value.store, k).log.saved == n
  }

  predicate Holding(held: seq<Hold>, k: RoomKey, n: nat) {
    exists i :: 0 <= i < |held| && held[i].event == Some(FileChanged(k, n))
  }

  /** The thread is about to announce n for room k. */
  predicate Mentions(pc: Pc, k: RoomKey, n: nat) {
    match pc
    case Waiting(req) => req.Pin? && Names(req.op, k, n)
    case PinLocked(op, _) => Names(op, k, n)
    case Pinned(op, _) => Names(op, k, n)
    case Sweeping(_, _, held) => Holding(held, k, n)
    case Sending(held) => Holding(held, k, n)
    case _ => false
  }

  predicate Names(op: PinOp, k: RoomKey, n: nat) {
    op.Notify? && op.room == k && op.savedSeq == n
  }

  predicate Told(log: seq<Obs>, k: RoomKey, n: nat) {
    exists i :: 0 <= i < |log| && log[i] == Pushed(FileChanged(k, n))
  }

  ghost predicate Announced(s: State, k: RoomKey, n: nat) {
    (exists t: Tid :: Mentions(PcAt(s.pcs, t), k, n)) || exists c: ClientId :: Told(ObsAt(s.obs, c), k, n)
  }

  lemma HeldTail(held: seq<Hold>, h: Hold, k: RoomKey, n: nat)
    requires held != []
    ensures Holding(held[1..], k, n) ==> Holding(held, k, n)
    ensures h.event == held[0].event ==> (Holding([h] + held[1..], k, n) ==> Holding(held, k, n))
  {
    if i :| 0 <= i < |held[1..]| && held[1..][i].event == Some(FileChanged(k, n)) { assert held[i + 1].event == Some(FileChanged(k, n)); }
    var less := [h] + held[1..];
    if h.event == held[0].event {
      if i :| 0 <= i < |less| && less[i].event == Some(FileChanged(k, n)) { assert held[i].event == Some(FileChanged(k, n)); }
    }
  }

  lemma HeldMore(held: seq<Hold>, h: Hold, k: RoomKey, n: nat)
    requires h.event.Some? && !h.event.value.FileChanged?
    ensures Holding(held + [h], k, n) ==> Holding(held, k, n)
  {
    var more := held + [h];
    if i :| 0 <= i < |more| && more[i].event == Some(FileChanged(k, n)) { assert i < |held| ==> held[i] == more[i]; }
  }

  lemma HeldOne(h: Hold, k: RoomKey, n: nat)
    ensures Holding([h], k, n) <==> h.event == Some(FileChanged(k, n))
  {
    assert [h][0] == h;
  }

  lemma ToldMore(log: seq<Obs>, o: Obs, k: RoomKey, n: nat)
    ensures Told(log + [o], k, n) ==> Told(log, k, n) || o == Pushed(FileChanged(k, n))
  {
    var more := log + [o];
    if i :| 0 <= i < |more| && more[i] == Pushed(FileChanged(k, n)) { assert i < |log| ==> log[i] == more[i]; }
  }

  lemma ReplyTells(s: State, hold: Hold, c: ClientId, k: RoomKey, n: nat)
    ensures Told(ObsAt(ReplyObs(s, hold), c), k, n) ==> Told(ObsAt(s.obs, c), k, n)
  {
    hide Told;
    match hold.reply
    case NoReply =>
    case JoinReply(d, first, peers) =>
      var slot := SlotAt(s.store, hold.room);
      ToldMore(ObsAt(s.obs, d), JoinReturned(hold.room, first, peers, slot.epoch, slot.log), k, n);
    case SubmitReply(entry) => ToldMore(ObsAt(s.obs, entry.client), SubmitReturned(entry), k, n);
  }

  /** A step of thread t that tells nobody anything. */
  predicate Calm(s: State, s': State, t: Tid, u: Tid) {
    s'.obs == s.obs && Alone(s, s', t, u)
  }

  /** It does not move thread u. */
  predicate Alone(s: State, s': State, t: Tid, u: Tid) {
    u != t ==> PcAt(s'.pcs, u) == PcAt(s.pcs, u)
  }

  lemma AcquiresCalmly(s: State, t: Tid, req: Request, u: Tid)
    ensures Calm(s, AcquireHub(s, t, req), t, u)
  {
    hide AcquireHub, Alone;
    AcquiresSilently(s, t, req);
    AcquiresAlone(s, t, req, u);
  }

  lemma AcquiresSilently(s: State, t: Tid, req: Request)
    ensures AcquireHub(s, t, req).obs == s.obs
  {
    hide KeysOf;
  }

  lemma AcquiresAlone(s: State, t: Tid, req: Request, u: Tid)
    ensures Alone(s, AcquireHub(s, t, req), t, u)
  {
    hide KeysOf;
  }

  lemma Acquires(s: State, t: Tid, req: Request, k: RoomKey, n: nat)
    ensures Mentions(PcAt(AcquireHub(s, t, req).pcs, t), k, n) ==> Mentions(Waiting(req), k, n)
  {
    hide KeysOf, Names;
    match req
    case Join(_, _, _) =>
    case Leave(_, _) =>
    case LeaveAll(_) => NoHolds(k, n);
    case Pin(_) =>
  }

  lemma NoHolds(k: RoomKey, n: nat)
    ensures !Holding([], k, n)
  {
  }

  lemma Joins(s: State, t: Tid, c: ClientId, j: RoomKey, name: string, rid: RoomId, k: RoomKey, n: nat, u: Tid)
    requires rid in s.rooms
    ensures var s' := JoinRoom(s, t, c, j, name, rid); Calm(s, s', t, u) && !Mentions(PcAt(s'.pcs, t), k, n)
  {
    hide Others, Holding;
    var pc := PcAt(JoinRoom(s, t, c, j, name, rid).pcs, t);
    if pc.Sending? { HeldOne(pc.held[0], k, n); }
  }

  lemma Leaves(s: State, t: Tid, c: ClientId, rid: RoomId, k: RoomKey, n: nat, u: Tid)
    requires rid in s.rooms
    ensures var s' := LeaveRoom(s, t, c, rid); Calm(s, s', t, u) && !Mentions(PcAt(s'.pcs, t), k, n)
  {
    hide Others, Holding, RunStore;
    HeldOne(LeftHold(s, rid, c), k, n);
  }

  lemma PinsCalmly(s: State, t: Tid, op: PinOp, rid: RoomId, u: Tid)
    requires rid in s.rooms
    ensures Calm(s, RunPinned(s, t, op, rid), t, u)
  {
    hide RunStore, Appended, SlotAt;
  }

  lemma Pins(s: State, t: Tid, op: PinOp, rid: RoomId, k: RoomKey, n: nat)
    requires rid in s.rooms
    ensures Mentions(PcAt(RunPinned(s, t, op, rid).pcs, t), k, n) ==> Names(op, k, n)
  {
    hide Holding, RunStore, Appended, SlotAt;
    var pc := PcAt(RunPinned(s, t, op, rid).pcs, t);
    if pc.Sending? { HeldOne(pc.held[0], k, n); }
  }

  lemma Finishes(s: State, t: Tid, held: seq<Hold>, c: ClientId, k: RoomKey, n: nat, u: Tid)
    requires held != [] && held[0].rid in s.rooms
    ensures var s' := FinishRoom(s, t, held);
      && Alone(s, s', t, u)
      && (Mentions(PcAt(s'.pcs, t), k, n) ==> Mentions(Sending(held), k, n))
      && (Told(ObsAt(s'.obs, c), k, n) ==> Told(ObsAt(s.obs, c), k, n))
  {
    hide Holding, Told, ReplyObs;
    HeldTail(held, held[0], k, n);
    ReplyTells(s, held[0], c, k, n);
  }

  lemma Sends(s: State, t: Tid, held: seq<Hold>, d: ClientId, c: ClientId, k: RoomKey, n: nat, u: Tid)
    requires held != [] && held[0].event.Some?
    ensures var s' := SendTo(s, t, held, d);
      && Alone(s, s', t, u)
      && (Mentions(PcAt(s'.pcs, t), k, n) ==> Mentions(Sending(held), k, n))
      && (Told(ObsAt(s'.obs, c), k, n) ==> Told(ObsAt(s.obs, c), k, n) || Mentions(Sending(held), k, n))
  {
    hide Told;
    HeldTail(held, held[0].(remaining := held[0].remaining - {d}), k, n);
    ToldMore(ObsAt(s.obs, d), Pushed(held[0].event.value), k, n);
    assert held[0].event == Some(FileChanged(k, n)) ==> Holding(held, k, n);
  }

  lemma Sweeps(s: State, t: Tid, c: ClientId, todo: set<RoomKey>, held: seq<Hold>, j: RoomKey, k: RoomKey, n: nat, u: Tid)
    requires j in s.index ==> s.index[j] in s.rooms
    ensures var s' := SweepRoom(s, t, c, todo, held, j);
      Calm(s, s', t, u) && (Mentions(PcAt(s'.pcs, t), k, n) ==> Holding(held, k, n))
  {
    hide Others, Holding, RunStore;
    if j in s.index { HeldMore(held, LeftHold(s, s.index[j], c), k, n); }
  }

  /** What is announced or about to be after a step, was before, or has just been read as the watermark. */
  lemma Moves(s: State, t: Tid, a: Action, c: ClientId, k: RoomKey, n: nat, u: Tid)
    requires Enabled(s, t, a)
    ensures var s' := Do(s, t, a);
      && Alone(s, s', t, u)
      && (Mentions(PcAt(s'.pcs, t), k, n) ==> Mentions(PcAt(s.pcs, t), k, n) || SlotAt(s.store, k).log.saved == n)
      && (Told(ObsAt(s'.obs, c), k, n) ==> Told(ObsAt(s.obs, c), k, n) || Mentions(PcAt(s.pcs, t), k, n))
  {
    hide Told, Holding, AcquireHub, JoinRoom, LeaveRoom, RunPinned, FinishRoom, SendTo, SweepRoom, RunStore, ObsAt;
    var pc := PcAt(s.pcs, t);
    match a
    case Advance =>
      if pc.Waiting? { AcquiresCalmly(s, t, pc.req, u); Acquires(s, t, pc.req, k, n); }
      else if pc.JoinLocked? { Joins(s, t, pc.client, pc.room, pc.name, pc.rid, k, n, u); }
      else if pc.LeaveLocked? { Leaves(s, t, pc.client, pc.rid, k, n, u); }
      else if pc.Pinned? { PinsCalmly(s, t, pc.op, pc.rid, u); Pins(s, t, pc.op, pc.rid, k, n); }
      else if pc.Sending? { Finishes(s, t, pc.held, c, k, n, u); }
    case Send(d) => Sends(s, t, pc.held, d, c, k, n, u);
    case Sweep(j) => Sweeps(s, t, pc.client, pc.todo, pc.held, j, k, n, u);
    case _ =>
  }

  lemma AnnouncedStep(s: State, t: Tid, a: Action, k: RoomKey, n: nat)
    requires Enabled(s, t, a) && Announced(Do(s, t, a), k, n)
    ensures Announced(s, k, n) || SlotAt(s.store, k).log.saved == n
  {
    hide Enabled, Do, Mentions, Told, PcAt, ObsAt;
    var s' := Do(s, t, a);
    if u :| Mentions(PcAt(s'.pcs, u), k, n) {
      Moves(s, t, a, "", k, n, u);
    } else {
      var c :| Told(ObsAt(s'.obs, c), k, n);
      Moves(s, t, a, c, k, n, t);
    }
  }

  lemma {:induction false} AnnouncedWas(moves: seq<Move>, k: RoomKey, n: nat)
    requires Exec(moves).Some? && Announced(Exec(moves).value, k, n)
    ensures WasSaved(moves, k, n)
  {
    hide Enabled, Do, Announced;
    if moves == [] {
      NothingAnnounced(k, n);
      assert false;
    } else {
      var front, last := moves[..|moves| - 1], moves[|moves| - 1];
      var s := Exec(front).value;
      AnnouncedStep(s, last.t, last.a, k, n);
      if Announced(s, k, n) {
        AnnouncedWas(front, k, n);
        var i :| 0 <= i <= |front| && SavedThen(front, i, k, n);
        assert front[..i] == moves[..i];
        assert SavedThen(moves, i, k, n);
      } else {
        assert SavedThen(moves, |front|, k, n);
      }
    }
  }

  lemma NothingAnnounced(k: RoomKey, n: nat)
    ensures !Announced(Init, k, n)
  {
  }

  /** In every interleaving, a client that is told of a changed file is told a watermark that the room's log has had. */
  lemma TellsSaved(moves: seq<Move>, c: ClientId, i: nat, k: RoomKey, n: nat)
    requires Exec(moves).Some? && i < |ObsAt(Exec(moves).value.obs, c)|
    requires ObsAt(Exec(moves).value.obs, c)[i] == Pushed(FileChanged(k, n))
    ensures WasSaved(moves, k, n)
  {
    hide WasSaved;
    assert Told(ObsAt(Exec(moves).value.obs, c), k, n);
    AnnouncedWas(moves, k, n);
  }
}
