/** The in-process op store: a bounded ring of entries per room. */
module MemoryStores {
  import opened Prelude
  import opened OpLog

  datatype StoreError = Cancelled | StaleBase(head: int)

  /** The mutable record behind one room. */
  datatype MemLog = MemLog(entries: seq<Entry>, head: nat, savedSeq: nat)

  const EmptyMemLog := MemLog([], 0, 0)

  ghost function LogAt(logs: map<RoomKey, Log>, room: RoomKey): Log {
    if room in logs then logs[room] else EmptyLog
  }

  /** The store reads as before, except that this room's log is now `log`. */
  ghost predicate Updates(before: map<RoomKey, Log>, after: map<RoomKey, Log>, room: RoomKey, log: Log) {
    LogAt(after, room) == log && forall other :: other != room ==> LogAt(after, other) == LogAt(before, other)
  }

  /** The ring retains exactly the entries past max(saved, head - MAX_OPS_PER_ROOM). */
  ghost predicate Retains(room: RoomKey, mem: MemLog, log: Log) {
    && log.Valid()
    && mem.head == log.Head()
    && mem.savedSeq == log.saved
    && mem.entries == OpsAfter(room, log.hist, log.Floor())
  }

  lemma RetainedWindow(room: RoomKey, mem: MemLog, log: Log)
    requires Retains(room, mem, log)
    ensures 0 <= mem.savedSeq <= mem.head
    ensures |mem.entries| == mem.head - log.Floor() <= MAX_OPS_PER_ROOM
    ensures forall i :: 0 <= i < |mem.entries| ==>
      mem.entries[i].num == Max(mem.savedSeq, mem.head - MAX_OPS_PER_ROOM) + 1 + i
  {
    OpsAfterDense(room, log.hist, log.Floor());
  }

  /** Dropping a prefix of the retained entries raises the floor by as much. */
  lemma DropIsLaterFloor(room: RoomKey, hist: seq<Item>, low: nat, high: nat)
    requires low <= high <= |hist| && forall i :: low <= i < |hist| ==> hist[i].Op?
    ensures |OpsAfter(room, hist, low)| == |hist| - low
    ensures OpsAfter(room, hist, low)[high - low..] == OpsAfter(room, hist, high)
  {
    OpsAfterDense(room, hist, low);
    OpsAfterDense(room, hist, high);
  }

  /** Appending and evicting what exceeds the ring keeps the window. */
  lemma AppendKeepsWindow(room: RoomKey, mem: MemLog, log: Log, client: ClientId, ops: Ops, entries: seq<Entry>)
    requires Retains(room, mem, log)
    requires var grown := mem.entries + [Entry(room, mem.head + 1, client, ops)];
      entries == if |grown| > MAX_OPS_PER_ROOM then grown[|grown| - MAX_OPS_PER_ROOM..] else grown
    ensures Retains(room, mem.(entries := entries, head := mem.head + 1), Appended(log, client, ops))
  {
    hide OpsAfter;
    var next := Appended(log, client, ops);
    RetainedWindow(room, mem, log);
    OpsAfterAppend(room, log.hist, Op(client, ops), log.Floor());
    if next.Floor() != log.Floor() {
      DropIsLaterFloor(room, next.hist, log.Floor(), next.Floor());
    }
  }

  /** Dropping the entries that a new watermark covers keeps the window. */
  lemma MarkKeepsWindow(room: RoomKey, mem: MemLog, log: Log, n: int, i: nat)
    requires Retains(room, mem, log) && n > mem.savedSeq
    requires i <= |mem.entries|
    requires i > 0 ==> mem.entries[i - 1].num <= Min(n, mem.head)
    requires i < |mem.entries| ==> mem.entries[i].num > Min(n, mem.head)
    ensures Retains(room, mem.(savedSeq := Min(n, mem.head), entries := mem.entries[i..]), Marked(log, n))
  {
    RetainedWindow(room, mem, log);
    var next := Marked(log, n);
    assert next.Floor() == log.Floor() + i;
    DropIsLaterFloor(room, log.hist, log.Floor(), next.Floor());
  }

  /** The retained entries past an admitted number are the catch-up answer. */
  lemma WindowAnswersSince(room: RoomKey, mem: MemLog, log: Log, from: nat)
    requires Retains(room, mem, log) && log.Floor() <= from <= mem.head
    ensures |mem.entries| == mem.head - log.Floor()
    ensures forall i :: 0 <= i < |mem.entries| ==> (mem.entries[i].num > from <==> i >= from - log.Floor())
    ensures mem.entries[from - log.Floor()..] == OpsAfter(room, log.hist, from)
  {
    RetainedWindow(room, mem, log);
    DropIsLaterFloor(room, log.hist, log.Floor(), from);
  }

  /** The filtering loop of Since over a window whose later part starts at `skip`. */
  method EntriesPast(entries: seq<Entry>, from: nat, ghost skip: nat) returns (out: seq<Entry>)
    requires skip <= |entries|
    requires forall i :: 0 <= i < |entries| ==> (entries[i].num > from <==> i >= skip)
    ensures out == entries[skip..]
  {
    out := [];
    for i := 0 to |entries|
      invariant out == if i <= skip then [] else entries[skip..i]
    {
      if entries[i].num > from {
        out := out + [entries[i]];
      }
    }
  }

  /** Every room's ring, kept in step with the whole history of the room's current incarnation. */
  class MemoryStore {
    var rooms: map<RoomKey, MemLog>
    ghost var logs: map<RoomKey, Log>

    ghost predicate Valid()
      reads this
    {
      logs.Keys == rooms.Keys && forall room :: room in rooms ==> Retains(room, rooms[room], logs[room])
    }

    constructor ()
      ensures Valid() && logs == map[]
    {
      rooms := map[];
      logs := map[];
    }

    /** The room's record, created empty on first use. */
    method Open(room: RoomKey) returns (l: MemLog)
      requires Valid()
      modifies this
      ensures Valid()
      ensures Updates(old(logs), logs, room, LogAt(old(logs), room))
      ensures Retains(room, l, LogAt(logs, room))
    {
      if room !in rooms {
        rooms := rooms[room := EmptyMemLog];
        logs := logs[room := EmptyLog];
      }
      l := rooms[room];
    }

    /** Replaces the room's record, together with the history it stands for. */
    method Put(room: RoomKey, l: MemLog, ghost log: Log)
      requires Valid() && Retains(room, l, log)
      modifies this
      ensures Valid()
      ensures Updates(old(logs), logs, room, log)
    {
      rooms := rooms[room := l];
      logs := logs[room := log];
    }

    method Append(cancelled: bool, room: RoomKey, client: ClientId, ops: Ops, baseSeq: int)
      returns (r: Result<int, StoreError>)
      requires Valid()
      modifies this
      ensures Valid()
      ensures cancelled ==> r == Failure(Cancelled) && logs == old(logs)
      ensures var log := LogAt(old(logs), room);
        !cancelled ==>
          if baseSeq == log.Head()
          then r == Success(log.Head() + 1) && Updates(old(logs), logs, room, Appended(log, client, ops))
          else r == Failure(StaleBase(log.Head())) && Updates(old(logs), logs, room, log)
    {
      if cancelled {
        return Failure(Cancelled);
      }
      var l := Open(room);
      ghost var log := LogAt(logs, room);
      if baseSeq != l.head {
        return Failure(StaleBase(l.head));
      }
      var head := l.head + 1;
      var entries := l.entries + [Entry(room, head, client, ops)];
      if |entries| > MAX_OPS_PER_ROOM {
        entries := entries[|entries| - MAX_OPS_PER_ROOM..];
      }
      AppendKeepsWindow(room, l, log, client, ops, entries);
      Put(room, l.(entries := entries, head := head), Appended(log, client, ops));
      return Success(head);
    }

    /** The OpStore triple: entries and head, with None standing for ok = false. */
    method Since(cancelled: bool, room: RoomKey, since: int)
      returns (r: Result<(Option<seq<Entry>>, int), StoreError>)
      requires Valid()
      ensures cancelled ==> r == Failure(Cancelled)
      ensures !cancelled ==>
        r == Success((OpLog.Since(room, LogAt(logs, room), since), LogAt(logs, room).Head()))
    {
      if cancelled {
        return Failure(Cancelled);
      }
      var l := if room in rooms then rooms[room] else EmptyMemLog;
      ghost var log := LogAt(logs, room);
      RetainedWindow(room, l, log);
      var from := if since < 0 then 0 else since;
      if from > l.head {
        return Success((None, l.head));
      }
      if from == l.head {
        return Success((Some([]), l.head));
      }
      if from < l.savedSeq {
        return Success((None, l.head));
      }
      if |l.entries| > 0 && l.entries[0].num > from + 1 {
        return Success((None, l.head));
      }
      WindowAnswersSince(room, l, log, from);
      var out := EntriesPast(l.entries, from, from - log.Floor());
      return Success((Some(out), l.head));
    }

    method LogState(cancelled: bool, room: RoomKey) returns (r: Result<(int, int), StoreError>)
      requires Valid()
      ensures r == if cancelled then Failure(Cancelled)
                   else Success((LogAt(logs, room).Head(), LogAt(logs, room).saved))
    {
      if cancelled {
        return Failure(Cancelled);
      }
      return if room in rooms then Success((rooms[room].head, rooms[room].savedSeq)) else Success((0, 0));
    }

    method MarkSaved(cancelled: bool, room: RoomKey, n: int) returns (err: Option<StoreError>)
      requires Valid()
      modifies this
      ensures Valid()
      ensures err == if cancelled then Some(Cancelled) else None
      ensures cancelled ==> logs == old(logs)
      ensures !cancelled ==> Updates(old(logs), logs, room, Marked(LogAt(old(logs), room), n))
    {
      if cancelled {
        return Some(Cancelled);
      }
      if room !in rooms || n <= rooms[room].savedSeq {
        return None;
      }
      var l := rooms[room];
      ghost var log := LogAt(logs, room);
      var mark := if n > l.head then l.head else n;
      var i := 0;
      while i < |l.entries| && l.entries[i].num <= mark
        invariant 0 <= i <= |l.entries|
        invariant i > 0 ==> l.entries[i - 1].num <= mark
      {
        i := i + 1;
      }
      MarkKeepsWindow(room, l, log, n, i);
      Put(room, l.(savedSeq := mark, entries := l.entries[i..]), Marked(log, n));
      return None;
    }

    method Reset(cancelled: bool, room: RoomKey) returns (err: Option<StoreError>)
      requires Valid()
      modifies this
      ensures Valid()
      ensures err == if cancelled then Some(Cancelled) else None
      ensures cancelled ==> logs == old(logs)
      ensures !cancelled ==> Updates(old(logs), logs, room, Cleared(LogAt(old(logs), room)))
    {
      if cancelled {
        return Some(Cancelled);
      }
      var l := Open(room);
      ghost var log := LogAt(logs, room);
      Put(room, MemLog([], l.head + 1, l.head + 1), Cleared(log));
      return None;
    }

    method Forget(cancelled: bool, room: RoomKey) returns (err: Option<StoreError>)
      requires Valid()
      modifies this
      ensures Valid()
      ensures err == if cancelled then Some(Cancelled) else None
      ensures cancelled ==> logs == old(logs)
      ensures !cancelled ==> Updates(old(logs), logs, room, EmptyLog)
    {
      if cancelled {
        return Some(Cancelled);
      }
      rooms := rooms - {room};
      logs := logs - {room};
      return None;
    }
  }
}
