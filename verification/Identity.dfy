/** Durable identities: how the id of each object is chosen. */
module Identity {
  import opened Prelude
  import opened Numerals

  /** Part-qualified keys. The source joins the components with NUL, which none of them contains. */
  datatype Key = Key(kind: string, part: string, tail: string)

  /** What an identifier is derived from. */
  datatype Seed = Seed(kind: string, part: string, path: string, native: string)

  datatype Anchor = Anchor(part: string, path: string, digest: string)

  /** An object of the previous revision, in the order in which the revision lists them. */
  datatype Record = Record(kind: string, id: string, anchor: Option<Anchor>, native: string)

  datatype Node = Node(path: string, digest: string)

  datatype Request = Request(kind: string, part: string, node: Option<Node>, native: string)

  datatype State = State(
    ids: map<Key, seq<string>>,
    used: map<Key, nat>,
    native: map<Key, string>,
    path: map<Key, string>,
    reserved: set<string>,
    issued: set<string>)

  const EMPTY := State(map[], map[], map[], map[], {}, {})

  ghost predicate Injective(hash: Seed -> string) {
    forall a: Seed, b: Seed :: hash(a) == hash(b) ==> a == b
  }

  // ------------------------------------------------------------ the previous ids

  function Queue(s: State, k: Key): seq<string> {
    if k in s.ids then s.ids[k] else []
  }

  function Used(s: State, k: Key): nat {
    if k in s.used then s.used[k] else 0
  }

  function Lookup(m: map<Key, string>, k: Key): string {
    if k in m then m[k] else ""
  }

  function Remember(s: State, r: Record): State {
    var part := if r.anchor.Some? then r.anchor.value.part else "";
    var s1 := s.(reserved := s.reserved + {r.id});
    var s2 := if r.native != "" then s1.(native := s1.native[Key(r.kind, part, r.native) := r.id]) else s1;
    if r.anchor.None? || part == "" || r.anchor.value.digest == "" then s2
    else
      var k := Key(r.kind, part, r.anchor.value.digest);
      var p := Key(r.kind, part, r.anchor.value.path);
      s2.(ids := s2.ids[k := Queue(s2, k) + [r.id]],
          path := s2.path[p := if p in s2.path then "" else r.id])
  }

  function Index(s: State, records: seq<Record>): State
    decreases |records|
  {
    if records == [] then s else Index(Remember(s, records[0]), records[1..])
  }

  // --------------------------------------------------------------- choosing an id

  /** The first id of the queue from `from` on that is not taken, with the position after it; else the end. */
  function Take(q: seq<string>, from: nat, issued: set<string>): (r: (nat, Option<string>))
    ensures r.1.Some? ==> from < r.0 <= |q| && r.1.value == q[r.0 - 1] && r.1.value !in issued
    ensures r.1.Some? ==> forall i :: from <= i < r.0 - 1 ==> q[i] in issued
    ensures r.1.None? ==> r.0 == Max(from, |q|) && forall i :: from <= i < |q| ==> q[i] in issued
    decreases |q| - from
  {
    if from >= |q| then (from, None)
    else if q[from] !in issued then (from + 1, Some(q[from]))
    else Take(q, from + 1, issued)
  }

  function SaltedSeed(base: Seed, stem: string, salt: nat): Seed {
    base.(native := stem + ":" + Numeral(salt))
  }

  lemma SaltsDiffer(base: Seed, stem: string, a: nat, b: nat)
    requires SaltedSeed(base, stem, a) == SaltedSeed(base, stem, b)
    ensures a == b
  {
    var x, y := stem + ":" + Numeral(a), stem + ":" + Numeral(b);
    assert x[|stem| + 1..] == Numeral(a) && y[|stem| + 1..] == Numeral(b);
    NumeralValue(a);
    NumeralValue(b);
  }

  ghost predicate TriedAll(hash: Seed -> string, base: Seed, stem: string, taken: set<string>, n: nat) {
    forall j: nat :: j < n ==> hash(SaltedSeed(base, stem, j)) in taken
  }

  /** Only as many salts as there are taken ids can fail: the salting loop ends. */
  lemma {:induction false} SaltsBounded(hash: Seed -> string, base: Seed, stem: string, taken: set<string>, n: nat)
    requires Injective(hash) && TriedAll(hash, base, stem, taken, n)
    ensures n <= |taken|
    decreases n
  {
    if n == 0 {
    } else {
      var last := hash(SaltedSeed(base, stem, n - 1));
      forall j: nat | j < n - 1 ensures hash(SaltedSeed(base, stem, j)) in taken - {last} {
        if hash(SaltedSeed(base, stem, j)) == last { SaltsDiffer(base, stem, j, n - 1); }
      }
      SaltsBounded(hash, base, stem, taken - {last}, n - 1);
    }
  }

  /** The id for the first salt from n on that is not taken. */
  function FirstFree(hash: Seed -> string, base: Seed, stem: string, taken: set<string>, n: nat): (r: string)
    requires Injective(hash) && TriedAll(hash, base, stem, taken, n)
    ensures r !in taken
    decreases |taken| + 1 - n
  {
    SaltsBounded(hash, base, stem, taken, n);
    var id := hash(SaltedSeed(base, stem, n));
    if id !in taken then id else FirstFree(hash, base, stem, taken, n + 1)
  }

  function Fresh(hash: Seed -> string, plain: Seed, base: Seed, stem: string, taken: set<string>): (r: string)
    requires Injective(hash)
    ensures r !in taken
  {
    if hash(plain) !in taken then hash(plain) else FirstFree(hash, base, stem, taken, 0)
  }

  function Grant(s: State, id: string): State {
    s.(issued := s.issued + {id})
  }

  function Scanned(s: State, k: Key): State {
    if Used(s, k) < |Queue(s, k)| then
      s.(used := s.used[k := Take(Queue(s, k), Used(s, k), s.issued).0])
    else s
  }

  /** The previous id at the node's path: unambiguous, unused, and only when the topology is known to be unchanged. */
  function PathCandidate(s: State, retain: bool, kind: string, part: string, node: Node): Option<string> {
    var id := Lookup(s.path, Key(kind, part, node.path));
    if !retain || id == "" || id in s.issued then None else Some(id)
  }

  /** The fingerprint key of a request; it plays no part for requests without a node. */
  function NodeKey(r: Request): Key {
    Key(r.kind, r.part, if r.node.Some? then r.node.value.digest else "")
  }

  function GrantIf(s: State, id: Option<string>): State {
    if id.Some? then Grant(s, id.value) else s
  }

  /** An id from the previous revision for the request's node: by fingerprint first, then by path. */
  function Matched(s: State, retain: bool, r: Request): (State, Option<string>)
    requires r.node.Some?
  {
    var k := NodeKey(r);
    var s' := Scanned(s, k);
    var found := Take(Queue(s, k), Used(s, k), s.issued).1;
    var id := if found.Some? then found else PathCandidate(s', retain, r.kind, r.part, r.node.value);
    (GrantIf(s', id), id)
  }

  function Allocate(hash: Seed -> string, s: State, retain: bool, r: Request): (State, string)
    requires Injective(hash)
  {
    if r.native != "" then
      var byKey := Lookup(s.native, Key(r.kind, r.part, r.native));
      if byKey != "" && byKey !in s.issued then (Grant(s, byKey), byKey)
      else
        var (s', found) := if r.node.Some? then Matched(s, retain, r) else (s, None);
        if found.Some? then (s', found.value)
        else
          var path := if r.node.Some? then r.node.value.path else "";
          var id := Fresh(hash, Seed(r.kind, r.part, "", r.native), Seed(r.kind, r.part, path, ""), r.native, s'.issued);
          (Grant(s', id), id)
    else if r.node.Some? then
      var (s', found) := Matched(s, retain, r);
      if found.Some? then (s', found.value)
      else
        var seed := Seed(r.kind, r.part, r.node.value.path, "");
        var id := Fresh(hash, seed, seed, r.node.value.digest, s'.reserved + s'.issued);
        (Grant(s', id), id)
    else
      var id := hash(Seed(r.kind, r.part, "", ""));
      (Grant(s, id), id)
  }

  // ---------------------------------------------------------------- whole runs

  function Run(hash: Seed -> string, s: State, retain: bool, reqs: seq<Request>): seq<string>
    requires Injective(hash)
    decreases |reqs|
  {
    if reqs == [] then []
    else
      var (s', id) := Allocate(hash, s, retain, reqs[0]);
      [id] + Run(hash, s', retain, reqs[1..])
  }

  /** Named requests: all but those that have neither a node nor a native key. */
  predicate Named(r: Request) {
    r.node.Some? || r.native != ""
  }

  ghost predicate AllNamed(reqs: seq<Request>) {
    forall i :: 0 <= i < |reqs| ==> Named(reqs[i])
  }

  lemma AllocateNew(hash: Seed -> string, s: State, retain: bool, r: Request)
    requires Injective(hash) && Named(r)
    ensures Allocate(hash, s, retain, r).1 !in s.issued
    ensures Allocate(hash, s, retain, r).0.issued == s.issued + {Allocate(hash, s, retain, r).1}
  {
    hide Take, FirstFree, Injective;
  }

  /** Within a run no id is issued twice, nor one that had been issued before it. */
  lemma {:induction false} IssuedOnce(hash: Seed -> string, s: State, retain: bool, reqs: seq<Request>)
    requires Injective(hash) && AllNamed(reqs)
    ensures var ids := Run(hash, s, retain, reqs);
      && |ids| == |reqs|
      && (forall i :: 0 <= i < |ids| ==> ids[i] !in s.issued)
      && (forall i, j :: 0 <= i < j < |ids| ==> ids[i] != ids[j])
    decreases |reqs|
  {
    hide Allocate, Injective, Named;
    if reqs == [] {
    } else {
      var (s', id) := Allocate(hash, s, retain, reqs[0]);
      AllocateNew(hash, s, retain, reqs[0]);
      IssuedOnce(hash, s', retain, reqs[1..]);
    }
  }

  /** The excluded case: without node and native key the same id is issued again and again. */
  lemma NamelessRepeats(hash: Seed -> string, s: State, retain: bool, kind: string, part: string)
    requires Injective(hash)
    ensures var r := Request(kind, part, None, "");
      var (s', id) := Allocate(hash, s, retain, r);
      Allocate(hash, s', retain, r).1 == id && id in s'.issued
  {
  }

  // -------------------------------------------------------- what the index holds

  /** The ids recorded under k, in order. */
  function Recorded(records: seq<Record>, k: Key): seq<string> {
    if records == [] then []
    else (if Keyed(records[0], k) then [records[0].id] else []) + Recorded(records[1..], k)
  }

  predicate Keyed(r: Record, k: Key) {
    r.anchor.Some? && r.anchor.value.part != "" && r.anchor.value.digest != ""
    && k == Key(r.kind, r.anchor.value.part, r.anchor.value.digest)
  }

  function Ids(records: seq<Record>): set<string> {
    set i | 0 <= i < |records| :: records[i].id
  }

  lemma {:induction false} IndexHolds(s: State, records: seq<Record>, k: Key)
    ensures Queue(Index(s, records), k) == Queue(s, k) + Recorded(records, k)
    ensures Index(s, records).used == s.used && Index(s, records).issued == s.issued
    decreases |records|
  {
    hide Keyed;
    if records == [] {
    } else {
      RememberQueue(s, records[0], k);
      IndexHolds(Remember(s, records[0]), records[1..], k);
    }
  }

  lemma RememberQueue(s: State, r: Record, k: Key)
    ensures Queue(Remember(s, r), k) == Queue(s, k) + if Keyed(r, k) then [r.id] else []
    ensures Remember(s, r).used == s.used && Remember(s, r).issued == s.issued
    ensures Remember(s, r).reserved == s.reserved + {r.id}
  {
  }

  lemma {:induction false} IndexReserves(s: State, records: seq<Record>)
    ensures Index(s, records).reserved == s.reserved + Ids(records)
    decreases |records|
  {
    if records == [] {
    } else {
      var rest := records[1..];
      RememberQueue(s, records[0], Key("", "", ""));
      IndexReserves(Remember(s, records[0]), rest);
      forall id ensures id in Ids(records) <==> id == records[0].id || id in Ids(rest) {
        if id in Ids(records) {
          var i :| 0 <= i < |records| && records[i].id == id;
          if i > 0 { assert rest[i - 1].id == id; }
        }
        if id in Ids(rest) {
          var i :| 0 <= i < |rest| && rest[i].id == id;
          assert records[i + 1].id == id;
        }
      }
    }
  }

  // ----------------------------------------------------------------- FIFO matching

  /** A place in one of the queues of previous ids. */
  predicate Place(s: State, k: Key, i: int) {
    0 <= i < |Queue(s, k)|
  }

  /** Ids not yet handed out from the queues are unissued, reserved, and stand in one place only. */
  ghost predicate Live(s: State) {
    && (forall k: Key, i: int :: Place(s, k, i) && Used(s, k) <= i ==> Queue(s, k)[i] !in s.issued)
    && (forall k: Key, i: int :: Place(s, k, i) ==> Queue(s, k)[i] in s.reserved)
    && (forall k: Key, i: int, k': Key, i': int ::
          Place(s, k, i) && Place(s, k', i') && Queue(s, k)[i] == Queue(s, k')[i'] ==> k == k' && i == i')
  }

  /** A request for an object of the document tree: a node and no native key. */
  predicate Anchored(r: Request) {
    r.node.Some? && r.native == ""
  }

  ghost predicate AllAnchored(reqs: seq<Request>) {
    forall i :: 0 <= i < |reqs| ==> Anchored(reqs[i])
  }

  /** How many of the first n requests have the fingerprint key k. */
  function Rank(reqs: seq<Request>, n: nat, k: Key): nat
    requires n <= |reqs|
  {
    if n == 0 then 0 else (if NodeKey(reqs[0]) == k then 1 else 0) + Rank(reqs[1..], n - 1, k)
  }

  lemma Hit(hash: Seed -> string, s: State, retain: bool, r: Request)
    requires Injective(hash) && Live(s) && Anchored(r) && Used(s, NodeKey(r)) < |Queue(s, NodeKey(r))|
    ensures var k := NodeKey(r);
      var (s', id) := Allocate(hash, s, retain, r);
      && id == Queue(s, k)[Used(s, k)]
      && s' == s.(used := s.used[k := Used(s, k) + 1], issued := s.issued + {id})
  {
    hide Live, Injective, FirstFree;
    var k := NodeKey(r);
    NextUnissued(s, k);
    var t := Take(Queue(s, k), Used(s, k), s.issued);
    assert t == (Used(s, k) + 1, Some(Queue(s, k)[Used(s, k)]));
  }

  lemma NextUnissued(s: State, k: Key)
    requires Live(s) && Used(s, k) < |Queue(s, k)|
    ensures Queue(s, k)[Used(s, k)] !in s.issued
  {
    assert Place(s, k, Used(s, k));
  }

  lemma Miss(hash: Seed -> string, s: State, r: Request)
    requires Injective(hash) && Anchored(r) && Used(s, NodeKey(r)) >= |Queue(s, NodeKey(r))|
    ensures var (s', id) := Allocate(hash, s, false, r);
      id !in s.reserved && s' == s.(issued := s.issued + {id})
  {
    hide Injective, FirstFree;
  }

  lemma LiveHit(s: State, s': State, k: Key)
    requires Live(s) && Used(s, k) < |Queue(s, k)|
    requires s' == s.(used := s.used[k := Used(s, k) + 1], issued := s.issued + {Queue(s, k)[Used(s, k)]})
    ensures Live(s')
  {
    var id := Queue(s, k)[Used(s, k)];
    assert Place(s, k, Used(s, k));
    forall q: Key ensures Queue(s', q) == Queue(s, q) && Used(s', q) == if q == k then Used(s, k) + 1 else Used(s, q) {
    }
    forall q: Key, i: int | Place(s', q, i) && Used(s', q) <= i ensures Queue(s', q)[i] !in s'.issued {
      assert Place(s, q, i);
    }
    forall q: Key, i: int | Place(s', q, i) ensures Queue(s', q)[i] in s'.reserved {
      assert Place(s, q, i);
    }
    forall q: Key, i: int, q': Key, i': int | Place(s', q, i) && Place(s', q', i') && Queue(s', q)[i] == Queue(s', q')[i']
      ensures q == q' && i == i'
    {
      assert Place(s, q, i) && Place(s, q', i');
    }
  }

  lemma LiveMiss(s: State, s': State, id: string)
    requires Live(s) && id !in s.reserved && s' == s.(issued := s.issued + {id})
    ensures Live(s')
  {
    forall q: Key ensures Queue(s', q) == Queue(s, q) && Used(s', q) == Used(s, q) {
    }
    forall q: Key, i: int | Place(s', q, i) && Used(s', q) <= i ensures Queue(s', q)[i] !in s'.issued {
      assert Place(s, q, i);
    }
    forall q: Key, i: int | Place(s', q, i) ensures Queue(s', q)[i] in s'.reserved {
      assert Place(s, q, i);
    }
    forall q: Key, i: int, q': Key, i': int | Place(s', q, i) && Place(s', q', i') && Queue(s', q)[i] == Queue(s', q')[i']
      ensures q == q' && i == i'
    {
      assert Place(s, q, i) && Place(s, q', i');
    }
  }

  /** The place in its queue that request n is entitled to. */
  function Turn(s: State, reqs: seq<Request>, n: nat): nat
    requires n < |reqs|
  {
    Used(s, NodeKey(reqs[n])) + Rank(reqs, n, NodeKey(reqs[n]))
  }

  ghost predicate Covered(s: State, reqs: seq<Request>) {
    forall n :: 0 <= n < |reqs| ==> Turn(s, reqs, n) < |Queue(s, NodeKey(reqs[n]))|
  }

  lemma StepTurn(s: State, s': State, reqs: seq<Request>, n: nat)
    requires n + 1 < |reqs|
    requires s'.ids == s.ids
    requires Used(s, NodeKey(reqs[0])) < |Queue(s, NodeKey(reqs[0]))|
    requires s'.used == s.used[NodeKey(reqs[0]) := Used(s, NodeKey(reqs[0])) + 1]
    ensures Turn(s', reqs[1..], n) == Turn(s, reqs, n + 1)
  {
  }

  lemma FirstTurn(s: State, reqs: seq<Request>)
    requires reqs != []
    ensures Turn(s, reqs, 0) == Used(s, NodeKey(reqs[0]))
  {
  }

  lemma MissTurn(s: State, s': State, reqs: seq<Request>, n: nat)
    requires n + 1 < |reqs|
    requires s'.ids == s.ids && s'.used == s.used
    requires Used(s, NodeKey(reqs[0])) >= |Queue(s, NodeKey(reqs[0]))|
    ensures Queue(s', NodeKey(reqs[n + 1])) == Queue(s, NodeKey(reqs[n + 1]))
    ensures Turn(s', reqs[1..], n) == Turn(s, reqs, n + 1)
      || (Turn(s', reqs[1..], n) >= |Queue(s, NodeKey(reqs[n + 1]))| && Turn(s, reqs, n + 1) >= |Queue(s, NodeKey(reqs[n + 1]))|)
  {
  }

  /**
   * Without native keys, fingerprints are matched first in, first out: the n-th request for a fingerprint gets the
   * n-th previous id with it, whatever other fingerprints come in between, and requests beyond those get ids that
   * no previous object had. Runs that mix in native keys are the subject of Reextraction.
   */
  lemma {:induction false} FifoMatching(hash: Seed -> string, s: State, retain: bool, reqs: seq<Request>, n: nat)
    requires Injective(hash) && Live(s) && n < |reqs| && AllAnchored(reqs)
    requires !retain || Covered(s, reqs)
    ensures |Run(hash, s, retain, reqs)| == |reqs|
    ensures var id, q := Run(hash, s, retain, reqs)[n], Queue(s, NodeKey(reqs[n]));
      if Turn(s, reqs, n) < |q| then id == q[Turn(s, reqs, n)] else id !in s.reserved
    decreases |reqs|
  {
    hide Allocate, Live, Injective, Turn, Rank;
    RunLength(hash, s, retain, reqs);
    var k := NodeKey(reqs[0]);
    var (s', id) := Allocate(hash, s, retain, reqs[0]);
    var hit := Used(s, k) < |Queue(s, k)|;
    FirstTurn(s, reqs);
    if hit {
      Hit(hash, s, retain, reqs[0]);
      LiveHit(s, s', k);
    } else {
      Miss(hash, s, reqs[0]);
      LiveMiss(s, s', id);
    }
    if n == 0 {
    } else {
      if retain { CoveredTail(s, s', reqs); }
      FifoMatching(hash, s', retain, reqs[1..], n - 1);
      assert reqs[1..][n - 1] == reqs[n];
      if hit { StepTurn(s, s', reqs, n - 1); } else { MissTurn(s, s', reqs, n - 1); }
    }
  }

  lemma CoveredTail(s: State, s': State, reqs: seq<Request>)
    requires reqs != [] && Covered(s, reqs)
    requires s'.ids == s.ids && Used(s, NodeKey(reqs[0])) < |Queue(s, NodeKey(reqs[0]))|
    requires s'.used == s.used[NodeKey(reqs[0]) := Used(s, NodeKey(reqs[0])) + 1]
    ensures Covered(s', reqs[1..])
  {
    hide Turn;
    forall n | 0 <= n < |reqs[1..]| ensures Turn(s', reqs[1..], n) < |Queue(s', NodeKey(reqs[1..][n]))| {
      StepTurn(s, s', reqs, n);
      assert reqs[1..][n] == reqs[n + 1];
    }
  }

  lemma {:induction false} RunLength(hash: Seed -> string, s: State, retain: bool, reqs: seq<Request>)
    requires Injective(hash)
    ensures |Run(hash, s, retain, reqs)| == |reqs|
    decreases |reqs|
  {
    hide Allocate, Injective;
    if reqs == [] {
    } else {
      RunLength(hash, Allocate(hash, s, retain, reqs[0]).0, retain, reqs[1..]);
    }
  }

  // ------------------------------------------------------- starting from a revision

  ghost predicate DistinctIds(records: seq<Record>) {
    forall i, j :: 0 <= i < j < |records| ==> records[i].id != records[j].id
  }

  /** Which record stands at place i of the queue for k. */
  function Source(records: seq<Record>, k: Key, i: nat): (n: nat)
    requires i < |Recorded(records, k)|
    ensures n < |records| && Keyed(records[n], k) && records[n].id == Recorded(records, k)[i]
    ensures i == |Recorded(records[..n], k)|
  {
    if Keyed(records[0], k) then
      if i == 0 then
        assert records[..0] == [];
        0
      else
        RecordedStep(records, k, Source(records[1..], k, i - 1));
        1 + Source(records[1..], k, i - 1)
    else
      RecordedStep(records, k, Source(records[1..], k, i));
      1 + Source(records[1..], k, i)
  }

  lemma RecordedStep(records: seq<Record>, k: Key, n: nat)
    requires records != [] && n < |records[1..]|
    ensures |Recorded(records[..n + 1], k)| == (if Keyed(records[0], k) then 1 else 0) + |Recorded(records[1..][..n], k)|
  {
    assert records[..n + 1][1..] == records[1..][..n];
  }

  /** The index of a revision with unique ids is ready for matching. */
  lemma LiveAtStart(records: seq<Record>)
    requires DistinctIds(records)
    ensures Live(Index(EMPTY, records))
  {
    hide Recorded, Index, Keyed;
    var s := Index(EMPTY, records);
    StartFacts(records);
    forall k: Key, i: int, k': Key, i': int | Place(s, k, i) && Place(s, k', i') && Queue(s, k)[i] == Queue(s, k')[i']
      ensures k == k' && i == i'
    {
      var n, n' := Source(records, k, i), Source(records, k', i');
      assert n == n';
      OneKey(records[n], k, k');
    }
    forall k: Key, i: int | Place(s, k, i) ensures Queue(s, k)[i] in s.reserved {
      var n := Source(records, k, i);
      assert records[n].id in Ids(records);
    }
  }

  lemma StartFacts(records: seq<Record>)
    ensures forall k: Key :: Queue(Index(EMPTY, records), k) == Recorded(records, k)
    ensures Index(EMPTY, records).reserved == Ids(records)
    ensures Index(EMPTY, records).issued == {} && Index(EMPTY, records).used == map[]
  {
    hide Recorded, Index, Keyed;
    IndexReserves(EMPTY, records);
    forall k: Key ensures Queue(Index(EMPTY, records), k) == Recorded(records, k) {
      IndexHolds(EMPTY, records, k);
      assert Queue(EMPTY, k) == [];
    }
    IndexHolds(EMPTY, records, Key("", "", ""));
  }

  lemma OneKey(r: Record, k: Key, k': Key)
    requires Keyed(r, k) && Keyed(r, k')
    ensures k == k'
  {
  }

  /** The ids given to the requests with key k, in order. */
  function Given(reqs: seq<Request>, ids: seq<string>, k: Key): seq<string>
    requires |ids| == |reqs|
  {
    if reqs == [] then []
    else (if NodeKey(reqs[0]) == k then [ids[0]] else []) + Given(reqs[1..], ids[1..], k)
  }

  lemma {:induction false} GivenAt(reqs: seq<Request>, ids: seq<string>, n: nat)
    requires |ids| == |reqs| && n < |reqs|
    ensures var k := NodeKey(reqs[n]);
      Rank(reqs, n, k) < |Given(reqs, ids, k)| && Given(reqs, ids, k)[Rank(reqs, n, k)] == ids[n]
    decreases |reqs|
  {
    hide NodeKey;
    if n == 0 {
    } else {
      GivenAt(reqs[1..], ids[1..], n - 1);
      assert reqs[1..][n - 1] == reqs[n] && ids[1..][n - 1] == ids[n];
    }
  }
}
