/** Ids kept by place. */
module PathIdentity {
  import opened Prelude
  import opened Identity
  import opened Numerals
  import opened Reextraction

  // ------------------------------------------------------------- what stands at a path

  /** The record was read at the place of the request. */
  predicate StandsAt(rec: Record, r: Request) {
    && r.node.Some? && rec.anchor.Some?
    && rec.anchor.value.part != "" && rec.anchor.value.digest != ""
    && rec.kind == r.kind && rec.anchor.value.part == r.part && rec.anchor.value.path == r.node.value.path
  }

  /** Record m is the only one at the place of the request. */
  ghost predicate AloneAt(records: seq<Record>, m: int, r: Request) {
    && 0 <= m < |records| && StandsAt(records[m], r)
    && forall j :: 0 <= j < |records| && j != m ==> !StandsAt(records[j], r)
  }

  function PathKey(r: Request): Key
    requires r.node.Some?
  {
    Key(r.kind, r.part, r.node.value.path)
  }

  lemma RememberPath(s: State, rec: Record, r: Request)
    requires r.node.Some?
    ensures var p, after := PathKey(r), Remember(s, rec).path;
      if !StandsAt(rec, r) then (p in after <==> p in s.path) && Lookup(after, p) == Lookup(s.path, p)
      else p in after && Lookup(after, p) == if p in s.path then "" else rec.id
  {
  }

  lemma {:induction false} PathTaken(s: State, records: seq<Record>, r: Request)
    requires r.node.Some? && PathKey(r) in s.path
    ensures Lookup(Index(s, records).path, PathKey(r))
         == if exists j :: 0 <= j < |records| && StandsAt(records[j], r) then "" else Lookup(s.path, PathKey(r))
    decreases |records|
  {
    hide Remember, StandsAt, Lookup;
    if records == [] {
    } else {
      RememberPath(s, records[0], r);
      PathTaken(Remember(s, records[0]), records[1..], r);
      Tails(records, r);
    }
  }

  lemma Tails(records: seq<Record>, r: Request)
    requires records != []
    ensures (exists j :: 0 <= j < |records| && StandsAt(records[j], r))
       <==> StandsAt(records[0], r) || exists j :: 0 <= j < |records[1..]| && StandsAt(records[1..][j], r)
  {
    hide StandsAt;
    if j :| 0 <= j < |records| && StandsAt(records[j], r) {
      if j > 0 { assert records[1..][j - 1] == records[j]; }
    }
    if j :| 0 <= j < |records[1..]| && StandsAt(records[1..][j], r) { assert records[j + 1] == records[1..][j]; }
  }

  /** The index knows an id for a place if exactly one record stands there. */
  lemma {:induction false} PathFree(s: State, records: seq<Record>, r: Request)
    requires r.node.Some? && PathKey(r) !in s.path
    ensures forall m :: AloneAt(records, m, r) ==> Lookup(Index(s, records).path, PathKey(r)) == records[m].id
    ensures (forall m :: !AloneAt(records, m, r)) ==> Lookup(Index(s, records).path, PathKey(r)) == ""
    decreases |records|
  {
    hide Remember, StandsAt;
    if records == [] {
    } else {
      var rest := records[1..];
      RememberPath(s, records[0], r);
      if StandsAt(records[0], r) {
        PathTaken(Remember(s, records[0]), rest, r);
        FirstAlone(records, r);
      } else {
        PathFree(Remember(s, records[0]), rest, r);
        forall m ensures AloneAt(records, m, r) <==> m >= 1 && AloneAt(rest, m - 1, r) { LaterAlone(records, m, r); }
        if m :| AloneAt(rest, m, r) { assert AloneAt(records, m + 1, r); }
      }
    }
  }

  lemma FirstAlone(records: seq<Record>, r: Request)
    requires records != [] && StandsAt(records[0], r)
    ensures AloneAt(records, 0, r) <==> !exists j :: 0 <= j < |records[1..]| && StandsAt(records[1..][j], r)
    ensures forall m :: AloneAt(records, m, r) ==> m == 0
  {
    hide StandsAt;
    assert forall j :: 1 <= j < |records| ==> records[j] == records[1..][j - 1];
    if j :| 0 <= j < |records[1..]| && StandsAt(records[1..][j], r) { assert StandsAt(records[j + 1], r); }
  }

  lemma LaterAlone(records: seq<Record>, m: int, r: Request)
    requires records != [] && !StandsAt(records[0], r)
    ensures AloneAt(records, m, r) <==> m >= 1 && AloneAt(records[1..], m - 1, r)
  {
    hide StandsAt;
    assert forall j :: 1 <= j < |records| ==> records[j] == records[1..][j - 1];
    if m >= 1 && AloneAt(records[1..], m - 1, r) {
      forall j | 0 <= j < |records| && j != m ensures !StandsAt(records[j], r) {
        if j > 0 { assert !StandsAt(records[1..][j - 1], r); }
      }
    }
    if AloneAt(records, m, r) {
      forall j | 0 <= j < |records[1..]| && j != m - 1 ensures !StandsAt(records[1..][j], r) {
        assert !StandsAt(records[j + 1], r);
      }
    }
  }

  // -------------------------------------------------------------------- one request

  /** No id of the queue is left. */
  ghost predicate Exhausted(s: State, k: Key) {
    forall i :: 0 <= i < |Queue(s, k)| ==> Queue(s, k)[i] in s.issued
  }

  lemma NothingLeft(s: State, k: Key)
    requires Exhausted(s, k)
    ensures Take(Queue(s, k), Used(s, k), s.issued).1 == None
  {
    hide Take;
    var t := Take(Queue(s, k), Used(s, k), s.issued);
  }

  /** A request that neither its native key nor its fingerprint decides: the id at its place, or a new one. */
  lemma PlaceStep(hash: Seed -> string, s: State, retain: bool, r: Request)
    requires Injective(hash) && Queues(s, r) && Exhausted(s, NodeKey(r))
    ensures var here, id := Lookup(s.path, PathKey(r)), Allocate(hash, s, retain, r).1;
      && (retain && here != "" && here !in s.issued ==> id == here)
      && (!(retain && here != "" && here !in s.issued) ==>
            if r.native == "" then id == Fresh(hash, Seed(r.kind, r.part, r.node.value.path, ""), Seed(r.kind, r.part, r.node.value.path, ""), r.node.value.digest, s.reserved + s.issued)
            else id == Fresh(hash, Seed(r.kind, r.part, "", r.native), Seed(r.kind, r.part, r.node.value.path, ""), r.native, s.issued))
  {
    hide Injective, Take, Fresh;
    NothingLeft(s, NodeKey(r));
  }

  // ----------------------------------------------------------------------- in a run

  /** The only record at the request's place, with an id that is still free. */
  ghost predicate KeptAt(records: seq<Record>, m: int, r: Request, issued: seq<string>) {
    AloneAt(records, m, r) && records[m].id != "" && records[m].id !in issued
  }

  /** What the native key of the request was last recorded for has been issued. */
  ghost predicate NoClaim(records: seq<Record>, r: Request, issued: seq<string>) {
    r.native != "" ==> forall m :: IsLatest(records, NativeKey(r), m) ==> records[m].id == "" || records[m].id in issued
  }

  /** What its fingerprint was recorded for has been issued. */
  ghost predicate NoMatch(records: seq<Record>, r: Request, issued: seq<string>) {
    forall m :: 0 <= m < |records| && Keyed(records[m], NodeKey(r)) ==> records[m].id in issued
  }

  lemma ClaimIs(records: seq<Record>, r: Request, issued: seq<string>)
    requires NoClaim(records, r, issued)
    ensures Claim(Index(EMPTY, records), r) == "" || Claim(Index(EMPTY, records), r) in issued
  {
    hide Index, Latest;
    if r.native != "" {
      IndexNative(EMPTY, records, NativeKey(r));
      var j := LatestIs("", records, NativeKey(r));
    }
  }

  lemma {:induction false} RecordedFrom(records: seq<Record>, k: Key, i: nat) returns (m: nat)
    requires i < |Recorded(records, k)|
    ensures m < |records| && Keyed(records[m], k) && records[m].id == Recorded(records, k)[i]
  {
    m := Source(records, k, i);
  }

  /** The k-th salted hash for an object without an earlier id. */
  function SaltedId(hash: Seed -> string, r: Request, k: nat): string
    requires r.node.Some?
  {
    hash(Seed(r.kind, r.part, r.node.value.path, (if r.native == "" then r.node.value.digest else r.native) + ":" + Numeral(k)))
  }

  /** A new id: the hash of the native key, or of the path if there is none; if that is taken, of the first free salt. */
  ghost predicate NewId(hash: Seed -> string, r: Request, taken: set<string>, id: string)
    requires r.node.Some?
  {
    var plain := hash(if r.native == "" then Seed(r.kind, r.part, r.node.value.path, "") else Seed(r.kind, r.part, "", r.native));
    if plain !in taken then id == plain
    else exists k: nat :: id == SaltedId(hash, r, k) && id !in taken && forall j: nat :: j < k ==> SaltedId(hash, r, j) in taken
  }

  lemma {:induction false} FirstFreeIs(hash: Seed -> string, base: Seed, stem: string, taken: set<string>, n: nat) returns (k: nat)
    requires Injective(hash) && TriedAll(hash, base, stem, taken, n)
    ensures FirstFree(hash, base, stem, taken, n) == hash(SaltedSeed(base, stem, k))
    ensures hash(SaltedSeed(base, stem, k)) !in taken
    ensures forall j: nat :: j < k ==> hash(SaltedSeed(base, stem, j)) in taken
    decreases |taken| + 1 - n
  {
    SaltsBounded(hash, base, stem, taken, n);
    if hash(SaltedSeed(base, stem, n)) in taken {
      k := FirstFreeIs(hash, base, stem, taken, n + 1);
    } else {
      k := n;
    }
  }

  /** What the allocator makes up for an object without an earlier id. */
  lemma FreshIs(hash: Seed -> string, r: Request, taken: set<string>)
    requires Injective(hash) && r.node.Some?
    ensures var base := Seed(r.kind, r.part, r.node.value.path, "");
      NewId(hash, r, taken, if r.native == "" then Fresh(hash, base, base, r.node.value.digest, taken)
                            else Fresh(hash, Seed(r.kind, r.part, "", r.native), base, r.native, taken))
  {
    hide Injective, FirstFree;
    var base, stem := Seed(r.kind, r.part, r.node.value.path, ""), if r.native == "" then r.node.value.digest else r.native;
    var plain := hash(if r.native == "" then base else Seed(r.kind, r.part, "", r.native));
    if plain in taken {
      var k := FirstFreeIs(hash, base, stem, taken, 0);
      forall j: nat ensures SaltedId(hash, r, j) == hash(SaltedSeed(base, stem, j)) {
      }
      assert FirstFree(hash, base, stem, taken, 0) == SaltedId(hash, r, k);
    }
  }

  /**
   * In any run over a revision: a request that neither its native key nor its fingerprint decides keeps the id
   * recorded at its kind, part and path if and only if places are retained, exactly one record stands there, and
   * its id is not empty and not yet issued. Otherwise it gets a new id, which without a native key is none of a record.
   */
  lemma KeptByPath(hash: Seed -> string, records: seq<Record>, retain: bool, reqs: seq<Request>, n: nat)
    requires Injective(hash) && AllNamed(reqs) && n < |reqs| && reqs[n].node.Some?
    requires |Run(hash, Index(EMPTY, records), retain, reqs)| == |reqs|
    requires var issued := Run(hash, Index(EMPTY, records), retain, reqs)[..n];
      NoClaim(records, reqs[n], issued) && NoMatch(records, reqs[n], issued)
    ensures var r, ids := reqs[n], Run(hash, Index(EMPTY, records), retain, reqs);
      && (forall m :: retain && KeptAt(records, m, r, ids[..n]) ==> ids[n] == records[m].id)
      && (!(retain && exists m :: KeptAt(records, m, r, ids[..n])) ==>
            NewId(hash, r, (if r.native == "" then Ids(records) else {}) + IdSet(ids[..n]), ids[n]))
  {
    hide Injective, Index, Run, Allocate, Take, Fresh, Consumed, AllNamed, AloneAt, StandsAt, Lookup, NoClaim, NoMatch, NewId;
    var s0, r := Index(EMPTY, records), reqs[n];
    var ids := Run(hash, s0, retain, reqs);
    var t := StateAfter(hash, s0, retain, reqs[..n]);
    Ready(hash, records, retain, reqs, n);
    PlaceStep(hash, t, retain, r);
    HereIs(records, r, ids[..n]);
    forall x ensures x in t.issued <==> x in IdSet(ids[..n]) { IdSetIs(ids[..n], x); }
    assert t.issued == IdSet(ids[..n]);
    FreshIs(hash, r, if r.native == "" then t.reserved + t.issued else t.issued);
    assert {} + t.issued == t.issued;
  }

  /** What the index knows about the place. */
  lemma HereIs(records: seq<Record>, r: Request, issued: seq<string>)
    requires r.node.Some?
    ensures var here := Lookup(Index(EMPTY, records).path, PathKey(r));
      && (forall m :: KeptAt(records, m, r, issued) ==> here == records[m].id)
      && (here != "" && here !in issued <==> exists m :: KeptAt(records, m, r, issued))
  {
    hide Index, StandsAt;
    PathFree(EMPTY, records, r);
    var here := Lookup(Index(EMPTY, records).path, PathKey(r));
    if m :| AloneAt(records, m, r) {
      assert here == records[m].id;
      assert here != "" && here !in issued ==> KeptAt(records, m, r, issued);
    }
  }

  /** The state in which request n is made. */
  lemma Ready(hash: Seed -> string, records: seq<Record>, retain: bool, reqs: seq<Request>, n: nat)
    requires Injective(hash) && AllNamed(reqs) && n < |reqs| && reqs[n].node.Some?
    requires |Run(hash, Index(EMPTY, records), retain, reqs)| == |reqs|
    requires var issued := Run(hash, Index(EMPTY, records), retain, reqs)[..n];
      NoClaim(records, reqs[n], issued) && NoMatch(records, reqs[n], issued)
    ensures var s0, r := Index(EMPTY, records), reqs[n];
      var ids, t := Run(hash, s0, retain, reqs), StateAfter(hash, s0, retain, reqs[..n]);
      && ids[n] == Allocate(hash, t, retain, r).1
      && t.path == s0.path && t.reserved == Ids(records) && (forall x :: x in t.issued <==> x in ids[..n])
      && Queues(t, r) && Exhausted(t, NodeKey(r))
  {
    hide Injective, Index, Allocate, AllNamed, Recorded, Keyed, IdSet;
    var s0, r := Index(EMPTY, records), reqs[n];
    var ids, t := Run(hash, s0, retain, reqs), StateAfter(hash, s0, retain, reqs[..n]);
    StartFacts(records);
    StartConsumed(records);
    RunSplits(hash, s0, retain, reqs, n);
    Prefix(reqs, n);
    StateFacts(hash, s0, retain, reqs[..n]);
    assert ids[..n] == Run(hash, s0, retain, reqs[..n]);
    assert reqs[n..][0] == r;
    forall x ensures x in t.issued <==> x in ids[..n] { IdSetIs(ids[..n], x); }
    ClaimIs(records, r, ids[..n]);
    forall i | 0 <= i < |Queue(t, NodeKey(r))| ensures Queue(t, NodeKey(r))[i] in t.issued {
      var m := RecordedFrom(records, NodeKey(r), i);
    }
  }

  lemma Prefix(reqs: seq<Request>, n: nat)
    requires AllNamed(reqs) && n <= |reqs|
    ensures AllNamed(reqs[..n])
  {
  }

  lemma StartConsumed(records: seq<Record>)
    ensures Consumed(Index(EMPTY, records))
  {
    hide Index, Recorded;
    StartFacts(records);
  }

  // ------------------------------------------------------------- a whole edited revision

  /** The same objects at the same places; content, and with it fingerprints and native keys, may have changed. */
  ghost predicate SamePlaces(reqs: seq<Request>, later: seq<Request>) {
    && |later| == |reqs| && AllRooted(later)
    && forall i :: 0 <= i < |reqs| ==> SamePlace(reqs[i], later[i])
  }

  predicate SamePlace(r: Request, q: Request) {
    r.node.Some? && q.node.Some? && r.kind == q.kind && r.part == q.part && r.node.value.path == q.node.value.path
  }

  ghost predicate DistinctPlaces(reqs: seq<Request>) {
    forall i, j :: 0 <= i < j < |reqs| ==> !SamePlace(reqs[i], reqs[j])
  }

  /**
   * Object n is taken for no other: no later object had its native key before the edit, and none its fingerprint
   * unless the object has kept its own native key or fingerprint.
   */
  ghost predicate Known(reqs: seq<Request>, later: seq<Request>, n: nat)
    requires n < |reqs| == |later|
  {
    && (forall m :: n < m < |reqs| ==> !Twins(later[n], reqs[m]))
    && (Twins(later[n], reqs[n]) || NodeKey(later[n]) == NodeKey(reqs[n])
        || forall m :: n < m < |reqs| ==> NodeKey(reqs[m]) != NodeKey(later[n]))
  }

  /** What is listed under the native key of a request: the last object that had it. */
  lemma ClaimOf(reqs: seq<Request>, ids: seq<string>, q: Request) returns (j: int)
    requires |ids| == |reqs| && AllFingerprinted(reqs)
    ensures j < |reqs| && forall m :: 0 <= m < |reqs| && j < m ==> !Twins(q, reqs[m])
    ensures j >= 0 ==> Twins(q, reqs[j])
    ensures Claim(Index(EMPTY, Listed(reqs, ids)), q) == if j < 0 then "" else ids[j]
  {
    hide Index, Latest;
    var k, records := NativeKey(q), Listed(reqs, ids);
    if q.native == "" { return -1; }
    IndexNative(EMPTY, records, k);
    j := LatestIs("", records, k);
    forall m | 0 <= m < |reqs| ensures NativelyKeyed(records[m], k) <==> Twins(q, reqs[m]) {
      assert records[m] == RecordOf(reqs[m], ids[m]);
    }
  }

  lemma {:induction false} RankSame(reqs: seq<Request>, n: nat, m: nat, k: Key)
    requires n <= m <= |reqs| && forall i :: n <= i < m ==> NodeKey(reqs[i]) != k
    ensures Rank(reqs, m, k) == Rank(reqs, n, k)
    decreases m
  {
    hide NodeKey;
    if n > 0 {
      assert forall i :: n - 1 <= i < m - 1 ==> reqs[1..][i] == reqs[i + 1];
      RankSame(reqs[1..], n - 1, m - 1, k);
    } else if m > 0 {
      assert forall i :: 0 <= i < m - 1 ==> reqs[1..][i] == reqs[i + 1];
      RankSame(reqs[1..], 0, m - 1, k);
    }
  }

  lemma {:induction false} GivenCount(reqs: seq<Request>, ids: seq<string>, k: Key)
    requires |ids| == |reqs|
    ensures |Given(reqs, ids, k)| == Rank(reqs, |reqs|, k)
  {
    hide NodeKey;
    if reqs == [] {
    } else {
      GivenCount(reqs[1..], ids[1..], k);
    }
  }

  /** The first object from n on that had fingerprint key k, or the number of objects. */
  lemma {:induction false} FirstFrom(reqs: seq<Request>, n: nat, k: Key) returns (m: nat)
    requires n <= |reqs|
    ensures n <= m <= |reqs| && (m < |reqs| ==> NodeKey(reqs[m]) == k) && forall i :: n <= i < m ==> NodeKey(reqs[i]) != k
    decreases |reqs| - n
  {
    if n == |reqs| || NodeKey(reqs[n]) == k {
      m := n;
    } else {
      m := FirstFrom(reqs, n + 1, k);
    }
  }

  /** What is left of a queue when the first n objects have got their ids back. */
  lemma QueueLeft(s0: State, s: State, reqs: seq<Request>, ids: seq<string>, n: nat, k: Key) returns (m: nat)
    requires |ids| == |reqs| && n < |reqs| && Distinct(ids) && Midway(s0, s, ids, n)
    requires Queue(s0, k) == Given(reqs, ids, k)
    ensures n <= m <= |reqs| && (m < |reqs| ==> NodeKey(reqs[m]) == k) && forall i :: n <= i < m ==> NodeKey(reqs[i]) != k
    ensures var p := Rank(reqs, n, k);
      if m < |reqs| then FirstFreeAt(Queue(s, k), p, s.issued) && Queue(s, k)[p] == ids[m] else Exhausted(s, k)
  {
    hide Given, Rank, Consumed, Distinct, IdSet, NodeKey;
    m := FirstFrom(reqs, n, k);
    RankSame(reqs, n, m, k);
    if m < |reqs| {
      GivenAt(reqs, ids, m);
      NotYetIssued(ids, n, m);
    } else {
      GivenCount(reqs, ids, k);
    }
    forall i | 0 <= i < Rank(reqs, n, k) ensures i < |Queue(s, k)| && Queue(s, k)[i] in s.issued {
      GivenBefore(reqs, ids, k, n, i);
      IdSetIs(ids[..n], Queue(s, k)[i]);
    }
  }

  /** One object of the edited revision. */
  lemma EditStep(hash: Seed -> string, s: State, reqs: seq<Request>, later: seq<Request>, ids: seq<string>, n: nat)
    requires Injective(hash) && |ids| == |reqs| && n < |reqs| && Distinct(ids) && "" !in ids && AllFingerprinted(reqs)
    requires SamePlaces(reqs, later) && DistinctPlaces(reqs)
    requires Midway(Index(EMPTY, Listed(reqs, ids)), s, ids, n)
    ensures Allocate(hash, s, true, later[n]).1 == ids[n] <==> Known(reqs, later, n)
    ensures Known(reqs, later, n) ==> Midway(Index(EMPTY, Listed(reqs, ids)), Allocate(hash, s, true, later[n]).0, ids, n + 1)
  {
    hide Given, Rank, Consumed, Distinct, IdSet, Allocate, Injective, FirstFreeAt, Midway, Index, Listed, Twins, NodeKey, Exhausted, AllFingerprinted, SamePlaces, DistinctPlaces, Named;
    LaterRooted(reqs, later, n);
    var s0, q := Index(EMPTY, Listed(reqs, ids)), later[n];
    var k := NodeKey(q);
    MidwayFacts(s0, s, ids, n);
    var j := ClaimOf(reqs, ids, q);
    if j >= 0 {
      IdSetIs(ids[..n], ids[j]);
      EarlierId(ids, n, j);
    }
    if j >= n {
      assert Claim(s, q) == ids[j];
      ClaimStep(hash, s, true, q);
    } else {
      ListedGiven(reqs, ids, k);
      QueueIs(reqs, ids, k);
      var m := QueueLeft(s0, s, reqs, ids, n, k);
      if m < |reqs| {
        QueueStep(hash, s, true, q, Rank(reqs, n, k));
        EarlierId(ids, n, m);
      } else {
        PlaceStep(hash, s, true, q);
        OwnPath(reqs, later, ids, n);
        NotYetIssued(ids, n, n);
      }
    }
    if Allocate(hash, s, true, q).1 == ids[n] { Advanced(hash, s0, s, q, ids, n); }
  }

  lemma LaterRooted(reqs: seq<Request>, later: seq<Request>, n: nat)
    requires n < |reqs| && SamePlaces(reqs, later) && AllFingerprinted(reqs)
    ensures AllRooted(reqs) && |later| == |reqs| && Rooted(later[n]) && Named(later[n])
  {
  }

  lemma EarlierId(ids: seq<string>, n: nat, j: nat)
    requires Distinct(ids) && j < |ids| && n < |ids|
    ensures ids[j] in ids[..n] <==> j < n
    ensures ids[j] == ids[n] <==> j == n
  {
    if j < n { assert ids[..n][j] == ids[j]; }
  }

  lemma QueueIs(reqs: seq<Request>, ids: seq<string>, k: Key)
    requires |ids| == |reqs| && AllFingerprinted(reqs)
    ensures Queue(Index(EMPTY, Listed(reqs, ids)), k) == Given(reqs, ids, k)
  {
    hide Index, Listed, Given, Recorded;
    ListedGiven(reqs, ids, k);
    StartFacts(Listed(reqs, ids));
  }

  /** An object that has got its old id goes on as before. */
  lemma Advanced(hash: Seed -> string, s0: State, s: State, q: Request, ids: seq<string>, n: nat)
    requires Injective(hash) && n < |ids| && Midway(s0, s, ids, n) && Named(q) && Allocate(hash, s, true, q).1 == ids[n]
    ensures Midway(s0, Allocate(hash, s, true, q).0, ids, n + 1)
  {
    hide Consumed, IdSet, Allocate, Injective, Midway, Named;
    MidwayFacts(s0, s, ids, n);
    AllocateNew(hash, s, true, q);
    AllocateKeeps(hash, s, true, q);
    ConsumedStep(hash, s, true, q);
    OneMoreIssued(ids, n);
    MidwayIs(s0, Allocate(hash, s, true, q).0, ids, n + 1);
  }

  /** The object's own record is the only one at its place. */
  lemma OwnPath(reqs: seq<Request>, later: seq<Request>, ids: seq<string>, n: nat)
    requires |ids| == |reqs| && n < |reqs| && AllFingerprinted(reqs) && SamePlaces(reqs, later) && DistinctPlaces(reqs)
    ensures later[n].node.Some? && Lookup(Index(EMPTY, Listed(reqs, ids)).path, PathKey(later[n])) == ids[n]
  {
    hide Index;
    var records := Listed(reqs, ids);
    forall j | 0 <= j < |records| ensures StandsAt(records[j], later[n]) <==> j == n {
      assert Fingerprinted(reqs[j]) && SamePlace(reqs[n], later[n]);
      assert records[j] == RecordOf(reqs[j], ids[j]);
    }
    assert AloneAt(records, n, later[n]);
    PathFree(EMPTY, records, later[n]);
  }

  lemma {:induction false} EditFrom(hash: Seed -> string, s: State, reqs: seq<Request>, later: seq<Request>, ids: seq<string>, n: nat)
    requires Injective(hash) && |ids| == |reqs| && n <= |reqs| && Distinct(ids) && "" !in ids && AllFingerprinted(reqs)
    requires SamePlaces(reqs, later) && DistinctPlaces(reqs)
    requires Midway(Index(EMPTY, Listed(reqs, ids)), s, ids, n)
    ensures Run(hash, s, true, later[n..]) == ids[n..] <==> forall m :: n <= m < |reqs| ==> Known(reqs, later, m)
    decreases |reqs| - n
  {
    hide Allocate, Injective, Distinct, Midway, Known, Index, Listed, SamePlaces, DistinctPlaces, AllFingerprinted;
    if n == |reqs| {
      NothingLater(reqs, later);
    } else {
      LaterRooted(reqs, later, n);
      EditStep(hash, s, reqs, later, ids, n);
      var (s', id) := Allocate(hash, s, true, later[n]);
      assert later[n..][0] == later[n] && later[n..][1..] == later[n + 1..];
      var rest := Run(hash, s', true, later[n + 1..]);
      assert Run(hash, s, true, later[n..]) == [id] + rest;
      assert ids[n..] == [ids[n]] + ids[n + 1..];
      if Known(reqs, later, n) {
        EditFrom(hash, s', reqs, later, ids, n + 1);
        assert [id] + rest == [ids[n]] + ids[n + 1..] <==> rest == ids[n + 1..] by { SameHead(ids[n], rest, ids[n + 1..]); }
      } else {
        assert ([id] + rest)[0] != ([ids[n]] + ids[n + 1..])[0];
      }
    }
  }

  lemma NothingLater(reqs: seq<Request>, later: seq<Request>)
    requires SamePlaces(reqs, later)
    ensures |later| == |reqs|
  {
  }

  /**
   * After an edit that leaves every object in its place, with places retained, all ids are kept if and only if no
   * object is taken for a later one.
   */
  lemma EditsKeepIds(hash: Seed -> string, s: State, retain: bool, reqs: seq<Request>, later: seq<Request>)
    requires Injective(hash) && AllFingerprinted(reqs) && "" !in Run(hash, s, retain, reqs)
    requires SamePlaces(reqs, later) && DistinctPlaces(reqs)
    ensures |Run(hash, s, retain, reqs)| == |reqs|
    ensures Run(hash, Index(EMPTY, Listed(reqs, Run(hash, s, retain, reqs))), true, later) == Run(hash, s, retain, reqs)
       <==> forall n :: 0 <= n < |reqs| ==> Known(reqs, later, n)
  {
    hide Recorded, Index, Run, Injective, Known, SamePlaces, DistinctPlaces, Allocate;
    var ids := Run(hash, s, retain, reqs);
    IssuedOnce(hash, s, retain, reqs);
    var s0 := Index(EMPTY, Listed(reqs, ids));
    StartFacts(Listed(reqs, ids));
    StartConsumed(Listed(reqs, ids));
    NothingLater(reqs, later);
    assert ids[..0] == [] && IdSet([]) == {};
    MidwayIs(s0, s0, ids, 0);
    assert later[0..] == later && ids[0..] == ids;
    EditFrom(hash, s0, reqs, later, ids, 0);
  }
}
