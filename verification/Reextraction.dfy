/** Extracting again: when every object keeps its id. */
module Reextraction {
  import opened Prelude
  import opened Identity

  // ------------------------------------------------- runs with and without native keys

  /** The state after a run. */
  function StateAfter(hash: Seed -> string, s: State, retain: bool, reqs: seq<Request>): State
    requires Injective(hash)
    decreases |reqs|
  {
    if reqs == [] then s else StateAfter(hash, Allocate(hash, s, retain, reqs[0]).0, retain, reqs[1..])
  }

  /** What the queues have passed over has been issued. */
  ghost predicate Consumed(s: State) {
    forall k: Key, i: int :: Place(s, k, i) && i < Used(s, k) ==> Queue(s, k)[i] in s.issued
  }

  /** The tables of a previous revision are not changed by a run, only consumed. */
  predicate SameRevision(s: State, s': State) {
    s'.ids == s.ids && s'.native == s.native && s'.path == s.path && s'.reserved == s.reserved
  }

  function NativeKey(r: Request): Key {
    Key(r.kind, r.part, r.native)
  }

  /** The previous id listed under the request's own native key, or "". */
  function Claim(s: State, r: Request): string {
    if r.native == "" then "" else Lookup(s.native, NativeKey(r))
  }

  /** The request is decided by its fingerprint, as its native key gives it nothing. */
  predicate Queues(s: State, r: Request) {
    r.node.Some? && (Claim(s, r) == "" || Claim(s, r) in s.issued)
  }

  /** q[p] is the first of the queue that is not issued. */
  predicate FirstFreeAt(q: seq<string>, p: int, issued: set<string>) {
    0 <= p < |q| && q[p] !in issued && forall i :: 0 <= i < p ==> q[i] in issued
  }

  lemma TakesFirstFree(q: seq<string>, from: nat, issued: set<string>, p: nat)
    requires FirstFreeAt(q, p, issued) && forall i :: 0 <= i < from && i < |q| ==> q[i] in issued
    ensures from <= p && Take(q, from, issued) == (p + 1, Some(q[p]))
  {
    hide Take;
    var t := Take(q, from, issued);
    assert from <= p && t.1.Some?;
    assert t.0 - 1 >= p;
  }

  /** A request that comes to its queue gets the first id there that is still free. */
  lemma QueueStep(hash: Seed -> string, s: State, retain: bool, r: Request, p: nat)
    requires Injective(hash) && Consumed(s) && Queues(s, r) && FirstFreeAt(Queue(s, NodeKey(r)), p, s.issued)
    ensures var k := NodeKey(r);
      Allocate(hash, s, retain, r) ==
        (s.(used := s.used[k := p + 1], issued := s.issued + {Queue(s, k)[p]}), Queue(s, k)[p])
  {
    hide Injective, Take, FirstFree, Consumed;
    var k := NodeKey(r);
    BeforeUsed(s, k);
    TakesFirstFree(Queue(s, k), Used(s, k), s.issued, p);
  }

  lemma BeforeUsed(s: State, k: Key)
    requires Consumed(s)
    ensures forall i :: 0 <= i < Used(s, k) && i < |Queue(s, k)| ==> Queue(s, k)[i] in s.issued
  {
    forall i | 0 <= i < Used(s, k) && i < |Queue(s, k)| ensures Queue(s, k)[i] in s.issued {
      assert Place(s, k, i);
    }
  }

  /** A request whose native key was listed, for an object that has not come up yet, gets that object's id. */
  lemma ClaimStep(hash: Seed -> string, s: State, retain: bool, r: Request)
    requires Injective(hash) && Claim(s, r) != "" && Claim(s, r) !in s.issued
    ensures Allocate(hash, s, retain, r) == (s.(issued := s.issued + {Claim(s, r)}), Claim(s, r))
  {
    hide Injective, Take, FirstFree;
  }

  lemma MatchedKeeps(s: State, retain: bool, r: Request)
    requires r.node.Some?
    ensures SameRevision(s, Matched(s, retain, r).0)
  {
    hide Take, PathCandidate, NodeKey;
  }

  lemma AllocateKeeps(hash: Seed -> string, s: State, retain: bool, r: Request)
    requires Injective(hash)
    ensures SameRevision(s, Allocate(hash, s, retain, r).0)
  {
    hide Injective, Fresh, Lookup, Matched;
    if r.node.Some? { MatchedKeeps(s, retain, r); }
  }

  /** Scanning a queue passes over issued ids only, or over one that it issues. */
  lemma ConsumedStep(hash: Seed -> string, s: State, retain: bool, r: Request)
    requires Injective(hash) && Consumed(s) && Named(r)
    ensures Consumed(Allocate(hash, s, retain, r).0)
  {
    hide Injective, FirstFree, Allocate, Consumed, Take;
    var (s', id) := Allocate(hash, s, retain, r);
    AllocateNew(hash, s, retain, r);
    AllocateKeeps(hash, s, retain, r);
    UsedAfter(hash, s, retain, r);
    forall k: Key, i: int | Place(s', k, i) && i < Used(s', k) ensures Queue(s', k)[i] in s'.issued {
      assert Place(s, k, i);
      BeforeUsed(s, k);
    }
    assert Consumed(s') by { ConsumedIs(s'); }
  }

  lemma ConsumedIs(s: State)
    requires forall k: Key, i: int :: Place(s, k, i) && i < Used(s, k) ==> Queue(s, k)[i] in s.issued
    ensures Consumed(s)
  {
  }

  lemma UsedAfter(hash: Seed -> string, s: State, retain: bool, r: Request)
    requires Injective(hash) && Named(r)
    ensures var s' := Allocate(hash, s, retain, r).0;
      forall k: Key, i: int :: Place(s, k, i) && Used(s, k) <= i < Used(s', k) ==> Queue(s, k)[i] in s'.issued
  {
    hide Injective, FirstFree, Take;
    var s' := Allocate(hash, s, retain, r).0;
    var q := NodeKey(r);
    var t := Take(Queue(s, q), Used(s, q), s.issued);
    forall k: Key, i: int | Place(s, k, i) && Used(s, k) <= i < Used(s', k) ensures Queue(s, k)[i] in s'.issued {
      assert k == q && i < t.0;
    }
  }

  function IdSet(ids: seq<string>): set<string> {
    set i | 0 <= i < |ids| :: ids[i]
  }

  lemma {:induction false} StateFacts(hash: Seed -> string, s: State, retain: bool, reqs: seq<Request>)
    requires Injective(hash) && Consumed(s) && AllNamed(reqs)
    ensures var s' := StateAfter(hash, s, retain, reqs);
      SameRevision(s, s') && Consumed(s') && s'.issued == s.issued + IdSet(Run(hash, s, retain, reqs))
    decreases |reqs|
  {
    hide Allocate, Injective, Consumed, Named;
    if reqs == [] {
      assert IdSet([]) == {};
    } else {
      var (s1, id) := Allocate(hash, s, retain, reqs[0]);
      AllocateKeeps(hash, s, retain, reqs[0]);
      AllocateNew(hash, s, retain, reqs[0]);
      ConsumedStep(hash, s, retain, reqs[0]);
      StateFacts(hash, s1, retain, reqs[1..]);
      var rest := Run(hash, s1, retain, reqs[1..]);
      assert Run(hash, s, retain, reqs) == [id] + rest;
      IdSetCons(id, rest);
    }
  }

  lemma IdSetCons(id: string, rest: seq<string>)
    ensures IdSet([id] + rest) == {id} + IdSet(rest)
  {
    var all := [id] + rest;
    forall x ensures x in IdSet(all) <==> x == id || x in IdSet(rest) {
      if x in IdSet(all) {
        var i :| 0 <= i < |all| && all[i] == x;
        if i > 0 { assert rest[i - 1] == x; }
      }
      if x in IdSet(rest) {
        var i :| 0 <= i < |rest| && rest[i] == x;
        assert all[i + 1] == x;
      }
      assert all[0] == id;
    }
  }

  /** A run goes on from the state that its first n requests leave. */
  lemma {:induction false} RunSplits(hash: Seed -> string, s: State, retain: bool, reqs: seq<Request>, n: nat)
    requires Injective(hash) && n <= |reqs|
    ensures Run(hash, s, retain, reqs)
         == Run(hash, s, retain, reqs[..n]) + Run(hash, StateAfter(hash, s, retain, reqs[..n]), retain, reqs[n..])
    ensures |Run(hash, s, retain, reqs[..n])| == n
    decreases n
  {
    hide Allocate, Injective;
    RunLength(hash, s, retain, reqs[..n]);
    if n == 0 {
      assert reqs[..0] == [] && reqs[0..] == reqs;
    } else {
      var s1 := Allocate(hash, s, retain, reqs[0]).0;
      RunSplits(hash, s1, retain, reqs[1..], n - 1);
      assert reqs[..n][1..] == reqs[1..][..n - 1] && reqs[1..][n - 1..] == reqs[n..];
    }
  }

  /**
   * In any run, whatever comes before, a request whose native key is not listed, or is used up, gets the first id
   * of its fingerprint that has not been issued.
   */
  lemma FirstComeFirstServed(hash: Seed -> string, s: State, retain: bool, reqs: seq<Request>, n: nat, p: nat)
    requires Injective(hash) && Consumed(s) && AllNamed(reqs) && n < |reqs|
    requires var issued := s.issued + IdSet(Run(hash, s, retain, reqs[..n]));
      && reqs[n].node.Some? && (Claim(s, reqs[n]) == "" || Claim(s, reqs[n]) in issued)
      && FirstFreeAt(Queue(s, NodeKey(reqs[n])), p, issued)
    ensures |Run(hash, s, retain, reqs)| == |reqs|
    ensures Run(hash, s, retain, reqs)[n] == Queue(s, NodeKey(reqs[n]))[p]
  {
    hide Allocate, Injective, Consumed, FirstFreeAt, IdSet;
    var t := StateAfter(hash, s, retain, reqs[..n]);
    RunLength(hash, s, retain, reqs);
    RunSplits(hash, s, retain, reqs, n);
    StateFacts(hash, s, retain, reqs[..n]);
    QueueStep(hash, t, retain, reqs[n], p);
    assert reqs[n..][0] == reqs[n];
    assert Run(hash, t, retain, reqs[n..])[0] == Allocate(hash, t, retain, reqs[n]).1;
  }

  // ---------------------------------------------------- the same requests once more

  /** A request for an object of the document tree, with or without a native key. */
  predicate Rooted(r: Request) {
    r.node.Some?
  }

  ghost predicate AllRooted(reqs: seq<Request>) {
    forall i :: 0 <= i < |reqs| ==> Rooted(reqs[i])
  }

  ghost predicate Distinct(ids: seq<string>) {
    forall i, j :: 0 <= i < j < |ids| ==> ids[i] != ids[j]
  }

  /** The revision lists nobody, the object itself or an earlier one under the native key of request n. */
  predicate Claims(s: State, reqs: seq<Request>, ids: seq<string>, n: nat)
    requires n < |reqs| == |ids|
  {
    Claim(s, reqs[n]) == "" || Claim(s, reqs[n]) in ids[..n + 1]
  }

  ghost predicate AllClaims(s: State, reqs: seq<Request>, ids: seq<string>)
    requires |ids| == |reqs|
  {
    forall n :: 0 <= n < |reqs| ==> Claims(s, reqs, ids, n)
  }

  /** The first n requests have got their ids back; s0 is the index of the revision. */
  ghost predicate Midway(s0: State, s: State, ids: seq<string>, n: nat)
    requires n <= |ids|
  {
    SameRevision(s0, s) && Consumed(s) && s.issued == IdSet(ids[..n])
  }

  lemma {:induction false} GivenBefore(reqs: seq<Request>, ids: seq<string>, k: Key, n: nat, i: nat)
    requires |ids| == |reqs| && n <= |reqs| && i < Rank(reqs, n, k)
    ensures i < |Given(reqs, ids, k)| && Given(reqs, ids, k)[i] in ids[..n]
    decreases |reqs|
  {
    if NodeKey(reqs[0]) == k && i == 0 {
      assert ids[..n][0] == ids[0];
    } else {
      var j := if NodeKey(reqs[0]) == k then i - 1 else i;
      GivenBefore(reqs[1..], ids[1..], k, n - 1, j);
      var id := Given(reqs[1..], ids[1..], k)[j];
      var m :| 0 <= m < n - 1 && ids[1..][..n - 1][m] == id;
      assert ids[..n][m + 1] == id;
    }
  }

  lemma IdSetIs(ids: seq<string>, x: string)
    ensures x in IdSet(ids) <==> x in ids
  {
    if x in ids {
      var i :| 0 <= i < |ids| && ids[i] == x;
      assert x in IdSet(ids);
    }
  }

  lemma NotYetIssued(ids: seq<string>, n: nat, m: nat)
    requires Distinct(ids) && n <= m < |ids|
    ensures ids[m] !in IdSet(ids[..n])
  {
  }

  lemma OneMoreIssued(ids: seq<string>, n: nat)
    requires n < |ids|
    ensures IdSet(ids[..n + 1]) == IdSet(ids[..n]) + {ids[n]}
  {
    var a, b := ids[..n], ids[..n + 1];
    assert b[n] == ids[n];
    forall x | x in IdSet(a) ensures x in IdSet(b) {
      var i :| 0 <= i < |a| && a[i] == x;
      assert b[i] == x;
    }
  }

  /** The object's own place in the queue is the first one that is free. */
  lemma OwnPlace(s0: State, s: State, reqs: seq<Request>, ids: seq<string>, n: nat)
    requires |ids| == |reqs| && n < |reqs| && Distinct(ids) && Midway(s0, s, ids, n)
    requires Queue(s0, NodeKey(reqs[n])) == Given(reqs, ids, NodeKey(reqs[n]))
    ensures var k := NodeKey(reqs[n]);
      FirstFreeAt(Queue(s, k), Rank(reqs, n, k), s.issued) && Queue(s, k)[Rank(reqs, n, k)] == ids[n]
  {
    hide Given, Rank, Consumed, Distinct, IdSet;
    var k := NodeKey(reqs[n]);
    GivenAt(reqs, ids, n);
    NotYetIssued(ids, n, n);
    forall i | 0 <= i < Rank(reqs, n, k) ensures Queue(s, k)[i] in s.issued {
      GivenBefore(reqs, ids, k, n, i);
      IdSetIs(ids[..n], Queue(s, k)[i]);
    }
  }

  /** One request of the second run: its old id exactly when its native key claims nobody who comes later. */
  lemma AgainStep(hash: Seed -> string, s0: State, s: State, again: bool, reqs: seq<Request>, ids: seq<string>, n: nat)
    requires Injective(hash) && |ids| == |reqs| && n < |reqs| && Distinct(ids) && Midway(s0, s, ids, n)
    requires Rooted(reqs[n]) && Queue(s0, NodeKey(reqs[n])) == Given(reqs, ids, NodeKey(reqs[n]))
    ensures Allocate(hash, s, again, reqs[n]).1 == ids[n] <==> Claims(s0, reqs, ids, n)
    ensures Claims(s0, reqs, ids, n) ==> Midway(s0, Allocate(hash, s, again, reqs[n]).0, ids, n + 1)
  {
    hide Given, Rank, Consumed, Distinct, IdSet, Allocate, Injective, FirstFreeAt, Midway;
    var r, claim := reqs[n], Claim(s0, reqs[n]);
    MidwayFacts(s0, s, ids, n);
    IdSetIs(ids[..n], claim);
    OneMoreIssued(ids, n);
    assert ids[..n + 1] == ids[..n] + [ids[n]];
    if claim != "" && claim !in ids[..n] {
      ClaimStep(hash, s, again, r);
    } else {
      OwnPlace(s0, s, reqs, ids, n);
      QueueStep(hash, s, again, r, Rank(reqs, n, NodeKey(r)));
    }
    AllocateKeeps(hash, s, again, r);
    ConsumedStep(hash, s, again, r);
    if Claims(s0, reqs, ids, n) {
      MidwayIs(s0, Allocate(hash, s, again, r).0, ids, n + 1);
    }
  }

  lemma MidwayFacts(s0: State, s: State, ids: seq<string>, n: nat)
    requires n <= |ids| && Midway(s0, s, ids, n)
    ensures SameRevision(s0, s) && Consumed(s) && s.issued == IdSet(ids[..n])
  {
  }

  lemma MidwayIs(s0: State, s: State, ids: seq<string>, n: nat)
    requires n <= |ids| && SameRevision(s0, s) && Consumed(s) && s.issued == IdSet(ids[..n])
    ensures Midway(s0, s, ids, n)
  {
  }

  lemma {:induction false} AgainFrom(hash: Seed -> string, s0: State, s: State, again: bool, reqs: seq<Request>, ids: seq<string>, n: nat)
    requires Injective(hash) && |ids| == |reqs| && n <= |reqs| && Distinct(ids) && Midway(s0, s, ids, n) && AllRooted(reqs)
    requires forall k: Key :: Queue(s0, k) == Given(reqs, ids, k)
    ensures Run(hash, s, again, reqs[n..]) == ids[n..] <==> forall m :: n <= m < |reqs| ==> Claims(s0, reqs, ids, m)
    decreases |reqs| - n
  {
    hide Given, Allocate, Injective, Distinct, Midway, Claims, Queue;
    if n == |reqs| {
    } else {
      AgainStep(hash, s0, s, again, reqs, ids, n);
      var (s', id) := Allocate(hash, s, again, reqs[n]);
      assert reqs[n..][0] == reqs[n] && reqs[n..][1..] == reqs[n + 1..];
      var rest := Run(hash, s', again, reqs[n + 1..]);
      assert Run(hash, s, again, reqs[n..]) == [id] + rest;
      assert ids[n..] == [ids[n]] + ids[n + 1..];
      if Claims(s0, reqs, ids, n) {
        AgainFrom(hash, s0, s', again, reqs, ids, n + 1);
        assert [id] + rest == [ids[n]] + ids[n + 1..] <==> rest == ids[n + 1..] by { SameHead(ids[n], rest, ids[n + 1..]); }
      } else {
        assert ([id] + rest)[0] != ([ids[n]] + ids[n + 1..])[0];
      }
    }
  }

  lemma SameHead(x: string, a: seq<string>, b: seq<string>)
    ensures [x] + a == [x] + b <==> a == b
  {
    assert ([x] + a)[1..] == a && ([x] + b)[1..] == b;
  }

  /**
   * Exactly when the same requests get the same ids again, from a revision that lists for each fingerprint the ids
   * of the first run in the order it gave them: no request finds under its native key an object that is yet to come.
   */
  lemma Reproduces(hash: Seed -> string, s: State, retain: bool, reqs: seq<Request>, records: seq<Record>, again: bool)
    requires Injective(hash) && AllRooted(reqs)
    requires |Run(hash, s, retain, reqs)| == |reqs|
    requires forall k: Key :: Recorded(records, k) == Given(reqs, Run(hash, s, retain, reqs), k)
    ensures Run(hash, Index(EMPTY, records), again, reqs) == Run(hash, s, retain, reqs)
       <==> AllClaims(Index(EMPTY, records), reqs, Run(hash, s, retain, reqs))
  {
    hide Recorded, Index, Keyed, Run, Given, Injective, Claims;
    var ids := Run(hash, s, retain, reqs);
    var s0 := Index(EMPTY, records);
    IssuedOnce(hash, s, retain, reqs);
    StartFacts(records);
    assert ids[..0] == [] && IdSet([]) == {};
    assert reqs[0..] == reqs && ids[0..] == ids;
    AgainFrom(hash, s0, s0, again, reqs, ids, 0);
  }

  // ------------------------------------------------------- the revision that is written

  /** The kinds whose records keep the native key of their request; all others are listed without one. */
  const KEPT: set<string> := {"story", "comment", "unsupported"}

  function RecordOf(r: Request, id: string): Record
    requires Rooted(r)
  {
    Record(r.kind, id, Some(Anchor(r.part, r.node.value.path, r.node.value.digest)), if r.kind in KEPT then r.native else "")
  }

  /** The revision that lists exactly the objects requested, in the order requested. */
  ghost function Listed(reqs: seq<Request>, ids: seq<string>): seq<Record>
    requires |ids| == |reqs| && AllRooted(reqs)
  {
    seq(|reqs|, i requires 0 <= i < |reqs| => RecordOf(reqs[i], ids[i]))
  }

  predicate Fingerprinted(r: Request) {
    Rooted(r) && r.part != "" && r.node.value.digest != ""
  }

  ghost predicate AllFingerprinted(reqs: seq<Request>) {
    forall i :: 0 <= i < |reqs| ==> Fingerprinted(reqs[i])
  }

  lemma {:induction false} ListedGiven(reqs: seq<Request>, ids: seq<string>, k: Key)
    requires |ids| == |reqs| && AllFingerprinted(reqs)
    ensures Recorded(Listed(reqs, ids), k) == Given(reqs, ids, k)
    decreases |reqs|
  {
    if reqs == [] {
    } else {
      assert Listed(reqs, ids)[1..] == Listed(reqs[1..], ids[1..]);
      ListedGiven(reqs[1..], ids[1..], k);
    }
  }

  predicate NativelyKeyed(r: Record, k: Key) {
    r.native != "" && k == Key(r.kind, if r.anchor.Some? then r.anchor.value.part else "", r.native)
  }

  /** The last id listed under native key k overwrites the earlier ones. */
  function Latest(earlier: string, records: seq<Record>, k: Key): string
    decreases |records|
  {
    if records == [] then earlier
    else Latest(if NativelyKeyed(records[0], k) then records[0].id else earlier, records[1..], k)
  }

  lemma {:induction false} IndexNative(s: State, records: seq<Record>, k: Key)
    ensures Lookup(Index(s, records).native, k) == Latest(Lookup(s.native, k), records, k)
    decreases |records|
  {
    if records == [] {
    } else {
      IndexNative(Remember(s, records[0]), records[1..], k);
    }
  }

  /** Record j is the last one under native key k. */
  predicate IsLatest(records: seq<Record>, k: Key, j: int) {
    0 <= j < |records| && NativelyKeyed(records[j], k) && forall m :: j < m < |records| ==> !NativelyKeyed(records[m], k)
  }

  lemma {:induction false} LatestIs(earlier: string, records: seq<Record>, k: Key) returns (j: int)
    ensures if j < 0 then
              Latest(earlier, records, k) == earlier && forall m :: 0 <= m < |records| ==> !NativelyKeyed(records[m], k)
            else IsLatest(records, k, j) && Latest(earlier, records, k) == records[j].id
    decreases |records|
  {
    hide NativelyKeyed;
    if records == [] {
      j := -1;
    } else {
      var own := NativelyKeyed(records[0], k);
      var i := LatestIs(if own then records[0].id else earlier, records[1..], k);
      if i >= 0 {
        j := i + 1;
        assert records[j] == records[1..][i];
        assert forall m :: j < m < |records| ==> records[m] == records[1..][m - 1];
      } else {
        j := if own then 0 else -1;
        assert forall m :: 0 < m < |records| ==> records[m] == records[1..][m - 1];
      }
    }
  }

  /** Two objects that are listed under the same native key. */
  predicate Twins(r: Request, q: Request) {
    r.native != "" && r.kind in KEPT && r.kind == q.kind && r.part == q.part && r.native == q.native
  }

  ghost predicate NoTwins(reqs: seq<Request>) {
    forall i, j :: 0 <= i < j < |reqs| ==> !Twins(reqs[i], reqs[j])
  }

  /** Whom request n finds under its native key: the last of its twins, if its kind is listed with native keys. */
  lemma ClaimIsLastTwin(reqs: seq<Request>, ids: seq<string>, n: nat) returns (j: int)
    requires |ids| == |reqs| && AllFingerprinted(reqs) && n < |reqs| && reqs[n].native != ""
    ensures reqs[n].kind !in KEPT ==> j < 0 && Claim(Index(EMPTY, Listed(reqs, ids)), reqs[n]) == ""
    ensures reqs[n].kind in KEPT ==>
      && n <= j < |reqs| && (j == n || Twins(reqs[n], reqs[j]))
      && (forall m :: j < m < |reqs| ==> !Twins(reqs[n], reqs[m]))
      && Claim(Index(EMPTY, Listed(reqs, ids)), reqs[n]) == ids[j]
  {
    hide Index, Latest;
    var k, records := NativeKey(reqs[n]), Listed(reqs, ids);
    IndexNative(EMPTY, records, k);
    j := LatestIs("", records, k);
    forall m | 0 <= m < |reqs|
      ensures NativelyKeyed(records[m], k) <==> reqs[n].kind in KEPT && (m == n || Twins(reqs[n], reqs[m]))
    {
      assert records[m] == RecordOf(reqs[m], ids[m]);
    }
    if j >= 0 { assert j >= n; }
  }

  lemma ClaimsAreOwn(reqs: seq<Request>, ids: seq<string>)
    requires |ids| == |reqs| && AllFingerprinted(reqs) && Distinct(ids) && "" !in ids
    ensures AllClaims(Index(EMPTY, Listed(reqs, ids)), reqs, ids) <==> NoTwins(reqs)
  {
    hide Index, Twins, NoTwins, AllClaims;
    var s0 := Index(EMPTY, Listed(reqs, ids));
    forall n | 0 <= n < |reqs|
      ensures Claims(s0, reqs, ids, n) <==> forall m :: n < m < |reqs| ==> !Twins(reqs[n], reqs[m])
    {
      if reqs[n].native != "" {
        var j := ClaimIsLastTwin(reqs, ids, n);
        if j >= 0 {
          assert ids[j] != "";
          assert ids[j] in ids[..n + 1] <==> j == n by { LaterId(ids, n, j); }
        } else {
          NotKept(reqs, n);
        }
      } else {
        NotKept(reqs, n);
      }
    }
    TwinFree(s0, reqs, ids);
  }

  lemma TwinFree(s0: State, reqs: seq<Request>, ids: seq<string>)
    requires |ids| == |reqs|
    requires forall n :: 0 <= n < |reqs| ==> (Claims(s0, reqs, ids, n) <==> forall m :: n < m < |reqs| ==> !Twins(reqs[n], reqs[m]))
    ensures AllClaims(s0, reqs, ids) <==> NoTwins(reqs)
  {
    hide Claims, Twins;
    if NoTwins(reqs) {
      forall n | 0 <= n < |reqs| ensures Claims(s0, reqs, ids, n) {
        assert forall m :: n < m < |reqs| ==> !Twins(reqs[n], reqs[m]);
      }
    }
    if AllClaims(s0, reqs, ids) {
      forall i, j | 0 <= i < j < |reqs| ensures !Twins(reqs[i], reqs[j]) {
        assert Claims(s0, reqs, ids, i);
      }
    }
  }

  lemma NotKept(reqs: seq<Request>, n: nat)
    requires n < |reqs| && (reqs[n].native == "" || reqs[n].kind !in KEPT)
    ensures forall m :: 0 <= m < |reqs| ==> !Twins(reqs[n], reqs[m])
  {
  }

  lemma LaterId(ids: seq<string>, n: nat, j: nat)
    requires Distinct(ids) && n <= j < |ids|
    ensures ids[j] in ids[..n + 1] <==> j == n
  {
    if j == n { assert ids[..n + 1][n] == ids[n]; }
  }

  /**
   * Extracting the same objects again, with the first result as previous revision, gives every object its id back
   * if and only if no two objects are listed under the same kind, part and native key. Requests with and without
   * native keys may be mixed; kinds outside KEPT may share native keys freely.
   */
  lemma ReextractionIsStable(hash: Seed -> string, s: State, retain: bool, reqs: seq<Request>, again: bool)
    requires Injective(hash) && AllFingerprinted(reqs) && "" !in Run(hash, s, retain, reqs)
    ensures |Run(hash, s, retain, reqs)| == |reqs|
    ensures Run(hash, Index(EMPTY, Listed(reqs, Run(hash, s, retain, reqs))), again, reqs) == Run(hash, s, retain, reqs)
       <==> NoTwins(reqs)
  {
    hide Recorded, Index, Run, Given, Injective, AllClaims, NoTwins;
    var ids := Run(hash, s, retain, reqs);
    IssuedOnce(hash, s, retain, reqs);
    forall k: Key { ListedGiven(reqs, ids, k); }
    Reproduces(hash, s, retain, reqs, Listed(reqs, ids), again);
    ClaimsAreOwn(reqs, ids);
  }

  /**
   * Two unmodelled elements with the same content in one paragraph are such twins: their native key is made of
   * code, capability, scope and fingerprint. Each extraction exchanges their ids.
   */
  lemma TwinsSwap(hash: Seed -> string, part: string, native: string, a: Node, b: Node, again: bool)
    requires Injective(hash) && part != "" && native != "" && a.digest == b.digest != ""
    requires forall seed: Seed :: hash(seed) != ""
    ensures var reqs := [Request("unsupported", part, Some(a), native), Request("unsupported", part, Some(b), native)];
      var ids := Run(hash, EMPTY, false, reqs);
      && |ids| == 2 && ids[0] != ids[1]
      && Run(hash, Index(EMPTY, Listed(reqs, ids)), again, reqs) == [ids[1], ids[0]]
  {
    hide Injective;
    var reqs := [Request("unsupported", part, Some(a), native), Request("unsupported", part, Some(b), native)];
    var ids := Run(hash, EMPTY, false, reqs);
    IssuedOnce(hash, EMPTY, false, reqs);
    var s0 := Index(EMPTY, Listed(reqs, ids));
    assert Twins(reqs[0], reqs[1]);
    TwinIds(hash, EMPTY, reqs);
    var j0 := ClaimIsLastTwin(reqs, ids, 0);
    var j1 := ClaimIsLastTwin(reqs, ids, 1);
    forall k: Key { ListedGiven(reqs, ids, k); }
    StartFacts(Listed(reqs, ids));
    var k := NodeKey(reqs[0]);
    GivenTwo(reqs, ids, k);
    SecondRun(hash, s0, again, reqs, ids, k);
  }

  lemma TwinIds(hash: Seed -> string, s: State, reqs: seq<Request>)
    requires Injective(hash) && (forall seed: Seed :: hash(seed) != "") && |reqs| == 2 && s == EMPTY
    requires AllRooted(reqs)
    ensures |Run(hash, s, false, reqs)| == 2
    ensures Run(hash, s, false, reqs)[0] != "" && Run(hash, s, false, reqs)[1] != ""
  {
    hide Injective, Allocate;
    RunLength(hash, s, false, reqs);
    var s1 := Allocate(hash, s, false, reqs[0]).0;
    NewIdIsHash(hash, s, reqs[0]);
    AllocateKeeps(hash, s, false, reqs[0]);
    NewIdIsHash(hash, s1, reqs[1]);
    assert reqs[1..][0] == reqs[1];
  }

  lemma {:induction false} FreeIsHash(hash: Seed -> string, base: Seed, stem: string, taken: set<string>, n: nat)
    requires Injective(hash) && TriedAll(hash, base, stem, taken, n) && (forall seed: Seed :: hash(seed) != "")
    ensures FirstFree(hash, base, stem, taken, n) != ""
    decreases |taken| + 1 - n
  {
    SaltsBounded(hash, base, stem, taken, n);
    if hash(SaltedSeed(base, stem, n)) in taken {
      FreeIsHash(hash, base, stem, taken, n + 1);
    }
  }

  lemma NewIdIsHash(hash: Seed -> string, s: State, r: Request)
    requires Injective(hash) && (forall seed: Seed :: hash(seed) != "")
    requires s.ids == map[] && s.native == map[] && s.path == map[] && Rooted(r)
    ensures Allocate(hash, s, false, r).1 != ""
  {
    hide Injective, FirstFree;
    forall base: Seed, stem: string, taken: set<string> ensures FirstFree(hash, base, stem, taken, 0) != "" {
      FreeIsHash(hash, base, stem, taken, 0);
    }
  }

  lemma GivenTwo(reqs: seq<Request>, ids: seq<string>, k: Key)
    requires |reqs| == |ids| == 2 && NodeKey(reqs[0]) == NodeKey(reqs[1]) == k
    ensures Given(reqs, ids, k) == ids
  {
    hide NodeKey;
    var r, i := reqs[1..], ids[1..];
    assert r[0] == reqs[1] && i[0] == ids[1];
    assert Given(r[1..], i[1..], k) == [];
    assert Given(r, i, k) == [ids[1]];
    assert Given(reqs, ids, k) == [ids[0]] + [ids[1]];
  }

  lemma SecondRun(hash: Seed -> string, s0: State, again: bool, reqs: seq<Request>, ids: seq<string>, k: Key)
    requires Injective(hash) && |reqs| == |ids| == 2 && ids[0] != ids[1] && ids[1] != "" && AllRooted(reqs)
    requires s0.issued == {} && s0.used == map[] && NodeKey(reqs[1]) == k && Queue(s0, k) == ids
    requires Claim(s0, reqs[0]) == ids[1] && Claim(s0, reqs[1]) == ids[1]
    ensures Run(hash, s0, again, reqs) == [ids[1], ids[0]]
  {
    hide Injective, Allocate;
    ClaimStep(hash, s0, again, reqs[0]);
    var s1 := Allocate(hash, s0, again, reqs[0]).0;
    assert Consumed(s1);
    assert FirstFreeAt(Queue(s1, k), 0, s1.issued);
    QueueStep(hash, s1, again, reqs[1], 0);
    assert reqs[1..][0] == reqs[1] && reqs[1..][1..] == [];
    var s2 := Allocate(hash, s1, again, reqs[1]).0;
    assert Run(hash, s2, again, []) == [];
    assert Run(hash, s1, again, reqs[1..]) == [ids[0]];
  }
}
