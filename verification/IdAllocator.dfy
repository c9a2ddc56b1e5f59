/**
 The extractor's allocator of ids: the tables of the previous document are built
 once, and every request consumes them in place.
 */
module IdAllocators {
  import opened Prelude
  import opened Identity

  /** Maps that are updated in place, each method against the choice of ids it makes. */
  class IdAllocator {
    const hash: Seed -> string
    const retainPathIdentity: bool
    var previousIDs: map<Key, seq<string>>
    var previousUsed: map<Key, nat>
    var previousNative: map<Key, string>
    var previousPath: map<Key, string>
    var reservedIDs: set<string>
    var allocatedIDs: set<string>

    ghost function Model(): State
      reads this
    {
      State(previousIDs, previousUsed, previousNative, previousPath, reservedIDs, allocatedIDs)
    }

    constructor (hash: Seed -> string, retain: bool)
      ensures this.hash == hash && retainPathIdentity == retain && Model() == EMPTY
    {
      this.hash := hash;
      retainPathIdentity := retain;
      previousIDs, previousUsed, previousNative, previousPath := map[], map[], map[], map[];
      reservedIDs, allocatedIDs := {}, {};
    }

    method Remember(r: Record)
      modifies this
      ensures Model() == Identity.Remember(old(Model()), r)
    {
      reservedIDs := reservedIDs + {r.id};
      var part := "";
      if r.anchor.Some? {
        part := r.anchor.value.part;
      }
      if r.native != "" {
        previousNative := previousNative[Key(r.kind, part, r.native) := r.id];
      }
      if r.anchor.None? || part == "" || r.anchor.value.digest == "" {
        return;
      }
      var key := Key(r.kind, part, r.anchor.value.digest);
      var queue := if key in previousIDs then previousIDs[key] else [];
      previousIDs := previousIDs[key := queue + [r.id]];
      var pathKey := Key(r.kind, part, r.anchor.value.path);
      if pathKey in previousPath {
        previousPath := previousPath[pathKey := ""];
      } else {
        previousPath := previousPath[pathKey := r.id];
      }
    }

    method IndexPreviousIDs(records: seq<Record>)
      modifies this
      ensures Model() == Index(old(Model()), records)
    {
      hide Identity.Remember;
      assert records[0..] == records;
      for i := 0 to |records|
        invariant Index(Model(), records[i..]) == Index(old(Model()), records)
      {
        assert records[i..][0] == records[i] && records[i..][1..] == records[i + 1..];
        Remember(records[i]);
      }
    }

    /** The queue of previous ids with the node's fingerprint, consumed up to the first id still free. */
    method PreviousQueued(key: Key) returns (id: Option<string>)
      modifies this
      ensures Model() == GrantIf(Scanned(old(Model()), key), id)
      ensures id == Take(Queue(old(Model()), key), Used(old(Model()), key), old(allocatedIDs)).1
    {
      hide Take;
      ghost var s := Model();
      var candidates := if key in previousIDs then previousIDs[key] else [];
      var start := if key in previousUsed then previousUsed[key] else 0;
      var index := start;
      while index < |candidates|
        invariant start <= index <= Max(start, |candidates|)
        invariant Take(candidates, start, s.issued) == Take(candidates, index, s.issued)
        invariant previousUsed == if index == start then s.used else s.used[key := index]
        invariant Model() == s.(used := previousUsed)
      {
        TakeStep(candidates, index, s.issued);
        previousUsed := previousUsed[key := index + 1];
        assert previousUsed == s.used[key := index + 1];
        if candidates[index] in allocatedIDs {
          index := index + 1;
          continue;
        }
        allocatedIDs := allocatedIDs + {candidates[index]};
        return Some(candidates[index]);
      }
      TakeStep(candidates, index, s.issued);
      return None;
    }

    method PreviousPathCandidate(kind: string, part: string, node: Node) returns (id: Option<string>)
      modifies this
      ensures id == PathCandidate(old(Model()), retainPathIdentity, kind, part, node)
      ensures Model() == GrantIf(old(Model()), id)
    {
      if !retainPathIdentity {
        return None;
      }
      var key := Key(kind, part, node.path);
      var candidate := if key in previousPath then previousPath[key] else "";
      if candidate == "" || candidate in allocatedIDs {
        return None;
      }
      allocatedIDs := allocatedIDs + {candidate};
      return Some(candidate);
    }

    method PreviousMatch(r: Request) returns (id: Option<string>)
      requires r.node.Some?
      modifies this
      ensures (Model(), id) == Matched(old(Model()), retainPathIdentity, r)
    {
      id := PreviousQueued(Key(r.kind, r.part, r.node.value.digest));
      if id.None? {
        id := PreviousPathCandidate(r.kind, r.part, r.node.value);
      }
    }

    /** The plain id, or the id for the first salt that gives one not taken. */
    method Salted(plain: Seed, base: Seed, stem: string, taken: set<string>) returns (candidate: string)
      requires Injective(hash)
      ensures candidate == Fresh(hash, plain, base, stem, taken)
    {
      hide Injective, FirstFree;
      candidate := hash(plain);
      var salt := 0;
      while candidate in taken
        invariant 0 <= salt <= |taken| + 1
        invariant salt == 0 ==> candidate == hash(plain)
        invariant salt > 0 ==> hash(plain) in taken && candidate == hash(SaltedSeed(base, stem, salt - 1))
        invariant TriedAll(hash, base, stem, taken, if salt == 0 then 0 else salt - 1)
        invariant salt > 0 ==> FirstFree(hash, base, stem, taken, salt - 1) == FirstFree(hash, base, stem, taken, 0)
        decreases |taken| + 1 - salt
      {
        if salt > 0 { Tried(hash, base, stem, taken, salt - 1); }
        SaltsBounded(hash, base, stem, taken, salt);
        candidate := hash(SaltedSeed(base, stem, salt));
        salt := salt + 1;
      }
      if salt > 0 { Free(hash, base, stem, taken, salt - 1); }
    }

    method ObjectID(r: Request) returns (id: string)
      requires Injective(hash)
      modifies this
      ensures (Model(), id) == Allocate(hash, old(Model()), retainPathIdentity, r)
    {
      hide Injective, FirstFree, Fresh, Matched;
      if r.native != "" {
        var key := Key(r.kind, r.part, r.native);
        var previous := if key in previousNative then previousNative[key] else "";
        if previous != "" && previous !in allocatedIDs {
          allocatedIDs := allocatedIDs + {previous};
          return previous;
        }
        var nodePath := "";
        if r.node.Some? {
          var found := PreviousMatch(r);
          if found.Some? {
            return found.value;
          }
          nodePath := r.node.value.path;
        }
        id := Salted(Seed(r.kind, r.part, "", r.native), Seed(r.kind, r.part, nodePath, ""), r.native, allocatedIDs);
        allocatedIDs := allocatedIDs + {id};
        return;
      }
      if r.node.Some? {
        var found := PreviousMatch(r);
        if found.Some? {
          return found.value;
        }
        var seed := Seed(r.kind, r.part, r.node.value.path, "");
        id := Salted(seed, seed, r.node.value.digest, reservedIDs + allocatedIDs);
        allocatedIDs := allocatedIDs + {id};
        return;
      }
      id := hash(Seed(r.kind, r.part, "", ""));
      allocatedIDs := allocatedIDs + {id};
    }
  }

  lemma TakeStep(q: seq<string>, from: nat, issued: set<string>)
    ensures from >= |q| ==> Take(q, from, issued) == (from, None)
    ensures from < |q| && q[from] !in issued ==> Take(q, from, issued) == (from + 1, Some(q[from]))
    ensures from < |q| && q[from] in issued ==> Take(q, from, issued) == Take(q, from + 1, issued)
  {
  }

  lemma Tried(hash: Seed -> string, base: Seed, stem: string, taken: set<string>, n: nat)
    requires Injective(hash) && TriedAll(hash, base, stem, taken, n) && hash(SaltedSeed(base, stem, n)) in taken
    ensures TriedAll(hash, base, stem, taken, n + 1)
    ensures FirstFree(hash, base, stem, taken, n) == FirstFree(hash, base, stem, taken, n + 1)
  {
    hide Injective;
  }

  lemma Free(hash: Seed -> string, base: Seed, stem: string, taken: set<string>, n: nat)
    requires Injective(hash) && TriedAll(hash, base, stem, taken, n) && hash(SaltedSeed(base, stem, n)) !in taken
    ensures FirstFree(hash, base, stem, taken, n) == hash(SaltedSeed(base, stem, n))
  {
    hide Injective;
  }
}
