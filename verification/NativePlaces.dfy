/**
 * What is declared at the places of a document: ids that the traversal finds fresh are the ids of different entities,
 * sizes within the budget are those of all collections, and references that resolve are those of all entities.
 */
module NativePlaces {
  import opened Prelude
  import opened NativeContract
  import opened NativeValidation
  import opened NativeEntities

  /** The entity at a place, which is the numbers of the parts to go down to. */
  function At(e: Entity, place: seq<nat>): Option<Entity>
    decreases |place|
  {
    if place == [] then Some(e)
    else if place[0] < |e.parts| then At(e.parts[place[0]], place[1..])
    else None
  }

  predicate Named(e: Entity, place: seq<nat>) {
    At(e, place).Some? && At(e, place).value.id.Some?
  }

  function NameAt(e: Entity, place: seq<nat>): string
    requires Named(e, place)
  {
    At(e, place).value.id.value
  }

  // ------------------------------------------------------------- what is declared at places

  /** Something an entity can declare. */
  datatype Fact = IdFact(id: string) | RefFact(ref: Ref) | SizeFact(size: nat)

  predicate Says(t: Trace, f: Fact) {
    match f
    case IdFact(id) => id in t.ids
    case RefFact(ref) => ref in t.refs
    case SizeFact(size) => size in t.sizes
  }

  predicate SaysAt(e: Entity, place: seq<nat>, f: Fact) {
    At(e, place).Some? && Says(Own(At(e, place).value), f)
  }

  lemma JoinSays(a: Trace, b: Trace, f: Fact)
    ensures Says(Join(a, b), f) <==> Says(a, f) || Says(b, f)
  {
  }

  lemma Down(e: Entity, k: nat, place: seq<nat>)
    requires k < |e.parts|
    ensures At(e, [k] + place) == At(e.parts[k], place)
  {
    assert ([k] + place)[1..] == place;
  }

  lemma {:induction false} PartSays(es: seq<Entity>, k: nat, f: Fact)
    requires k < |es| && Says(Walk(es[k]), f)
    ensures Says(WalkAll(es), f)
  {
    hide Walk, Says, Join;
    var init, last := es[..|es| - 1], es[|es| - 1];
    JoinSays(WalkAll(init), Walk(last), f);
    if k < |es| - 1 { PartSays(init, k, f); }
  }

  /** The traversal says what any entity in it declares. */
  lemma {:induction false} Said(e: Entity, place: seq<nat>, f: Fact)
    requires SaysAt(e, place, f)
    ensures Says(Walk(e), f)
    decreases |place|
  {
    hide Says, Join, Own, WalkAll;
    JoinSays(Own(e), WalkAll(e.parts), f);
    if place != [] {
      Said(e.parts[place[0]], place[1..], f);
      PartSays(e.parts, place[0], f);
    }
  }

  /** What the traversal says is declared at some place. */
  lemma {:induction false} Where(e: Entity, f: Fact) returns (place: seq<nat>)
    requires Says(Walk(e), f)
    ensures SaysAt(e, place, f)
    decreases e
  {
    hide Says, Join, Own, WalkAll;
    JoinSays(Own(e), WalkAll(e.parts), f);
    if Says(Own(e), f) { return []; }
    var k, inner := WhereIn(e.parts, f);
    Down(e, k, inner);
    place := [k] + inner;
  }

  lemma {:induction false} WhereIn(es: seq<Entity>, f: Fact) returns (k: nat, place: seq<nat>)
    requires Says(WalkAll(es), f)
    ensures k < |es| && SaysAt(es[k], place, f)
    decreases es
  {
    hide Says, Join, Own, At, Walk;
    if es == [] {
      NothingSaid(f);
      assert false;
    }
    var init, last := es[..|es| - 1], es[|es| - 1];
    JoinSays(WalkAll(init), Walk(last), f);
    if Says(Walk(last), f) {
      place := Where(last, f);
      return |es| - 1, place;
    }
    k, place := WhereIn(init, f);
  }

  lemma NothingSaid(f: Fact)
    ensures !Says(NOTHING, f)
  {
  }

  // -------------------------------------------------------------------- ids at places

  predicate Distinct(names: seq<string>) {
    forall i, j :: 0 <= i < j < |names| ==> names[i] != names[j]
  }

  predicate ValidAll(ids: seq<string>) {
    forall i :: 0 <= i < |ids| ==> ValidId(ids[i])
  }

  lemma {:induction false} DistinctConcat(a: seq<string>, b: seq<string>)
    ensures Distinct(a + b) <==> Distinct(a) && Distinct(b) && forall x :: x in a ==> x !in b
  {
    if Distinct(a + b) {
      forall i, j | 0 <= i < j < |a| ensures a[i] != a[j] { assert (a + b)[i] != (a + b)[j]; }
      forall i, j | 0 <= i < j < |b| ensures b[i] != b[j] { assert (a + b)[|a| + i] != (a + b)[|a| + j]; }
      forall x | x in a ensures x !in b {
        var i :| 0 <= i < |a| && a[i] == x;
        forall j | 0 <= j < |b| ensures b[j] != x { assert (a + b)[i] != (a + b)[|a| + j]; }
      }
    }
    if Distinct(a) && Distinct(b) && forall x :: x in a ==> x !in b {
      forall i, j | 0 <= i < j < |a + b| ensures (a + b)[i] != (a + b)[j] {
        if i < |a| <= j { assert a[i] in a && b[j - |a|] in b; }
      }
    }
  }

  lemma {:induction false} PartDistinct(es: seq<Entity>, k: nat)
    requires k < |es| && Distinct(WalkAll(es).ids)
    ensures Distinct(Walk(es[k]).ids)
  {
    hide Walk, Distinct;
    var init, last := es[..|es| - 1], es[|es| - 1];
    DistinctConcat(WalkAll(init).ids, Walk(last).ids);
    if k < |es| - 1 { PartDistinct(init, k); }
  }

  lemma {:induction false} PartsApart(es: seq<Entity>, i: nat, j: nat, x: string)
    requires i < |es| && j < |es| && i != j && Distinct(WalkAll(es).ids) && x in Walk(es[i]).ids
    ensures x !in Walk(es[j]).ids
  {
    hide Walk, Distinct;
    var init, last := es[..|es| - 1], es[|es| - 1];
    DistinctConcat(WalkAll(init).ids, Walk(last).ids);
    if i < |es| - 1 && j < |es| - 1 {
      PartsApart(init, i, j, x);
    } else if x in Walk(es[j]).ids {
      PartSays(init, if i < |es| - 1 then i else j, IdFact(x));
    }
  }

  lemma NamedSays(e: Entity, place: seq<nat>, x: string)
    ensures SaysAt(e, place, IdFact(x)) <==> Named(e, place) && NameAt(e, place) == x
  {
    hide At;
  }

  /** Ids that occur once in the traversal are different at different places. */
  lemma {:induction false} Apart(e: Entity, p: seq<nat>, q: seq<nat>)
    requires Distinct(Walk(e).ids) && Named(e, p) && Named(e, q) && p != q
    ensures NameAt(e, p) != NameAt(e, q)
    decreases |p|
  {
    hide Distinct, WalkAll;
    DistinctConcat(Own(e).ids, WalkAll(e.parts).ids);
    if p == [] {
      Below(e, q);
    } else if q == [] {
      Below(e, p);
    } else if p[0] == q[0] {
      PartDistinct(e.parts, p[0]);
      assert p == [p[0]] + p[1..] && q == [q[0]] + q[1..];
      Apart(e.parts[p[0]], p[1..], q[1..]);
    } else if NameAt(e, p) == NameAt(e, q) {
      var x := NameAt(e, p);
      Found(e.parts[p[0]], p[1..]);
      Found(e.parts[q[0]], q[1..]);
      PartsApart(e.parts, p[0], q[0], x);
    }
  }

  lemma Found(e: Entity, place: seq<nat>)
    requires Named(e, place)
    ensures NameAt(e, place) in Walk(e).ids
  {
    hide Walk, At;
    NamedSays(e, place, NameAt(e, place));
    Said(e, place, IdFact(NameAt(e, place)));
  }

  lemma Below(e: Entity, place: seq<nat>)
    requires Named(e, place) && place != []
    ensures NameAt(e, place) in WalkAll(e.parts).ids
  {
    hide Walk, WalkAll;
    Found(e.parts[place[0]], place[1..]);
    PartSays(e.parts, place[0], IdFact(NameAt(e, place)));
  }

  /** An id that the traversal meets twice stands at two places. */
  lemma {:induction false} Clash(e: Entity) returns (p: seq<nat>, q: seq<nat>)
    requires !Distinct(Walk(e).ids)
    ensures Named(e, p) && Named(e, q) && p != q && NameAt(e, p) == NameAt(e, q)
    decreases e
  {
    hide WalkAll;
    DistinctConcat(Own(e).ids, WalkAll(e.parts).ids);
    if x :| x in Own(e).ids && x in WalkAll(e.parts).ids {
      var k, place := WhereIn(e.parts, IdFact(x));
      NamedSays(e.parts[k], place, x);
      Down(e, k, place);
      return [], [k] + place;
    }
    var i, a, j, b := ClashIn(e.parts);
    Down(e, i, a);
    Down(e, j, b);
    p, q := [i] + a, [j] + b;
    assert p[0] == i && p[1..] == a;
    assert q[0] == j && q[1..] == b;
  }

  lemma {:induction false} ClashIn(es: seq<Entity>) returns (i: nat, p: seq<nat>, j: nat, q: seq<nat>)
    requires !Distinct(WalkAll(es).ids)
    ensures i < |es| && j < |es| && Named(es[i], p) && Named(es[j], q) && (i != j || p != q) && NameAt(es[i], p) == NameAt(es[j], q)
    decreases es
  {
    hide At, Walk;
    var init, last := es[..|es| - 1], es[|es| - 1];
    DistinctConcat(WalkAll(init).ids, Walk(last).ids);
    if !Distinct(WalkAll(init).ids) {
      i, p, j, q := ClashIn(init);
    } else if !Distinct(Walk(last).ids) {
      p, q := Clash(last);
      i, j := |es| - 1, |es| - 1;
    } else {
      var x :| x in WalkAll(init).ids && x in Walk(last).ids;
      i, p := WhereIn(init, IdFact(x));
      q := Where(last, IdFact(x));
      j := |es| - 1;
      NamedSays(init[i], p, x);
      NamedSays(last, q, x);
    }
  }

  /** The ids of any two different entities differ. */
  ghost predicate IdsDiffer(e: Entity) {
    forall p, q :: Named(e, p) && Named(e, q) && p != q ==> NameAt(e, p) != NameAt(e, q)
  }

  ghost predicate IdsValid(e: Entity) {
    forall p :: Named(e, p) ==> ValidId(NameAt(e, p))
  }

  /** Identifiers are fresh when they are valid and pairwise different by position. */
  lemma {:induction false} FreshMeans(ids: seq<string>)
    ensures Fresh(ids, {}) <==> ValidAll(ids) && Distinct(ids)
  {
    hide ValidId;
    if ids == [] {
    } else {
      FreshMeans(ids[..|ids| - 1]);
    }
  }

  lemma IdsAre(e: Entity)
    ensures Fresh(Walk(e).ids, {}) <==> IdsValid(e) && IdsDiffer(e)
  {
    hide Walk, At, Fresh, Distinct, ValidId;
    var ids := Walk(e).ids;
    FreshMeans(ids);
    if ValidAll(ids) && Distinct(ids) {
      forall p | Named(e, p) ensures ValidId(NameAt(e, p)) { Found(e, p); }
      forall p, q | Named(e, p) && Named(e, q) && p != q ensures NameAt(e, p) != NameAt(e, q) { Apart(e, p, q); }
    }
    if IdsValid(e) && IdsDiffer(e) {
      forall i | 0 <= i < |ids| ensures ValidId(ids[i]) {
        var p := Where(e, IdFact(ids[i]));
        NamedSays(e, p, ids[i]);
      }
      if !Distinct(ids) { var p, q := Clash(e); }
    }
  }

  // ------------------------------------------------------------------- sizes at places

  /** Every collection within its limit, and the whole traversal within its budget, used up at most by the last one. */
  predicate FitsMeans(sizes: seq<nat>) {
    && (forall i :: 0 <= i < |sizes| ==> sizes[i] <= MAX_ITEMS)
    && (sizes != [] ==> Sum(sizes) <= MAX_NODES && Sum(sizes[..|sizes| - 1]) < MAX_NODES)
  }

  lemma {:induction false} FitsIs(sizes: seq<nat>)
    ensures Fits(sizes, 0) <==> FitsMeans(sizes)
  {
    if sizes == [] {
    } else {
      FitsIs(sizes[..|sizes| - 1]);
    }
  }

  /** The items of all collections together. */
  function Weight(e: Entity): nat {
    (if e.size.Some? then e.size.value else 0) + WeightAll(e.parts)
  }

  function WeightAll(es: seq<Entity>): nat {
    if es == [] then 0 else WeightAll(es[..|es| - 1]) + Weight(es[|es| - 1])
  }

  lemma {:induction false} SumConcat(a: seq<nat>, b: seq<nat>)
    ensures Sum(a + b) == Sum(a) + Sum(b)
  {
    if b == [] {
      assert a + b == a;
    } else {
      assert (a + b)[..|a + b| - 1] == a + b[..|b| - 1];
      SumConcat(a, b[..|b| - 1]);
    }
  }

  lemma {:induction false} WeightIs(e: Entity)
    ensures Sum(Walk(e).sizes) == Weight(e)
    decreases e
  {
    hide WalkAll, WeightAll;
    WeightsAre(e.parts);
    SumConcat(Own(e).sizes, WalkAll(e.parts).sizes);
    if e.size.Some? { assert [e.size.value][..0] == []; }
  }

  lemma {:induction false} WeightsAre(es: seq<Entity>)
    ensures Sum(WalkAll(es).sizes) == WeightAll(es)
    decreases es
  {
    hide Walk, Weight;
    if es == [] {
    } else {
      WeightsAre(es[..|es| - 1]);
      WeightIs(es[|es| - 1]);
      SumConcat(WalkAll(es[..|es| - 1]).sizes, Walk(es[|es| - 1]).sizes);
    }
  }

  /**
   * Every collection is within its limit and all of them together within the budget, which only the last one,
   * that of the unsupported entries, may use up.
   */
  ghost predicate SizesFit(d: Document) {
    && (forall p :: At(DocEntity(d), p).Some? && At(DocEntity(d), p).value.size.Some? ==> At(DocEntity(d), p).value.size.value <= 10000)
    && Weight(DocEntity(d)) <= 100000 && Weight(DocEntity(d)) - |d.unsupported| < 100000
  }

  lemma {:induction false} EntriesSizes(us: seq<Unsupported>)
    ensures EntriesTrace(us).sizes == []
  {
    if us == [] {
    } else {
      EntriesSizes(us[..|us| - 1]);
    }
  }

  lemma LastSize(d: Document)
    ensures var sizes := DocTrace(d).sizes; sizes != [] && sizes[|sizes| - 1] == |d.unsupported|
  {
    hide CommentsPart, EntriesTrace;
    EntriesSizes(d.unsupported);
  }

  lemma SizesAre(d: Document)
    ensures Fits(DocTrace(d).sizes, 0) <==> SizesFit(d)
  {
    hide DocTrace, DocEntity, Walk, Weight, Fits, At;
    var e, sizes := DocEntity(d), DocTrace(d).sizes;
    FitsIs(sizes);
    DocWalk(d);
    WeightIs(e);
    LastSize(d);
    if SizesFit(d) {
      forall i | 0 <= i < |sizes| ensures sizes[i] <= MAX_ITEMS {
        var p := Where(e, SizeFact(sizes[i]));
      }
    }
    if FitsMeans(sizes) {
      forall p | At(e, p).Some? && At(e, p).value.size.Some? ensures At(e, p).value.size.value <= MAX_ITEMS {
        Said(e, p, SizeFact(At(e, p).value.size.value));
      }
    }
  }

  // --------------------------------------------------------------- references at places

  /** An object of the reference's kind bears the id it names. */
  ghost predicate Stands(d: Document, r: Ref) {
    match r.target
    case ModeledId => exists p :: Named(DocEntity(d), p) && NameAt(DocEntity(d), p) == r.id
    case BodyBlock => r.id != "" && exists i :: 0 <= i < |d.body.blocks| && d.body.blocks[i].id == r.id
    case StoryOf(kind) => exists i :: 0 <= i < |AllStories(d)| && AllStories(d)[i].kind == kind && AllStories(d)[i].id == r.id
    case CommentItem => r.id != "" && exists i :: 0 <= i < |d.comments| && d.comments[i].id == r.id
    case MediaPart => exists i :: 0 <= i < |d.passthrough| && d.passthrough[i].media && d.passthrough[i].name == r.id
  }

  lemma {:induction false} BlockIdsAre(bs: seq<Block>, x: string)
    ensures x in BlockIds(bs) <==> x != "" && exists i :: 0 <= i < |bs| && bs[i].id == x
  {
    if bs == [] {
    } else {
      var init := bs[..|bs| - 1];
      BlockIdsAre(init, x);
      if i :| 0 <= i < |init| && init[i].id == x { assert bs[i].id == x; }
      if i :| 0 <= i < |bs| && bs[i].id == x { assert i < |init| ==> init[i].id == x; }
    }
  }

  lemma StandsIs(d: Document, r: Ref)
    ensures Resolves(d, r) <==> Stands(d, r)
  {
    hide DocTrace, DocEntity, AllStories, BlockIds, At;
    match r.target
    case ModeledId =>
      DocWalk(d);
      var e := DocEntity(d);
      if r.id in DocTrace(d).ids {
        var p := Where(e, IdFact(r.id));
        NamedSays(e, p, r.id);
      }
      if p :| Named(e, p) && NameAt(e, p) == r.id { Found(e, p); }
    case BodyBlock => BlockIdsAre(d.body.blocks, r.id);
    case _ =>
  }

  /** Every reference at every place stands. */
  ghost predicate RefsStand(d: Document) {
    forall p :: At(DocEntity(d), p).Some? && At(DocEntity(d), p).value.ref.Some? ==> Stands(d, At(DocEntity(d), p).value.ref.value)
  }

  lemma ReferencesAre(d: Document)
    ensures RefsResolve(d) <==> RefsStand(d)
  {
    hide DocTrace, DocEntity, Walk, At, Stands, Resolves;
    var e := DocEntity(d);
    DocWalk(d);
    if RefsStand(d) {
      forall i | 0 <= i < |DocTrace(d).refs| ensures Resolves(d, DocTrace(d).refs[i]) {
        var r := DocTrace(d).refs[i];
        var p := Where(e, RefFact(r));
        StandsIs(d, r);
      }
    }
    if RefsResolve(d) {
      forall p | At(e, p).Some? && At(e, p).value.ref.Some? ensures Stands(d, At(e, p).value.ref.value) {
        var r := At(e, p).value.ref.value;
        Said(e, p, RefFact(r));
        StandsIs(d, r);
      }
    }
  }
}
