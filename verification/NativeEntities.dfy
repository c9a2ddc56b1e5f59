/** A document as a tree of entities; the traversal declares what they declare, each of them once and in order. */
module NativeEntities {
  import opened Prelude
  import opened NativeContract
  import opened NativeValidation

  /** What an entity declares itself, an id, a reference, the size of a collection, and the entities it holds. */
  datatype Entity = Entity(id: Option<string>, ref: Option<Ref>, size: Option<nat>, parts: seq<Entity>)

  // ------------------------------------------------------------- the entities of a document

  function RefOf(id: string, target: Target): Option<Ref> {
    if id == "" then None else Some(Ref(id, target))
  }

  /** A collection that the traversal counts. */
  function Counted(parts: seq<Entity>): Entity {
    Entity(None, None, Some(|parts|), parts)
  }

  function Leaf(id: string, ref: Option<Ref>): Entity {
    Entity(Some(id), ref, None, [])
  }

  function DrawingEntity(d: Drawing): Entity {
    Leaf(d.id, if d.media.Some? then RefOf(d.media.value, MediaPart) else None)
  }

  function RunEntity(r: Run): Entity {
    if r.kind == ReferenceRun && r.reference.Some? then
      Leaf(r.id, RefOf(r.reference.value.id, r.reference.value.target))
    else if r.kind == DrawingRun && r.drawing.Some? then
      Entity(Some(r.id), None, None, [DrawingEntity(r.drawing.value)])
    else
      Leaf(r.id, None)
  }

  function RunEntities(rs: seq<Run>): (es: seq<Entity>)
    ensures |es| == |rs|
  {
    seq(|rs|, i requires 0 <= i < |rs| => RunEntity(rs[i]))
  }

  function ParagraphEntity(p: Paragraph): Entity {
    Counted(RunEntities(p.runs)).(id := Some(p.id))
  }

  function ParagraphEntities(ps: seq<Paragraph>): (es: seq<Entity>)
    ensures |es| == |ps|
  {
    seq(|ps|, i requires 0 <= i < |ps| => ParagraphEntity(ps[i]))
  }

  function CellEntity(c: Cell): Entity {
    Counted(ParagraphEntities(c.paragraphs)).(id := Some(c.id))
  }

  function CellEntities(cs: seq<Cell>): (es: seq<Entity>)
    ensures |es| == |cs|
  {
    seq(|cs|, i requires 0 <= i < |cs| => CellEntity(cs[i]))
  }

  function RowEntity(r: Row): Entity {
    Counted(CellEntities(r.cells)).(id := Some(r.id))
  }

  function RowEntities(rs: seq<Row>): (es: seq<Entity>)
    ensures |es| == |rs|
  {
    seq(|rs|, i requires 0 <= i < |rs| => RowEntity(rs[i]))
  }

  /** A block is its payload; the id that both carry is declared once. */
  function BlockEntity(b: Block): Entity {
    if b.kind == ParagraphBlock && b.paragraph.Some? && b.table.None? then
      Counted(RunEntities(b.paragraph.value.runs)).(id := Some(b.id))
    else if b.kind == TableBlock && b.table.Some? && b.paragraph.None? then
      Counted(RowEntities(b.table.value.rows)).(id := Some(b.id))
    else
      Leaf(b.id, None)
  }

  function BlockEntities(bs: seq<Block>): (es: seq<Entity>)
    ensures |es| == |bs|
  {
    seq(|bs|, i requires 0 <= i < |bs| => BlockEntity(bs[i]))
  }

  function StoryEntity(s: Story): Entity {
    Counted(BlockEntities(s.blocks)).(id := Some(s.id))
  }

  function StoryEntities(ss: seq<Story>): (es: seq<Entity>)
    ensures |es| == |ss|
  {
    seq(|ss|, i requires 0 <= i < |ss| => StoryEntity(ss[i]))
  }

  function Columns(ids: seq<string>): (es: seq<Entity>)
    ensures |es| == |ids|
  {
    seq(|ids|, i requires 0 <= i < |ids| => Leaf(ids[i], None))
  }

  function Mention(id: string, target: Target): Entity {
    Entity(None, RefOf(id, target), None, [])
  }

  function Mentions(ids: seq<string>, target: Target): (es: seq<Entity>)
    ensures |es| == |ids|
  {
    seq(|ids|, i requires 0 <= i < |ids| => Mention(ids[i], target))
  }

  function SectionEntity(s: Section): Entity {
    Entity(Some(s.id), RefOf(s.startsAt, BodyBlock), None,
           Columns(s.columns) + [Counted(Mentions(s.headers, StoryOf(HeaderStory)))] + [Counted(Mentions(s.footers, StoryOf(FooterStory)))])
  }

  function SectionEntities(ss: seq<Section>): (es: seq<Entity>)
    ensures |es| == |ss|
  {
    seq(|ss|, i requires 0 <= i < |ss| => SectionEntity(ss[i]))
  }

  function CommentEntities(cs: seq<Comment>): (es: seq<Entity>)
    ensures |es| == |cs|
  {
    seq(|cs|, i requires 0 <= i < |cs| => Leaf(cs[i].id, RefOf(cs[i].story, StoryOf(CommentStory))))
  }

  function EntryEntities(us: seq<Unsupported>): (es: seq<Entity>)
    ensures |es| == |us|
  {
    seq(|us|, i requires 0 <= i < |us| => Leaf(us[i].id, RefOf(us[i].scope, ModeledId)))
  }

  function Only(n: nat): Entity {
    Entity(None, None, Some(n), [])
  }

  function DocEntity(d: Document): Entity {
    Entity(Some(d.id), None, None,
           [StoryEntity(d.body)] + [Counted(SectionEntities(d.sections))] + [Counted(StoryEntities(d.headers))]
           + [Counted(StoryEntities(d.footers))] + [Counted(StoryEntities(d.notes))] + [Counted(StoryEntities(d.commentStories))]
           + [Counted(CommentEntities(d.comments))] + [Only(|d.capabilities|)] + [Only(|d.passthrough|)]
           + [Counted(EntryEntities(d.unsupported))])
  }

  // ------------------------------------------------------------------------- the traversal

  function Own(e: Entity): Trace {
    NOTHING.(ids := if e.id.Some? then [e.id.value] else [],
             refs := if e.ref.Some? then [e.ref.value] else [],
             sizes := if e.size.Some? then [e.size.value] else [])
  }

  /** What an entity and everything in it declare, in order. */
  function Walk(e: Entity): Trace {
    Join(Own(e), WalkAll(e.parts))
  }

  function WalkAll(es: seq<Entity>): Trace {
    if es == [] then NOTHING else Join(WalkAll(es[..|es| - 1]), Walk(es[|es| - 1]))
  }

  predicate Same(a: Trace, b: Trace) {
    a.ids == b.ids && a.refs == b.refs && a.sizes == b.sizes
  }

  lemma WalkSnoc(es: seq<Entity>, e: Entity)
    ensures WalkAll(es + [e]) == Join(WalkAll(es), Walk(e))
  {
    assert (es + [e])[..|es|] == es;
  }

  lemma WalkNothing()
    ensures WalkAll([]) == NOTHING
  {
  }

  lemma JoinAssoc(a: Trace, b: Trace, c: Trace)
    ensures Join(Join(a, b), c) == Join(a, Join(b, c))
  {
  }

  lemma JoinUnit(a: Trace)
    ensures Join(a, NOTHING) == a && Join(NOTHING, a) == a
  {
  }

  lemma WalkOf(e: Entity)
    ensures Walk(e) == Join(Own(e), WalkAll(e.parts))
  {
  }

  lemma CountedOwn(parts: seq<Entity>, id: Option<string>)
    ensures Own(Counted(parts).(id := id)) == Join(if id.Some? then IdTrace(id.value) else NOTHING, SizeTrace(|parts|))
  {
  }

  lemma CountedWalk(parts: seq<Entity>, id: Option<string>)
    ensures Walk(Counted(parts).(id := id)) == Join(if id.Some? then IdTrace(id.value) else NOTHING, Join(SizeTrace(|parts|), WalkAll(parts)))
  {
    hide Walk, WalkAll, Join, Own;
    WalkOf(Counted(parts).(id := id));
    CountedOwn(parts, id);
    JoinAssoc(if id.Some? then IdTrace(id.value) else NOTHING, SizeTrace(|parts|), WalkAll(parts));
  }

  lemma LeafWalk(id: string, target: string, kind: Target)
    ensures Walk(Leaf(id, RefOf(target, kind))) == Join(IdTrace(id), RefTrace(target, kind))
    ensures Walk(Leaf(id, None)) == IdTrace(id)
  {
  }

  /** One more entity of a collection. */
  lemma Snoc(es: seq<Entity>, e: Entity, done: Trace, t: Trace)
    requires Same(done, WalkAll(es)) && Same(t, Walk(e))
    ensures Same(Join(done, t), WalkAll(es + [e]))
  {
    hide Walk, WalkAll;
    WalkSnoc(es, e);
  }

  lemma WalkStart()
    ensures Same(NOTHING, WalkAll([]))
  {
  }

  /** A counted collection with an id. */
  lemma HeldWalk(parts: seq<Entity>, id: string, t: Trace)
    requires Same(t, WalkAll(parts))
    ensures Same(Join(IdTrace(id), Join(SizeTrace(|parts|), t)), Walk(Counted(parts).(id := Some(id))))
  {
    hide WalkAll;
    CountedWalk(parts, Some(id));
  }

  lemma PlainWalk(parts: seq<Entity>, t: Trace)
    requires Same(t, WalkAll(parts))
    ensures Same(Join(SizeTrace(|parts|), t), Walk(Counted(parts)))
  {
    hide WalkAll;
    CountedWalk(parts, None);
  }

  lemma RunWalk(r: Run)
    ensures Same(RunTrace(r), Walk(RunEntity(r)))
  {
    if r.kind == ReferenceRun && r.reference.Some? {
      LeafWalk(r.id, r.reference.value.id, r.reference.value.target);
    } else if r.kind == DrawingRun && r.drawing.Some? {
      var d := r.drawing.value;
      assert [] + [DrawingEntity(d)] == [DrawingEntity(d)];
      WalkSnoc([], DrawingEntity(d));
      JoinUnit(Walk(DrawingEntity(d)));
      if d.media.Some? { LeafWalk(d.id, d.media.value, MediaPart); } else { LeafWalk(d.id, "", MediaPart); }
    } else {
      LeafWalk(r.id, "", MediaPart);
    }
  }

  lemma {:induction false} RunsWalk(xs: seq<Run>)
    ensures Same(RunsTrace(xs), WalkAll(RunEntities(xs)))
  {
    hide RunTrace, RunEntity, WalkAll, Walk, Join, Same;
    if xs == [] {
      WalkStart();
      assert RunEntities(xs) == [];
    } else {
      var init, last := xs[..|xs| - 1], xs[|xs| - 1];
      RunsWalk(init);
      RunWalk(last);
      Snoc(RunEntities(init), RunEntity(last), RunsTrace(init), RunTrace(last));
      assert RunEntities(xs) == RunEntities(init) + [RunEntity(last)];
    }
  }

  lemma {:induction false} ParagraphsWalk(xs: seq<Paragraph>)
    ensures Same(ParagraphsTrace(xs), WalkAll(ParagraphEntities(xs)))
  {
    hide RunsTrace, RunEntities, WalkAll, Walk, Join, Same;
    if xs == [] {
      WalkStart();
      assert ParagraphEntities(xs) == [];
    } else {
      var init, last := xs[..|xs| - 1], xs[|xs| - 1];
      ParagraphsWalk(init);
      RunsWalk(last.runs);
      HeldWalk(RunEntities(last.runs), last.id, RunsTrace(last.runs));
      Snoc(ParagraphEntities(init), ParagraphEntity(last), ParagraphsTrace(init), ParagraphTrace(last, true));
      assert ParagraphEntities(xs) == ParagraphEntities(init) + [ParagraphEntity(last)];
    }
  }

  lemma {:induction false} CellsWalk(xs: seq<Cell>)
    ensures Same(CellsTrace(xs), WalkAll(CellEntities(xs)))
  {
    hide ParagraphsTrace, ParagraphEntities, WalkAll, Walk, Join, Same;
    if xs == [] {
      WalkStart();
      assert CellEntities(xs) == [];
    } else {
      var init, last := xs[..|xs| - 1], xs[|xs| - 1];
      CellsWalk(init);
      ParagraphsWalk(last.paragraphs);
      HeldWalk(ParagraphEntities(last.paragraphs), last.id, ParagraphsTrace(last.paragraphs));
      Snoc(CellEntities(init), CellEntity(last), CellsTrace(init), CellTrace(last));
      assert CellEntities(xs) == CellEntities(init) + [CellEntity(last)];
    }
  }

  lemma {:induction false} RowsWalk(xs: seq<Row>)
    ensures Same(RowsTrace(xs), WalkAll(RowEntities(xs)))
  {
    hide CellsTrace, CellEntities, WalkAll, Walk, Join, Same;
    if xs == [] {
      WalkStart();
      assert RowEntities(xs) == [];
    } else {
      var init, last := xs[..|xs| - 1], xs[|xs| - 1];
      RowsWalk(init);
      CellsWalk(last.cells);
      HeldWalk(CellEntities(last.cells), last.id, CellsTrace(last.cells));
      Snoc(RowEntities(init), RowEntity(last), RowsTrace(init), RowTrace(last));
      assert RowEntities(xs) == RowEntities(init) + [RowEntity(last)];
    }
  }

  lemma BlockWalk(b: Block, body: bool)
    ensures Same(BlockTrace(b, body), Walk(BlockEntity(b)))
  {
    hide RunsTrace, RowsTrace, RunEntities, RowEntities, WalkAll, Walk;
    if b.kind == ParagraphBlock && b.paragraph.Some? && b.table.None? {
      var runs := b.paragraph.value.runs;
      RunsWalk(runs);
      HeldWalk(RunEntities(runs), b.id, RunsTrace(runs));
      JoinUnit(Join(SizeTrace(|runs|), RunsTrace(runs)));
    } else if b.kind == TableBlock && b.table.Some? && b.paragraph.None? {
      var rows := b.table.value.rows;
      RowsWalk(rows);
      HeldWalk(RowEntities(rows), b.id, RowsTrace(rows));
    } else {
      LeafWalk(b.id, "", MediaPart);
    }
  }

  lemma {:induction false} BlocksWalk(xs: seq<Block>, body: bool)
    ensures Same(BlocksTrace(xs, body), WalkAll(BlockEntities(xs)))
  {
    hide BlockTrace, BlockEntity, WalkAll, Walk, Join, Same;
    if xs == [] {
      WalkStart();
      assert BlockEntities(xs) == [];
    } else {
      var init, last := xs[..|xs| - 1], xs[|xs| - 1];
      BlocksWalk(init, body);
      BlockWalk(last, body);
      Snoc(BlockEntities(init), BlockEntity(last), BlocksTrace(init, body), BlockTrace(last, body));
      assert BlockEntities(xs) == BlockEntities(init) + [BlockEntity(last)];
    }
  }

  lemma StoryWalk(s: Story)
    ensures Same(StoryTrace(s), Walk(StoryEntity(s)))
  {
    hide BlocksTrace, BlockEntities, WalkAll, Walk;
    BlocksWalk(s.blocks, s.kind == BodyStory);
    HeldWalk(BlockEntities(s.blocks), s.id, BlocksTrace(s.blocks, s.kind == BodyStory));
  }

  lemma {:induction false} StoriesWalk(xs: seq<Story>)
    ensures Same(StoriesTrace(xs), WalkAll(StoryEntities(xs)))
  {
    hide StoryTrace, StoryEntity, WalkAll, Walk, Join, Same;
    if xs == [] {
      WalkStart();
      assert StoryEntities(xs) == [];
    } else {
      var init, last := xs[..|xs| - 1], xs[|xs| - 1];
      StoriesWalk(init);
      StoryWalk(last);
      Snoc(StoryEntities(init), StoryEntity(last), StoriesTrace(init), StoryTrace(last));
      assert StoryEntities(xs) == StoryEntities(init) + [StoryEntity(last)];
    }
  }

  lemma {:induction false} ColumnsWalk(ids: seq<string>)
    ensures Same(IdsTrace(ids), WalkAll(Columns(ids)))
  {
    hide WalkAll, Walk;
    if ids == [] {
      WalkNothing();
    } else {
      var init, last := ids[..|ids| - 1], ids[|ids| - 1];
      ColumnsWalk(init);
      LeafWalk(last, "", MediaPart);
      Snoc(Columns(init), Leaf(last, None), IdsTrace(init), IdTrace(last));
      assert Columns(ids) == Columns(init) + [Leaf(last, None)];
      assert ids == init + [last];
    }
  }

  lemma {:induction false} MentionsWalk(ids: seq<string>, target: Target)
    ensures Same(RefsTrace(ids, target), WalkAll(Mentions(ids, target)))
  {
    hide WalkAll, Walk, Join, Same;
    if ids == [] {
      WalkStart();
      assert Mentions(ids, target) == [];
    } else {
      var init, last := ids[..|ids| - 1], ids[|ids| - 1];
      MentionsWalk(init, target);
      MentionWalk(last, target);
      Snoc(Mentions(init, target), Mention(last, target), RefsTrace(init, target), RefTrace(last, target));
      assert Mentions(ids, target) == Mentions(init, target) + [Mention(last, target)];
    }
  }

  lemma MentionWalk(id: string, target: Target)
    ensures Same(RefTrace(id, target), Walk(Mention(id, target)))
  {
    WalkNothing();
  }

  lemma SectionWalk(s: Section)
    ensures Same(SectionTrace(s), Walk(SectionEntity(s)))
  {
    hide WalkAll, Walk, Columns, Mentions, IdsTrace, RefsTrace, Same, Join;
    var columns := Columns(s.columns);
    var headers, footers := Mentions(s.headers, StoryOf(HeaderStory)), Mentions(s.footers, StoryOf(FooterStory));
    var root, t := Join(IdTrace(s.id), RefTrace(s.startsAt, BodyBlock)), IdsTrace(s.columns);
    ColumnsWalk(s.columns);
    Rooted(root, columns, t);
    t := Join(root, t);
    MentionsWalk(s.headers, StoryOf(HeaderStory));
    PlainWalk(headers, RefsTrace(s.headers, StoryOf(HeaderStory)));
    Further(root, columns, Counted(headers), t, RefListTrace(s.headers, StoryOf(HeaderStory)));
    t := Join(t, RefListTrace(s.headers, StoryOf(HeaderStory)));
    MentionsWalk(s.footers, StoryOf(FooterStory));
    PlainWalk(footers, RefsTrace(s.footers, StoryOf(FooterStory)));
    Further(root, columns + [Counted(headers)], Counted(footers), t, RefListTrace(s.footers, StoryOf(FooterStory)));
    WalkOf(SectionEntity(s));
    SectionOwn(s);
  }

  lemma SectionOwn(s: Section)
    ensures Own(SectionEntity(s)) == Join(IdTrace(s.id), RefTrace(s.startsAt, BodyBlock))
  {
  }

  lemma Rooted(root: Trace, es: seq<Entity>, t: Trace)
    requires Same(t, WalkAll(es))
    ensures Same(Join(root, t), Join(root, WalkAll(es)))
  {
    hide WalkAll;
  }

  lemma {:induction false} SectionsWalk(xs: seq<Section>)
    ensures Same(SectionsTrace(xs), WalkAll(SectionEntities(xs)))
  {
    hide SectionTrace, SectionEntity, WalkAll, Walk, Join, Same;
    if xs == [] {
      WalkStart();
      assert SectionEntities(xs) == [];
    } else {
      var init, last := xs[..|xs| - 1], xs[|xs| - 1];
      SectionsWalk(init);
      SectionWalk(last);
      Snoc(SectionEntities(init), SectionEntity(last), SectionsTrace(init), SectionTrace(last));
      assert SectionEntities(xs) == SectionEntities(init) + [SectionEntity(last)];
    }
  }

  lemma LeafSame(id: string, target: string, kind: Target)
    ensures Same(Join(IdTrace(id), RefTrace(target, kind)), Walk(Leaf(id, RefOf(target, kind))))
  {
    LeafWalk(id, target, kind);
  }

  lemma {:induction false} CommentsWalk(xs: seq<Comment>)
    ensures Same(CommentsTrace(xs), WalkAll(CommentEntities(xs)))
  {
    hide RefOf, WalkAll, Walk, Join, Same;
    if xs == [] {
      WalkStart();
      assert CommentEntities(xs) == [];
    } else {
      var init, last := xs[..|xs| - 1], xs[|xs| - 1];
      CommentsWalk(init);
      LeafSame(last.id, last.story, StoryOf(CommentStory));
      Snoc(CommentEntities(init), Leaf(last.id, RefOf(last.story, StoryOf(CommentStory))), CommentsTrace(init), CommentTrace(last));
      assert CommentEntities(xs) == CommentEntities(init) + [Leaf(last.id, RefOf(last.story, StoryOf(CommentStory)))];
    }
  }

  lemma {:induction false} EntriesWalk(xs: seq<Unsupported>)
    ensures Same(EntriesTrace(xs), WalkAll(EntryEntities(xs)))
  {
    hide RefOf, WalkAll, Walk, Join, Same;
    if xs == [] {
      WalkStart();
      assert EntryEntities(xs) == [];
    } else {
      var init, last := xs[..|xs| - 1], xs[|xs| - 1];
      EntriesWalk(init);
      LeafSame(last.id, last.scope, ModeledId);
      Snoc(EntryEntities(init), Leaf(last.id, RefOf(last.scope, ModeledId)), EntriesTrace(init), EntryTrace(last));
      assert EntryEntities(xs) == EntryEntities(init) + [Leaf(last.id, RefOf(last.scope, ModeledId))];
    }
  }

  /** What was traversed so far, and one more entity of the document. */
  lemma Further(root: Trace, es: seq<Entity>, e: Entity, done: Trace, t: Trace)
    requires Same(done, Join(root, WalkAll(es))) && Same(t, Walk(e))
    ensures Same(Join(done, t), Join(root, WalkAll(es + [e])))
  {
    hide Walk, WalkAll;
    WalkSnoc(es, e);
  }

  lemma ListWalk(ss: seq<Story>)
    ensures Same(ListTrace(ss), Walk(Counted(StoryEntities(ss))))
  {
    hide StoriesTrace, StoryEntities, WalkAll, Walk;
    StoriesWalk(ss);
    PlainWalk(StoryEntities(ss), StoriesTrace(ss));
  }

  /** The traversal of a document declares what its entities declare, each of them once. */
  lemma DocWalk(d: Document)
    ensures Same(DocTrace(d), Walk(DocEntity(d)))
  {
    hide StoryTrace, StoryEntity, SectionsTrace, SectionEntities, ListTrace, StoryEntities, CommentsTrace, CommentEntities,
         EntriesTrace, EntryEntities, Walk, WalkAll, Join, Same, Counted;
    var root := IdTrace(d.id);
    var head := root.(parts := if d.mainPart != "" then [d.mainPart] else []);
    WalkNothing();
    StoryWalk(d.body);
    Begun(root, d);
    Further(root, [], StoryEntity(d.body), head, StoryTrace(d.body));
    var e0 := [] + [StoryEntity(d.body)];
    SectionsWalk(d.sections);
    PlainWalk(SectionEntities(d.sections), SectionsTrace(d.sections));
    Further(root, e0, Counted(SectionEntities(d.sections)), HeadTrace(d), Join(SizeTrace(|d.sections|), SectionsTrace(d.sections)));
    var e1 := e0 + [Counted(SectionEntities(d.sections))];
    StoryListsWalk(d, root, e1);
    var e2 := e1 + StoryLists(d);
    RestWalk(d, root, e2);
    assert e2 + RestLists(d) == DocEntity(d).parts;
    assert Own(DocEntity(d)) == root;
    WalkOf(DocEntity(d));
  }

  lemma Begun(root: Trace, d: Document)
    ensures Same(root.(parts := if d.mainPart != "" then [d.mainPart] else []), Join(root, WalkAll([])))
  {
  }

  function StoryLists(d: Document): seq<Entity> {
    [Counted(StoryEntities(d.headers))] + [Counted(StoryEntities(d.footers))] + [Counted(StoryEntities(d.notes))]
    + [Counted(StoryEntities(d.commentStories))]
  }

  lemma StoryListsWalk(d: Document, root: Trace, es: seq<Entity>)
    requires Same(SectionsPart(d), Join(root, WalkAll(es)))
    ensures Same(StoriesPart(d), Join(root, WalkAll(es + StoryLists(d))))
  {
    hide StoryEntities, ListTrace, SectionsPart, Walk, WalkAll, Join, Same;
    var h, f, n, c := Counted(StoryEntities(d.headers)), Counted(StoryEntities(d.footers)), Counted(StoryEntities(d.notes)),
      Counted(StoryEntities(d.commentStories));
    ListWalk(d.headers);
    ListWalk(d.footers);
    ListWalk(d.notes);
    ListWalk(d.commentStories);
    var t := SectionsPart(d);
    Further(root, es, h, t, ListTrace(d.headers));
    t := Join(t, ListTrace(d.headers));
    Further(root, es + [h], f, t, ListTrace(d.footers));
    t := Join(t, ListTrace(d.footers));
    Further(root, es + [h] + [f], n, t, ListTrace(d.notes));
    t := Join(t, ListTrace(d.notes));
    Further(root, es + [h] + [f] + [n], c, t, ListTrace(d.commentStories));
    assert es + [h] + [f] + [n] + [c] == es + StoryLists(d);
  }

  function RestLists(d: Document): seq<Entity> {
    [Counted(CommentEntities(d.comments))] + [Only(|d.capabilities|)] + [Only(|d.passthrough|)] + [Counted(EntryEntities(d.unsupported))]
  }

  lemma RestWalk(d: Document, root: Trace, es: seq<Entity>)
    requires Same(StoriesPart(d), Join(root, WalkAll(es)))
    ensures Same(DocTrace(d), Join(root, WalkAll(es + RestLists(d))))
  {
    hide CommentEntities, CommentsTrace, EntryEntities, EntriesTrace, StoriesPart, Walk, WalkAll, Join, Same;
    var c, u := Counted(CommentEntities(d.comments)), Counted(EntryEntities(d.unsupported));
    var a, p := Only(|d.capabilities|), Only(|d.passthrough|);
    PlainWalk(CommentEntities(d.comments), CommentsTrace(d.comments)) by { CommentsWalk(d.comments); }
    PlainWalk(EntryEntities(d.unsupported), EntriesTrace(d.unsupported)) by { EntriesWalk(d.unsupported); }
    OnlyWalk(|d.capabilities|);
    OnlyWalk(|d.passthrough|);
    var t, ct, ut := StoriesPart(d), Join(SizeTrace(|d.comments|), CommentsTrace(d.comments)), Join(SizeTrace(|d.unsupported|), EntriesTrace(d.unsupported));
    Further(root, es, c, t, ct);
    t := Join(t, ct);
    Further(root, es + [c], a, t, SizeTrace(|d.capabilities|));
    t := Join(t, SizeTrace(|d.capabilities|));
    Further(root, es + [c] + [a], p, t, SizeTrace(|d.passthrough|));
    t := Join(t, SizeTrace(|d.passthrough|));
    Further(root, es + [c] + [a] + [p], u, t, ut);
    assert es + [c] + [a] + [p] + [u] == es + RestLists(d);
  }

  lemma OnlyWalk(n: nat)
    ensures Same(SizeTrace(n), Walk(Only(n)))
  {
    WalkNothing();
  }
}
