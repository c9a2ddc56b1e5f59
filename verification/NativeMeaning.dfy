/** What it means that a document meets the contract, by positions. */
module NativeMeaning {
  import opened Prelude
  import opened NativeContract
  import opened NativeValidation
  import opened NativeEntities
  import opened NativePlaces

  // -------------------------------------------------------------------------- anchors

  function Span(a: Anchor): Bounds {
    Bounds(a.part, if a.start.Some? then a.start.value else 0, if a.end.Some? then a.end.value else 0)
  }

  /** An interval that is not empty, in a part, and in the owner's part when there is one. */
  predicate Complete(a: Anchor, owner: string) {
    && a.lexical && a.start.Some? && a.end.Some?
    && 0 <= a.start.value < a.end.value <= 9007199254740991
    && a.part != "" && (owner != "" ==> a.part == owner)
  }

  /** A complete anchor inside every one of the anchors around it, in the same part. */
  predicate Sits(a: Anchor, owner: string, outer: seq<Anchor>) {
    Complete(a, owner) && forall k :: 0 <= k < |outer| ==> Within(Span(a), Span(outer[k]))
  }

  /** Anchors each of which sits in all before it. */
  predicate Chain(outer: seq<Anchor>, owner: string) {
    forall j :: 0 <= j < |outer| ==> Sits(outer[j], owner, outer[..j])
  }

  function Parent(outer: seq<Anchor>): Option<Bounds> {
    if outer == [] then None else BoundsOf(outer[|outer| - 1])
  }

  /** Checking an anchor against its parent alone puts it inside all its ancestors. */
  lemma SitsByParent(a: Anchor, owner: string, outer: seq<Anchor>)
    requires Chain(outer, owner)
    ensures AnchorOk(Some(a), owner, Parent(outer)) <==> Sits(a, owner, outer)
    ensures Sits(a, owner, outer) ==> Chain(outer + [a], owner) && Parent(outer + [a]) == BoundsOf(a)
  {
    if outer != [] {
      var p := outer[|outer| - 1];
      assert Sits(p, owner, outer[..|outer| - 1]);
      if AnchorOk(Some(a), owner, Parent(outer)) {
        forall k | 0 <= k < |outer| ensures Within(Span(a), Span(outer[k])) {
          if k < |outer| - 1 { assert outer[..|outer| - 1][k] == outer[k]; }
        }
      }
    }
    if Sits(a, owner, outer) {
      forall j | 0 <= j < |outer| + 1 ensures Sits((outer + [a])[j], owner, (outer + [a])[..j]) {
        assert (outer + [a])[..j] == outer[..j];
        assert j == |outer| ==> outer[..j] == outer;
      }
    }
  }

  // ------------------------------------------------------------------- paragraphs, tables

  /** A run, its link and its drawing inside everything around them. */
  predicate RunMeans(r: Run, owner: string, outer: seq<Anchor>) {
    && Sits(r.anchor, owner, outer) && (r.link.Some? ==> Sits(r.link.value, owner, outer))
    && UnionOk(r) && r.fieldsOk
    && (r.kind == ReferenceRun ==> ValidId(r.reference.value.id))
    && (r.kind == DrawingRun ==> r.drawing.value.fieldsOk && Sits(r.drawing.value.anchor, owner, outer + [r.anchor]))
  }

  predicate ParagraphMeans(p: Paragraph, owner: string, outer: seq<Anchor>) {
    && ValidId(p.id) && p.fieldsOk && Sits(p.anchor, owner, outer)
    && forall i :: 0 <= i < |p.runs| ==> RunMeans(p.runs[i], owner, outer + [p.anchor])
  }

  predicate CellMeans(c: Cell, owner: string, outer: seq<Anchor>) {
    && c.fieldsOk && Sits(c.anchor, owner, outer)
    && forall i :: 0 <= i < |c.paragraphs| ==> ParagraphMeans(c.paragraphs[i], owner, outer + [c.anchor])
  }

  predicate RowMeans(r: Row, owner: string, outer: seq<Anchor>) {
    && r.fieldsOk && Sits(r.anchor, owner, outer)
    && forall i :: 0 <= i < |r.cells| ==> CellMeans(r.cells[i], owner, outer + [r.anchor])
  }

  predicate TableMeans(t: Table, owner: string, outer: seq<Anchor>) {
    && ValidId(t.id) && t.fieldsOk && Sits(t.anchor, owner, outer)
    && forall i :: 0 <= i < |t.rows| ==> RowMeans(t.rows[i], owner, outer + [t.anchor])
  }

  predicate BlockMeans(b: Block, owner: string, outer: seq<Anchor>) {
    match b.kind
    case ParagraphBlock =>
      b.paragraph.Some? && b.table.None? && b.paragraph.value.id == b.id && ParagraphMeans(b.paragraph.value, owner, outer)
    case TableBlock =>
      b.table.Some? && b.paragraph.None? && b.table.value.id == b.id && TableMeans(b.table.value, owner, outer)
    case UnknownBlock => false
  }

  predicate StoryMeans(s: Story, kinds: set<StoryKind>) {
    && s.kind in kinds && s.fieldsOk && s.anchor.Some? && Sits(s.anchor.value, s.part, [])
    && forall i :: 0 <= i < |s.blocks| ==> BlockMeans(s.blocks[i], s.part, [s.anchor.value])
  }

  lemma RunIs(r: Run, owner: string, outer: seq<Anchor>)
    requires Chain(outer, owner)
    ensures RunOk(r, owner, Parent(outer)) <==> RunMeans(r, owner, outer)
  {
    hide AnchorOk, Sits, Chain, Parent, BoundsOf, ValidId;
    SitsByParent(r.anchor, owner, outer);
    if r.link.Some? { SitsByParent(r.link.value, owner, outer); }
    if r.drawing.Some? && Sits(r.anchor, owner, outer) { SitsByParent(r.drawing.value.anchor, owner, outer + [r.anchor]); }
  }

  lemma {:induction false} RunsAre(rs: seq<Run>, owner: string, outer: seq<Anchor>)
    requires Chain(outer, owner)
    ensures RunsOk(rs, owner, Parent(outer)) <==> forall i :: 0 <= i < |rs| ==> RunMeans(rs[i], owner, outer)
  {
    hide Chain, Parent, RunOk, RunMeans;
    if rs == [] {
    } else {
      RunsAre(rs[..|rs| - 1], owner, outer);
      RunIs(rs[|rs| - 1], owner, outer);
    }
  }

  lemma {:induction false} ParagraphIs(p: Paragraph, owner: string, outer: seq<Anchor>)
    requires Chain(outer, owner)
    ensures ParagraphOk(p, owner, Parent(outer)) <==> ParagraphMeans(p, owner, outer)
  {
    hide AnchorOk, Sits, Chain, Parent, BoundsOf, ValidId, RunsOk, RunMeans;
    SitsByParent(p.anchor, owner, outer);
    if Sits(p.anchor, owner, outer) { RunsAre(p.runs, owner, outer + [p.anchor]); }
  }

  lemma {:induction false} ParagraphsAre(ps: seq<Paragraph>, owner: string, outer: seq<Anchor>)
    requires Chain(outer, owner)
    ensures ParagraphsOk(ps, owner, Parent(outer)) <==> forall i :: 0 <= i < |ps| ==> ParagraphMeans(ps[i], owner, outer)
  {
    hide Chain, Parent, ParagraphOk, ParagraphMeans;
    if ps == [] {
    } else {
      ParagraphsAre(ps[..|ps| - 1], owner, outer);
      ParagraphIs(ps[|ps| - 1], owner, outer);
    }
  }

  lemma {:induction false} CellIs(c: Cell, owner: string, outer: seq<Anchor>)
    requires Chain(outer, owner)
    ensures CellOk(c, owner, Parent(outer)) <==> CellMeans(c, owner, outer)
  {
    hide AnchorOk, Sits, Chain, Parent, BoundsOf, ParagraphsOk, ParagraphMeans;
    SitsByParent(c.anchor, owner, outer);
    if Sits(c.anchor, owner, outer) { ParagraphsAre(c.paragraphs, owner, outer + [c.anchor]); }
  }

  lemma {:induction false} CellsAre(cs: seq<Cell>, owner: string, outer: seq<Anchor>)
    requires Chain(outer, owner)
    ensures CellsOk(cs, owner, Parent(outer)) <==> forall i :: 0 <= i < |cs| ==> CellMeans(cs[i], owner, outer)
  {
    hide Chain, Parent, CellOk, CellMeans;
    if cs == [] {
    } else {
      CellsAre(cs[..|cs| - 1], owner, outer);
      CellIs(cs[|cs| - 1], owner, outer);
    }
  }

  lemma {:induction false} RowIs(r: Row, owner: string, outer: seq<Anchor>)
    requires Chain(outer, owner)
    ensures RowOk(r, owner, Parent(outer)) <==> RowMeans(r, owner, outer)
  {
    hide AnchorOk, Sits, Chain, Parent, BoundsOf, CellsOk, CellMeans;
    SitsByParent(r.anchor, owner, outer);
    if Sits(r.anchor, owner, outer) { CellsAre(r.cells, owner, outer + [r.anchor]); }
  }

  lemma {:induction false} RowsAre(rs: seq<Row>, owner: string, outer: seq<Anchor>)
    requires Chain(outer, owner)
    ensures RowsOk(rs, owner, Parent(outer)) <==> forall i :: 0 <= i < |rs| ==> RowMeans(rs[i], owner, outer)
  {
    hide Chain, Parent, RowOk, RowMeans;
    if rs == [] {
    } else {
      RowsAre(rs[..|rs| - 1], owner, outer);
      RowIs(rs[|rs| - 1], owner, outer);
    }
  }

  lemma {:induction false} TableIs(t: Table, owner: string, outer: seq<Anchor>)
    requires Chain(outer, owner)
    ensures TableOk(t, owner, Parent(outer)) <==> TableMeans(t, owner, outer)
  {
    hide AnchorOk, Sits, Chain, Parent, BoundsOf, ValidId, RowsOk, RowMeans;
    SitsByParent(t.anchor, owner, outer);
    if Sits(t.anchor, owner, outer) { RowsAre(t.rows, owner, outer + [t.anchor]); }
  }

  lemma {:induction false} BlockIs(b: Block, owner: string, outer: seq<Anchor>)
    requires Chain(outer, owner)
    ensures BlockOk(b, owner, Parent(outer)) <==> BlockMeans(b, owner, outer)
  {
    hide Chain, Parent, ParagraphOk, TableOk, ParagraphMeans, TableMeans;
    if b.paragraph.Some? { ParagraphIs(b.paragraph.value, owner, outer); }
    if b.table.Some? { TableIs(b.table.value, owner, outer); }
  }

  lemma {:induction false} BlocksAre(bs: seq<Block>, owner: string, outer: seq<Anchor>)
    requires Chain(outer, owner)
    ensures BlocksOk(bs, owner, Parent(outer)) <==> forall i :: 0 <= i < |bs| ==> BlockMeans(bs[i], owner, outer)
  {
    hide Chain, Parent, BlockOk, BlockMeans;
    if bs == [] {
    } else {
      BlocksAre(bs[..|bs| - 1], owner, outer);
      BlockIs(bs[|bs| - 1], owner, outer);
    }
  }

  lemma NoAnchor(owner: string)
    ensures !AnchorOk(None, owner, None)
  {
  }

  lemma {:induction false} StoryIs(s: Story, kinds: set<StoryKind>)
    ensures StoryOk(s, kinds) <==> StoryMeans(s, kinds)
  {
    hide AnchorOk, Sits, BoundsOf, BlocksOk, BlockMeans;
    if s.anchor.Some? {
      SitsByParent(s.anchor.value, s.part, []);
      assert [] + [s.anchor.value] == [s.anchor.value];
      if Sits(s.anchor.value, s.part, []) {
        BlocksAre(s.blocks, s.part, [s.anchor.value]);
      }
    } else {
      NoAnchor(s.part);
    }
  }

  lemma {:induction false} StoriesAre(ss: seq<Story>, kinds: set<StoryKind>)
    ensures StoriesOk(ss, kinds) <==> forall i :: 0 <= i < |ss| ==> StoryMeans(ss[i], kinds)
  {
    hide StoryOk, StoryMeans;
    if ss == [] {
    } else {
      StoriesAre(ss[..|ss| - 1], kinds);
      StoryIs(ss[|ss| - 1], kinds);
    }
  }

  // --------------------------------------------------------------- the other collections

  predicate SectionMeans(s: Section, mainPart: string, body: Anchor) {
    && Sits(s.anchor, mainPart, [body]) && ValidId(s.startsAt) && |s.columns| <= 45 && s.fieldsOk
    && (forall i :: 0 <= i < |s.headers| ==> ValidId(s.headers[i]))
    && (forall i :: 0 <= i < |s.footers| ==> ValidId(s.footers[i]))
  }

  predicate EntryMeans(u: Unsupported) {
    u.fieldsOk && ValidId(u.scope) && (u.anchor.Some? ==> Complete(u.anchor.value, ""))
  }

  lemma {:induction false} AllValidIs(ids: seq<string>)
    ensures AllValid(ids) <==> forall i :: 0 <= i < |ids| ==> ValidId(ids[i])
  {
    hide ValidId;
    if ids == [] {
    } else {
      AllValidIs(ids[..|ids| - 1]);
    }
  }

  lemma {:induction false} SectionsAre(ss: seq<Section>, mainPart: string, body: Anchor)
    requires Complete(body, mainPart)
    ensures SectionsOk(ss, mainPart, BoundsOf(body)) <==> forall i :: 0 <= i < |ss| ==> SectionMeans(ss[i], mainPart, body)
  {
    hide AnchorOk, Sits, BoundsOf, ValidId, AllValid, Complete;
    if ss == [] {
    } else {
      var s := ss[|ss| - 1];
      SectionsAre(ss[..|ss| - 1], mainPart, body);
      OneChain(body, mainPart);
      SitsByParent(s.anchor, mainPart, [body]);
      AllValidIs(s.headers);
      AllValidIs(s.footers);
    }
  }

  lemma OneChain(a: Anchor, owner: string)
    requires Complete(a, owner)
    ensures Chain([a], owner) && Parent([a]) == BoundsOf(a)
  {
  }

  lemma {:induction false} EntriesAre(us: seq<Unsupported>)
    ensures EntriesOk(us) <==> forall i :: 0 <= i < |us| ==> EntryMeans(us[i])
  {
    hide ValidId, AnchorOk, Complete;
    if us == [] {
    } else {
      var u := us[|us| - 1];
      EntriesAre(us[..|us| - 1]);
      if u.anchor.Some? { SitsAlone(u.anchor.value, ""); }
    }
  }

  lemma SitsAlone(a: Anchor, owner: string)
    ensures AnchorOk(Some(a), owner, None) <==> Complete(a, owner)
  {
  }

  lemma {:induction false} CapabilitiesAre(names: seq<string>)
    ensures CapabilitiesOk(names) <==> ValidAll(names) && Distinct(names)
  {
    hide ValidId;
    if names == [] {
    } else {
      CapabilitiesAre(names[..|names| - 1]);
    }
  }

  // ------------------------------------------------------------------------ the contract

  predicate StoriesMean(d: Document) {
    && d.fieldsOk && d.body.part == d.mainPart && d.sections != [] && StoryMeans(d.body, {BodyStory})
    && (forall i :: 0 <= i < |d.sections| ==> SectionMeans(d.sections[i], d.mainPart, d.body.anchor.value))
    && (forall i :: 0 <= i < |d.headers| ==> StoryMeans(d.headers[i], {HeaderStory}))
    && (forall i :: 0 <= i < |d.footers| ==> StoryMeans(d.footers[i], {FooterStory}))
    && (forall i :: 0 <= i < |d.notes| ==> StoryMeans(d.notes[i], {FootnoteStory, EndnoteStory}))
    && (forall i :: 0 <= i < |d.commentStories| ==> StoryMeans(d.commentStories[i], {CommentStory}))
  }

  lemma {:induction false} StoriesMeanIs(d: Document)
    ensures StoriesHold(d) <==> StoriesMean(d)
  {
    hide StoriesOk, SectionsOk, StoryOk, StoryMeans, SectionMeans;
    StoryIs(d.body, {BodyStory});
    StoriesAre(d.headers, {HeaderStory});
    StoriesAre(d.footers, {FooterStory});
    StoriesAre(d.notes, {FootnoteStory, EndnoteStory});
    StoriesAre(d.commentStories, {CommentStory});
    if StoryMeans(d.body, {BodyStory}) && d.body.part == d.mainPart {
      BodyAnchor(d.body);
      SectionsAre(d.sections, d.mainPart, d.body.anchor.value);
    }
  }

  lemma BodyAnchor(s: Story)
    requires StoryMeans(s, {BodyStory})
    ensures s.anchor.Some? && Complete(s.anchor.value, s.part) && StoryBounds(s) == BoundsOf(s.anchor.value)
  {
    hide BlockMeans;
  }

  predicate PartOf(ss: seq<Story>, x: string) {
    exists i :: 0 <= i < |ss| && ss[i].part == x
  }

  lemma PartOfConcat(a: seq<Story>, b: seq<Story>, x: string)
    ensures PartOf(a + b, x) <==> PartOf(a, x) || PartOf(b, x)
  {
    if i :| 0 <= i < |a| && a[i].part == x { assert (a + b)[i].part == x; }
    if i :| 0 <= i < |b| && b[i].part == x { assert (a + b)[|a| + i].part == x; }
  }

  lemma {:induction false} ListParts(ss: seq<Story>, x: string)
    ensures x in ListTrace(ss).parts <==> x != "" && PartOf(ss, x)
  {
    hide BlocksTrace, PartOf;
    StoriesParts(ss, x);
  }

  lemma {:induction false} StoryParts(s: Story, x: string)
    ensures x in StoryTrace(s).parts <==> x != "" && s.part == x
  {
    hide BlocksTrace;
    BlocksHold(s.blocks, s.kind == BodyStory);
  }

  lemma {:induction false} StoriesParts(ss: seq<Story>, x: string)
    ensures x in StoriesTrace(ss).parts <==> x != "" && PartOf(ss, x)
  {
    hide StoryTrace;
    if ss == [] {
    } else {
      var init, s := ss[..|ss| - 1], ss[|ss| - 1];
      StoriesParts(init, x);
      StoryParts(s, x);
      PartOfConcat(init, [s], x);
      assert init + [s] == ss;
      OnePart(s, x);
    }
  }

  /** Parts that passthrough parts must not be: the main part and every part a story was read from. */
  lemma {:induction false} ModeledPartsAre(d: Document, x: string)
    ensures x in ModeledParts(d) <==> x != "" && (x == d.mainPart || PartOf(AllStories(d), x))
  {
    hide StoryTrace, SectionsTrace, ListTrace, PartOf, SetOf;
    InSetOf(StoriesPart(d).parts);
    StoryParts(d.body, x);
    QuietSections(d.sections);
    ListParts(d.headers, x);
    ListParts(d.footers, x);
    ListParts(d.notes, x);
    ListParts(d.commentStories, x);
    OnePart(d.body, x);
    PartOfConcat([d.body], d.headers, x);
    PartOfConcat([d.body] + d.headers, d.footers, x);
    PartOfConcat([d.body] + d.headers + d.footers, d.notes, x);
    PartOfConcat([d.body] + d.headers + d.footers + d.notes, d.commentStories, x);
  }

  lemma OnePart(s: Story, x: string)
    ensures PartOf([s], x) <==> s.part == x
  {
    if s.part == x { assert [s][0].part == x; }
  }

  /** A passthrough part: listed once, and neither the main part nor the part of a story. */
  predicate PassthroughMeans(d: Document) {
    && (forall i :: 0 <= i < |d.passthrough| ==> PartMeans(d, d.passthrough[i]))
    && (forall i, j :: 0 <= i < j < |d.passthrough| ==> d.passthrough[i].name != d.passthrough[j].name)
  }

  predicate PartMeans(d: Document, p: Passthrough) {
    p.fieldsOk && (p.name != "" ==> p.name != d.mainPart && !PartOf(AllStories(d), p.name))
  }

  predicate ListedOnce(ps: seq<Passthrough>, modeled: set<string>) {
    && (forall i :: 0 <= i < |ps| ==> ps[i].fieldsOk && ps[i].name !in modeled)
    && (forall i, j :: 0 <= i < j < |ps| ==> ps[i].name != ps[j].name)
  }

  lemma {:induction false} PassthroughIs(ps: seq<Passthrough>, modeled: set<string>)
    ensures PassthroughOk(ps, modeled) <==> ListedOnce(ps, modeled)
  {
    if ps == [] {
    } else {
      var init := ps[..|ps| - 1];
      PassthroughIs(init, modeled);
      assert forall i :: 0 <= i < |init| ==> init[i].name in PartNames(init);
    }
  }

  lemma PassthroughsAre(d: Document)
    ensures PassthroughOk(d.passthrough, ModeledParts(d)) <==> PassthroughMeans(d)
  {
    hide ModeledParts, AllStories, PartOf, PassthroughOk;
    PassthroughIs(d.passthrough, ModeledParts(d));
    forall i | 0 <= i < |d.passthrough|
      ensures PartMeans(d, d.passthrough[i]) <==> d.passthrough[i].fieldsOk && d.passthrough[i].name !in ModeledParts(d)
    {
      ModeledPartsAre(d, d.passthrough[i].name);
    }
  }

  /** A comment with its own anchor and ids, whose story lies inside that anchor and carries its native id. */
  predicate CommentMeans(d: Document, c: Comment) {
    && c.fieldsOk && ValidId(c.native) && ValidId(c.story) && c.anchor.Some? && Complete(c.anchor.value, "")
    && forall i :: 0 <= i < |AllStories(d)| && AllStories(d)[i].id == c.story ==> StoryFits(AllStories(d)[i], c)
  }

  predicate StoryFits(s: Story, c: Comment)
    requires c.anchor.Some?
  {
    && (s.anchor.Some? && Bounded(s.anchor.value) ==> Within(Span(s.anchor.value), Span(c.anchor.value)))
    && (s.native.Some? && s.native.value != "" ==> s.native.value == c.native)
  }

  /** A part and an interval that is not empty. */
  predicate Bounded(a: Anchor) {
    a.part != "" && a.start.Some? && a.end.Some? && a.start.value < a.end.value
  }

  lemma CommentIs(d: Document, c: Comment)
    ensures CommentStands(d, c) <==> CommentMeans(d, c)
  {
    hide AllStories, ValidId;
    if c.anchor.Some? { SitsAlone(c.anchor.value, ""); }
    forall i | 0 <= i < |AllStories(d)| && c.anchor.Some? && Complete(c.anchor.value, "")
      ensures StoryStands(AllStories(d)[i], c) <==> StoryFits(AllStories(d)[i], c)
    {
    }
  }

  /** An identifier: a letter or digit, then at most 255 letters, digits, dots, underscores, colons and hyphens. */
  lemma IdentifierIs(s: string)
    ensures ValidId(s) <==>
      && 1 <= |s| <= 256 && Alphanumeric(s[0])
      && forall k :: 1 <= k < |s| ==> Alphanumeric(s[k]) || s[k] in "._:-"
  {
    assert forall c: char :: c in "._:-" <==> c == '.' || c == '_' || c == ':' || c == '-';
  }

  predicate Alphanumeric(c: char) {
    'a' <= c <= 'z' || 'A' <= c <= 'Z' || '0' <= c <= '9'
  }

  /** A run has the payload of its kind and no other. */
  lemma PayloadIs(r: Run)
    ensures UnionOk(r) <==>
      match r.kind
      case TextRun => r.text && !r.control && r.reference.None? && r.drawing.None?
      case ControlRun => !r.text && r.control && r.reference.None? && r.drawing.None?
      case ReferenceRun => !r.text && !r.control && r.reference.Some? && r.drawing.None?
      case DrawingRun => !r.text && !r.control && r.reference.None? && r.drawing.Some?
      case UnknownRun => false
  {
  }

  /**
   * A clean verdict, by places: every anchor lies in all anchors around it and in their part, the ids of different
   * entities differ, every reference of every entity stands, collections are within their limits, comments fit.
   */
  ghost predicate Meaning(d: Document) {
    && StoriesMean(d) && (forall i :: 0 <= i < |d.comments| ==> CommentMeans(d, d.comments[i]))
    && ValidAll(d.capabilities) && Distinct(d.capabilities) && PassthroughMeans(d)
    && (forall i :: 0 <= i < |d.unsupported| ==> EntryMeans(d.unsupported[i]))
    && IdsValid(DocEntity(d)) && IdsDiffer(DocEntity(d)) && SizesFit(d) && RefsStand(d)
  }

  lemma {:induction false} ContractMeans(d: Document)
    ensures Contract(d) <==> Meaning(d)
  {
    hide StoriesHold, StoriesMean, CommentStands, CommentMeans, CapabilitiesOk, PassthroughOk, EntriesOk, Fresh, Fits, DocTrace, RefsResolve;
    hide ModeledParts, EntryMeans, PassthroughMeans, ValidAll, Distinct, DocEntity, Walk, IdsValid, IdsDiffer, SizesFit, RefsStand;
    StoriesMeanIs(d);
    forall i | 0 <= i < |d.comments| ensures CommentStands(d, d.comments[i]) <==> CommentMeans(d, d.comments[i]) { CommentIs(d, d.comments[i]); }
    CapabilitiesAre(d.capabilities);
    PassthroughsAre(d);
    EntriesAre(d.unsupported);
    DocWalk(d);
    IdsAre(DocEntity(d));
    SizesAre(d);
    ReferencesAre(d);
  }

  // ------------------------------------------------------------------- what follows for runs

  /** Inside each of the anchors around it, in one part. */
  predicate Inside(a: Anchor, outer: seq<Anchor>) {
    forall k :: 0 <= k < |outer| ==> a.part == outer[k].part && Span(outer[k]).start <= Span(a).start < Span(a).end <= Span(outer[k]).end
  }

  lemma SitsInside(a: Anchor, owner: string, outer: seq<Anchor>)
    requires Sits(a, owner, outer)
    ensures Inside(a, outer)
  {
  }

  lemma KindAlone(s: Story, kinds: set<StoryKind>)
    requires StoryMeans(s, kinds)
    ensures StoryMeans(s, {s.kind})
  {
    hide Sits, BlockMeans;
  }

  lemma ListedStory(ss: seq<Story>, kinds: set<StoryKind>, s: Story)
    requires (forall i :: 0 <= i < |ss| ==> StoryMeans(ss[i], kinds)) && s in ss
    ensures StoryMeans(s, {s.kind})
  {
    hide StoryMeans;
    KindAlone(s, kinds);
  }

  lemma {:induction false} StoryFound(d: Document, s: Story)
    requires Contract(d) && s in AllStories(d)
    ensures StoryMeans(s, {s.kind})
  {
    hide DocTrace, StoriesHold, StoryMeans, SectionMeans, Fresh, Fits, RefsResolve, CommentsStand, CapabilitiesOk, PassthroughOk, EntriesOk;
    StoriesMeanIs(d);
    InOneList(d, s);
    if s == d.body { KindAlone(s, {BodyStory}); }
    else if s in d.headers { ListedStory(d.headers, {HeaderStory}, s); }
    else if s in d.footers { ListedStory(d.footers, {FooterStory}, s); }
    else if s in d.notes { ListedStory(d.notes, {FootnoteStory, EndnoteStory}, s); }
    else { ListedStory(d.commentStories, {CommentStory}, s); }
  }

  lemma InOneList(d: Document, s: Story)
    requires s in AllStories(d)
    ensures s == d.body || s in d.headers || s in d.footers || s in d.notes || s in d.commentStories
  {
  }

  /** In a document without issues, a run of a paragraph block lies in its paragraph and its story. */
  lemma {:induction false} RunNests(d: Document, s: Story, b: nat, i: nat)
    requires Contract(d) && s in AllStories(d) && b < |s.blocks| && s.blocks[b].kind == ParagraphBlock
    ensures s.blocks[b].paragraph.Some? && s.anchor.Some?
    ensures var p := s.blocks[b].paragraph.value;
      && Inside(p.anchor, [s.anchor.value])
      && (i < |p.runs| ==>
            var r := p.runs[i];
            && Inside(r.anchor, [s.anchor.value, p.anchor])
            && (r.link.Some? ==> Inside(r.link.value, [s.anchor.value, p.anchor]))
            && (r.kind == DrawingRun ==> r.drawing.Some? && Inside(r.drawing.value.anchor, [s.anchor.value, p.anchor, r.anchor])))
  {
    hide Contract, AllStories, Sits, Inside, ValidId;
    StoryFound(d, s);
    assert BlockMeans(s.blocks[b], s.part, [s.anchor.value]);
    ParagraphNests(s.blocks[b].paragraph.value, s.part, [s.anchor.value], i);
    var p := s.blocks[b].paragraph.value;
    assert [s.anchor.value] + [p.anchor] == [s.anchor.value, p.anchor];
    if i < |p.runs| { assert [s.anchor.value, p.anchor] + [p.runs[i].anchor] == [s.anchor.value, p.anchor, p.runs[i].anchor]; }
  }

  lemma {:induction false} ParagraphNests(p: Paragraph, owner: string, outer: seq<Anchor>, i: nat)
    requires ParagraphMeans(p, owner, outer)
    ensures Inside(p.anchor, outer)
    ensures i < |p.runs| ==>
              var r, around := p.runs[i], outer + [p.anchor];
              && Inside(r.anchor, around)
              && (r.link.Some? ==> Inside(r.link.value, around))
              && (r.kind == DrawingRun ==> r.drawing.Some? && Inside(r.drawing.value.anchor, around + [r.anchor]))
  {
    hide Sits, Inside, ValidId;
    SitsInside(p.anchor, owner, outer);
    if i < |p.runs| {
      var r, around := p.runs[i], outer + [p.anchor];
      assert RunMeans(r, owner, around);
      SitsInside(r.anchor, owner, around);
      if r.link.Some? { SitsInside(r.link.value, owner, around); }
      if r.kind == DrawingRun { SitsInside(r.drawing.value.anchor, owner, around + [r.anchor]); }
    }
  }

  /** In a document without issues, a run of a table lies in its paragraph, cell, row, table and story. */
  lemma {:induction false} TableRunNests(d: Document, s: Story, b: nat, j: nat, k: nat, l: nat, i: nat)
    requires Contract(d) && s in AllStories(d) && b < |s.blocks| && s.blocks[b].kind == TableBlock
    ensures s.blocks[b].table.Some? && s.anchor.Some?
    ensures var t := s.blocks[b].table.value;
      j < |t.rows| && k < |t.rows[j].cells| && l < |t.rows[j].cells[k].paragraphs| && i < |t.rows[j].cells[k].paragraphs[l].runs| ==>
        var w, c := t.rows[j], t.rows[j].cells[k];
        var p := c.paragraphs[l];
        var r, around := p.runs[i], [s.anchor.value, t.anchor, w.anchor, c.anchor, p.anchor];
        && Inside(r.anchor, around) && Inside(p.anchor, around[..4]) && Inside(c.anchor, around[..3])
        && Inside(w.anchor, around[..2]) && Inside(t.anchor, around[..1])
        && (r.link.Some? ==> Inside(r.link.value, around))
        && (r.kind == DrawingRun ==> r.drawing.Some? && Inside(r.drawing.value.anchor, around + [r.anchor]))
  {
    hide Contract, AllStories, Sits, Inside, ValidId, RunMeans;
    StoryFound(d, s);
    assert BlockMeans(s.blocks[b], s.part, [s.anchor.value]);
    var t := s.blocks[b].table.value;
    if j < |t.rows| && k < |t.rows[j].cells| && l < |t.rows[j].cells[k].paragraphs| && i < |t.rows[j].cells[k].paragraphs[l].runs| {
      TableNests(t, s.part, s.anchor.value, j, k, l, i);
    }
  }

  lemma {:induction false} TableNests(t: Table, owner: string, story: Anchor, j: nat, k: nat, l: nat, i: nat)
    requires TableMeans(t, owner, [story])
    requires j < |t.rows| && k < |t.rows[j].cells| && l < |t.rows[j].cells[k].paragraphs| && i < |t.rows[j].cells[k].paragraphs[l].runs|
    ensures
      var w, c := t.rows[j], t.rows[j].cells[k];
      var p := c.paragraphs[l];
      var r, around := p.runs[i], [story, t.anchor, w.anchor, c.anchor, p.anchor];
      && Inside(r.anchor, around) && Inside(p.anchor, around[..4]) && Inside(c.anchor, around[..3])
      && Inside(w.anchor, around[..2]) && Inside(t.anchor, around[..1])
      && (r.link.Some? ==> Inside(r.link.value, around))
      && (r.kind == DrawingRun ==> r.drawing.Some? && Inside(r.drawing.value.anchor, around + [r.anchor]))
  {
    hide Sits, Inside, ValidId, RunMeans;
    var w, c := t.rows[j], t.rows[j].cells[k];
    var p := c.paragraphs[l];
    var around := [story, t.anchor, w.anchor, c.anchor, p.anchor];
    assert [story] == around[..1] && [story] + [t.anchor] == around[..2];
    assert around[..2] + [w.anchor] == around[..3];
    assert around[..3] + [c.anchor] == around[..4];
    assert around[..4] + [p.anchor] == around;
    assert RowMeans(w, owner, around[..2]) && CellMeans(c, owner, around[..3]) && ParagraphMeans(p, owner, around[..4]);
    SitsInside(t.anchor, owner, around[..1]);
    SitsInside(w.anchor, owner, around[..2]);
    SitsInside(c.anchor, owner, around[..3]);
    ParagraphNests(p, owner, around[..4], i);
  }
}
