/** No issue is reported exactly when the contract holds. */
module NativeValidation {
  import opened Prelude
  import opened NativeContract
  import opened ContractLedger
  import opened NativeValidators

  // ------------------------------------------------------------- the contract as a whole

  function AllStories(d: Document): seq<Story> {
    [d.body] + d.headers + d.footers + d.notes + d.commentStories
  }

  function HeadTrace(d: Document): Trace {
    Join(IdTrace(d.id).(parts := if d.mainPart != "" then [d.mainPart] else []), StoryTrace(d.body))
  }

  function SectionsPart(d: Document): Trace {
    Join(HeadTrace(d), Join(SizeTrace(|d.sections|), SectionsTrace(d.sections)))
  }

  function StoriesPart(d: Document): Trace {
    Join(Join(Join(Join(SectionsPart(d), ListTrace(d.headers)), ListTrace(d.footers)), ListTrace(d.notes)), ListTrace(d.commentStories))
  }

  function CommentsPart(d: Document): Trace {
    Join(StoriesPart(d), Join(SizeTrace(|d.comments|), CommentsTrace(d.comments)))
  }

  /** Everything the document declares, in the order of the traversal. */
  function DocTrace(d: Document): Trace {
    Join(Join(Join(CommentsPart(d), SizeTrace(|d.capabilities|)), SizeTrace(|d.passthrough|)),
         Join(SizeTrace(|d.unsupported|), EntriesTrace(d.unsupported)))
  }

  predicate StoriesHold(d: Document) {
    && d.fieldsOk && StoryOk(d.body, {BodyStory}) && d.body.part == d.mainPart
    && d.sections != [] && SectionsOk(d.sections, d.mainPart, StoryBounds(d.body))
    && StoriesOk(d.headers, {HeaderStory}) && StoriesOk(d.footers, {FooterStory})
    && StoriesOk(d.notes, {FootnoteStory, EndnoteStory}) && StoriesOk(d.commentStories, {CommentStory})
  }

  /** A comment's story lies inside the comment's anchor and carries its native id. */
  predicate CommentStands(d: Document, c: Comment) {
    && CommentAlone(c)
    && forall i :: 0 <= i < |AllStories(d)| && AllStories(d)[i].id == c.story ==> StoryStands(AllStories(d)[i], c)
  }

  predicate StoryStands(s: Story, c: Comment) {
    && (StoryBounds(s).Some? ==> c.anchor.Some? && BoundsOf(c.anchor.value).Some? && Within(StoryBounds(s).value, BoundsOf(c.anchor.value).value))
    && (s.native.Some? && s.native.value != "" ==> s.native.value == c.native)
  }

  function ModeledParts(d: Document): set<string> {
    SetOf(StoriesPart(d).parts)
  }

  /** A reference leads to an object of its target kind. */
  predicate Resolves(d: Document, r: Ref) {
    match r.target
    case ModeledId => r.id in SetOf(DocTrace(d).ids)
    case BodyBlock => r.id in SetOf(BlockIds(d.body.blocks))
    case StoryOf(kind) => exists i :: 0 <= i < |AllStories(d)| && AllStories(d)[i].kind == kind && AllStories(d)[i].id == r.id
    case CommentItem => r.id in CommentIds(d.comments)
    case MediaPart => r.id in MediaNames(d.passthrough)
  }

  function BlockIds(bs: seq<Block>): seq<string> {
    if bs == [] then [] else BlockIds(bs[..|bs| - 1]) + if bs[|bs| - 1].id != "" then [bs[|bs| - 1].id] else []
  }

  predicate CommentsStand(d: Document) {
    forall i :: 0 <= i < |d.comments| ==> CommentStands(d, d.comments[i])
  }

  predicate RefsResolve(d: Document) {
    forall i :: 0 <= i < |DocTrace(d).refs| ==> Resolves(d, DocTrace(d).refs[i])
  }

  /**
   * The contract: all ids valid and pairwise different, all references resolved, all anchors inside their parents'
   * in the same part, every collection and the whole traversal within the limits.
   */
  predicate Contract(d: Document) {
    && StoriesHold(d) && CommentsStand(d)
    && CapabilitiesOk(d.capabilities) && PassthroughOk(d.passthrough, ModeledParts(d)) && EntriesOk(d.unsupported)
    && Fresh(DocTrace(d).ids, {}) && Fits(DocTrace(d).sizes, 0)
    && RefsResolve(d)
  }

  // ------------------------------------------------------------------- what traces hold

  predicate Quiet(t: Trace) {
    t.blocks == [] && t.stories == [] && t.parts == []
  }

  lemma {:induction false} QuietRuns(rs: seq<Run>)
    ensures Quiet(RunsTrace(rs))
  {
    if rs == [] {
    } else {
      QuietRuns(rs[..|rs| - 1]);
    }
  }

  lemma {:induction false} QuietParagraph(p: Paragraph, track: bool)
    ensures Quiet(ParagraphTrace(p, track))
  {
    QuietRuns(p.runs);
  }

  lemma {:induction false} QuietParagraphs(ps: seq<Paragraph>)
    ensures Quiet(ParagraphsTrace(ps))
  {
    if ps == [] {
    } else {
      QuietParagraphs(ps[..|ps| - 1]);
      QuietParagraph(ps[|ps| - 1], true);
    }
  }

  lemma {:induction false} QuietCells(cs: seq<Cell>)
    ensures Quiet(CellsTrace(cs))
  {
    if cs == [] {
    } else {
      QuietCells(cs[..|cs| - 1]);
      QuietParagraphs(cs[|cs| - 1].paragraphs);
    }
  }

  lemma {:induction false} QuietRows(rs: seq<Row>)
    ensures Quiet(RowsTrace(rs))
  {
    if rs == [] {
    } else {
      QuietRows(rs[..|rs| - 1]);
      QuietCells(rs[|rs| - 1].cells);
    }
  }

  lemma {:induction false} QuietPayload(b: Block)
    ensures Quiet(PayloadBlockTrace(b))
  {
    hide ParagraphTrace, RowsTrace;
    if b.paragraph.Some? { QuietParagraph(b.paragraph.value, false); }
    if b.table.Some? { QuietRows(b.table.value.rows); }
  }

  lemma {:induction false} BlocksHold(bs: seq<Block>, body: bool)
    ensures var t := BlocksTrace(bs, body);
      t.stories == [] && t.parts == [] && t.blocks == if body then BlockIds(bs) else []
  {
    hide PayloadBlockTrace;
    if bs == [] {
    } else {
      BlocksHold(bs[..|bs| - 1], body);
      QuietPayload(bs[|bs| - 1]);
    }
  }

  lemma {:induction false} StoryHolds(s: Story)
    ensures var t := StoryTrace(s);
      t.stories == [s] && t.blocks == if s.kind == BodyStory then BlockIds(s.blocks) else []
    ensures s.id in StoryTrace(s).ids
  {
    hide BlocksTrace;
    BlocksHold(s.blocks, s.kind == BodyStory);
    assert StoryTrace(s).ids[0] == s.id;
  }

  /** Story ids are declared ids, so unique ids make stories different. */
  predicate Tells(t: Trace) {
    && (forall i :: 0 <= i < |t.stories| ==> t.stories[i].id in t.ids)
    && (Fresh(t.ids, {}) ==> DistinctStories(t.stories))
  }

  predicate DistinctStories(ss: seq<Story>) {
    forall i, j :: 0 <= i < j < |ss| ==> ss[i].id != ss[j].id
  }

  lemma {:induction false} FreshAvoids(ids: seq<string>, known: set<string>)
    requires Fresh(ids, known)
    ensures forall i :: 0 <= i < |ids| ==> ids[i] !in known
    ensures Fresh(ids, {})
  {
    hide ValidId;
    if ids == [] {
    } else {
      FreshAvoids(ids[..|ids| - 1], known);
    }
  }

  lemma {:induction false} TellsJoin(a: Trace, b: Trace)
    requires Tells(a) && Tells(b)
    ensures Tells(Join(a, b))
  {
    hide Fresh, SetOf;
    if Fresh(a.ids + b.ids, {}) {
      FreshConcat(a.ids, b.ids, {});
      FreshAvoids(b.ids, {} + SetOf(a.ids));
      InSetOf(a.ids);
    }
  }

  lemma InSetOf(ids: seq<string>)
    ensures forall x :: x in SetOf(ids) <==> x in ids
  {
  }

  lemma {:induction false} TellsQuiet(t: Trace)
    requires t.stories == []
    ensures Tells(t)
  {
    hide Fresh;
  }

  lemma {:induction false} TellsStory(s: Story)
    ensures Tells(StoryTrace(s))
  {
    hide StoryTrace, Fresh;
    StoryHolds(s);
  }

  lemma JoinFields(a: Trace, b: Trace)
    ensures Join(a, b).stories == a.stories + b.stories && Join(a, b).blocks == a.blocks + b.blocks
  {
  }

  lemma NoBodies(ss: seq<Story>)
    requires ss != [] && forall i :: 0 <= i < |ss| ==> ss[i].kind != BodyStory
    ensures ss[|ss| - 1].kind != BodyStory
    ensures var before := ss[..|ss| - 1]; forall i :: 0 <= i < |before| ==> before[i].kind != BodyStory
  {
  }

  /** What a list of stories declares: the stories themselves, and body blocks only of bodies. */
  lemma {:induction false} StoriesHoldThem(ss: seq<Story>)
    ensures var t := StoriesTrace(ss);
      t.stories == ss && Tells(t) && ((forall i :: 0 <= i < |ss| ==> ss[i].kind != BodyStory) ==> t.blocks == [])
  {
    hide StoryTrace, Tells, BlockIds, Join;
    if ss == [] {
      TellsQuiet(NOTHING);
    } else {
      var before, s := ss[..|ss| - 1], ss[|ss| - 1];
      StoriesHoldThem(before);
      StoryHolds(s);
      TellsStory(s);
      TellsJoin(StoriesTrace(before), StoryTrace(s));
      JoinFields(StoriesTrace(before), StoryTrace(s));
      assert before + [s] == ss;
      if forall i :: 0 <= i < |ss| ==> ss[i].kind != BodyStory { NoBodies(ss); }
    }
  }

  lemma {:induction false} ListHolds(ss: seq<Story>)
    ensures var t := ListTrace(ss);
      t.stories == ss && Tells(t) && ((forall i :: 0 <= i < |ss| ==> ss[i].kind != BodyStory) ==> t.blocks == [])
  {
    hide StoriesTrace, Tells;
    StoriesHoldThem(ss);
    TellsQuiet(SizeTrace(|ss|));
    TellsJoin(SizeTrace(|ss|), StoriesTrace(ss));
  }

  lemma {:induction false} QuietRefs(ids: seq<string>, target: Target)
    ensures Quiet(RefsTrace(ids, target))
  {
    if ids == [] {
    } else {
      QuietRefs(ids[..|ids| - 1], target);
    }
  }

  lemma {:induction false} QuietSections(ss: seq<Section>)
    ensures Quiet(SectionsTrace(ss))
  {
    hide RefsTrace;
    if ss == [] {
    } else {
      QuietSections(ss[..|ss| - 1]);
      QuietRefs(ss[|ss| - 1].headers, StoryOf(HeaderStory));
      QuietRefs(ss[|ss| - 1].footers, StoryOf(FooterStory));
    }
  }

  lemma {:induction false} QuietComments(cs: seq<Comment>)
    ensures Quiet(CommentsTrace(cs))
  {
    if cs == [] {
    } else {
      QuietComments(cs[..|cs| - 1]);
    }
  }

  lemma {:induction false} QuietEntries(us: seq<Unsupported>)
    ensures Quiet(EntriesTrace(us))
  {
    if us == [] {
    } else {
      QuietEntries(us[..|us| - 1]);
    }
  }

  lemma {:induction false} HeadHolds(d: Document)
    ensures var t := SectionsPart(d);
      t.stories == [d.body] && Tells(t) && t.blocks == if d.body.kind == BodyStory then BlockIds(d.body.blocks) else []
  {
    hide StoryTrace, SectionsTrace, Tells, Join, BlockIds;
    StoryHolds(d.body);
    TellsStory(d.body);
    QuietSections(d.sections);
    var head := IdTrace(d.id).(parts := if d.mainPart != "" then [d.mainPart] else []);
    var sections := Join(SizeTrace(|d.sections|), SectionsTrace(d.sections));
    JoinFields(head, StoryTrace(d.body));
    JoinFields(SizeTrace(|d.sections|), SectionsTrace(d.sections));
    JoinFields(HeadTrace(d), sections);
    TellsQuiet(head);
    TellsJoin(head, StoryTrace(d.body));
    TellsQuiet(sections);
    TellsJoin(HeadTrace(d), sections);
  }

  lemma {:induction false} StoriesPartHolds(d: Document)
    ensures StoriesPart(d).stories == AllStories(d) && Tells(StoriesPart(d))
    ensures StoriesHold(d) ==> StoriesPart(d).blocks == BlockIds(d.body.blocks)
  {
    hide SectionsPart, ListTrace, Tells, SectionsOk;
    HeadHolds(d);
    ListHolds(d.headers);
    ListHolds(d.footers);
    ListHolds(d.notes);
    ListHolds(d.commentStories);
    var a := Join(SectionsPart(d), ListTrace(d.headers));
    var b := Join(a, ListTrace(d.footers));
    var c := Join(b, ListTrace(d.notes));
    TellsJoin(SectionsPart(d), ListTrace(d.headers));
    TellsJoin(a, ListTrace(d.footers));
    TellsJoin(b, ListTrace(d.notes));
    TellsJoin(c, ListTrace(d.commentStories));
    if StoriesHold(d) { KindsHold(d); }
  }

  lemma {:induction false} KindsHold(d: Document)
    requires StoriesHold(d)
    ensures d.body.kind == BodyStory
    ensures forall i :: 0 <= i < |d.headers| ==> d.headers[i].kind != BodyStory
    ensures forall i :: 0 <= i < |d.footers| ==> d.footers[i].kind != BodyStory
    ensures forall i :: 0 <= i < |d.notes| ==> d.notes[i].kind != BodyStory
    ensures forall i :: 0 <= i < |d.commentStories| ==> d.commentStories[i].kind != BodyStory
  {
    hide StoriesOk, SectionsOk, AnchorOk, BlocksOk, StoryBounds;
    NotBodies(d.headers, {HeaderStory});
    NotBodies(d.footers, {FooterStory});
    NotBodies(d.notes, {FootnoteStory, EndnoteStory});
    NotBodies(d.commentStories, {CommentStory});
  }

  lemma {:induction false} NotBodies(ss: seq<Story>, kinds: set<StoryKind>)
    requires StoriesOk(ss, kinds) && BodyStory !in kinds
    ensures forall i :: 0 <= i < |ss| ==> ss[i].kind != BodyStory
  {
    hide AnchorOk, BlocksOk;
    if ss == [] {
    } else {
      NotBodies(ss[..|ss| - 1], kinds);
    }
  }

  lemma {:induction false} DocHolds(d: Document)
    ensures DocTrace(d).stories == AllStories(d)
    ensures DocTrace(d).blocks == StoriesPart(d).blocks && DocTrace(d).parts == StoriesPart(d).parts
    ensures Fresh(DocTrace(d).ids, {}) ==> DistinctStories(AllStories(d))
  {
    hide StoriesPart, CommentsTrace, EntriesTrace, AllStories, DistinctStories, Fresh;
    StoriesPartHolds(d);
    QuietComments(d.comments);
    QuietEntries(d.unsupported);
    var rest := Join(SizeTrace(|d.unsupported|), EntriesTrace(d.unsupported));
    if Fresh(DocTrace(d).ids, {}) {
      var ids := CommentsPart(d).ids;
      assert (ids + []) + [] == ids;
      FreshConcat(ids, rest.ids, {});
      FreshConcat(StoriesPart(d).ids, Join(SizeTrace(|d.comments|), CommentsTrace(d.comments)).ids, {});
    }
  }

  // --------------------------------------------------------- stories looked up by id

  lemma {:induction false} AnchorsKnown(ss: seq<Story>, k: string)
    requires k in AnchorsAfter(map[], ss)
    ensures exists i :: 0 <= i < |ss| && ss[i].id == k && StoryBounds(ss[i]) == Some(AnchorsAfter(map[], ss)[k])
  {
    hide StoryBounds;
    var before, s := ss[..|ss| - 1], ss[|ss| - 1];
    if s.id == k && k != "" && StoryBounds(s).Some? {
      assert ss[|ss| - 1].id == k;
    } else {
      AnchorsKnown(before, k);
      var i :| 0 <= i < |before| && before[i].id == k && StoryBounds(before[i]) == Some(AnchorsAfter(map[], before)[k]);
      assert ss[i] == before[i];
    }
  }

  lemma {:induction false} AnchorsFound(ss: seq<Story>, i: nat)
    requires DistinctStories(ss) && i < |ss| && ss[i].id != "" && StoryBounds(ss[i]).Some?
    ensures ss[i].id in AnchorsAfter(map[], ss) && AnchorsAfter(map[], ss)[ss[i].id] == StoryBounds(ss[i]).value
  {
    hide StoryBounds;
    if i >= |ss| - 1 {
    } else {
      AnchorsFound(ss[..|ss| - 1], i);
      assert ss[i].id != ss[|ss| - 1].id;
    }
  }

  lemma {:induction false} NativesKnown(ss: seq<Story>, k: string)
    requires k in NativesAfter(map[], ss)
    ensures exists i :: 0 <= i < |ss| && ss[i].id == k && ss[i].native == Some(NativesAfter(map[], ss)[k])
  {
    var before, s := ss[..|ss| - 1], ss[|ss| - 1];
    if s.id == k && k != "" && s.native.Some? {
      assert ss[|ss| - 1].id == k;
    } else {
      NativesKnown(before, k);
      var i :| 0 <= i < |before| && before[i].id == k && before[i].native == Some(NativesAfter(map[], before)[k]);
      assert ss[i] == before[i];
    }
  }

  lemma {:induction false} NativesFound(ss: seq<Story>, i: nat)
    requires DistinctStories(ss) && i < |ss| && ss[i].id != "" && ss[i].native.Some?
    ensures ss[i].id in NativesAfter(map[], ss) && NativesAfter(map[], ss)[ss[i].id] == ss[i].native.value
  {
    if i >= |ss| - 1 {
    } else {
      NativesFound(ss[..|ss| - 1], i);
      assert ss[i].id != ss[|ss| - 1].id;
    }
  }

  lemma {:induction false} KindsKnown(ss: seq<Story>, kind: StoryKind, id: string)
    ensures (kind, id) in KindsAfter({}, ss) <==> exists i :: 0 <= i < |ss| && ss[i].kind == kind && ss[i].id == id
  {
    if ss == [] {
    } else {
      var before := ss[..|ss| - 1];
      KindsKnown(before, kind, id);
      if i :| 0 <= i < |before| && before[i].kind == kind && before[i].id == id {
        assert ss[i] == before[i];
      }
    }
  }

  /** Looking stories up by id is looking at all of them, once ids are unique. */
  lemma {:induction false} CommentLookup(d: Document, c: Comment)
    requires DistinctStories(AllStories(d))
    ensures CommentOk(c, AnchorsAfter(map[], AllStories(d)), NativesAfter(map[], AllStories(d))) <==> CommentStands(d, c)
  {
    hide AnchorsAfter, NativesAfter, Within, ValidId, AnchorOk, StoryBounds, AllStories, DistinctStories, CommentOk;
    var ss := AllStories(d);
    var anchors, natives := AnchorsAfter(map[], ss), NativesAfter(map[], ss);
    OkMeans(c, anchors, natives);
    if CommentAlone(c) {
      if CommentStands(d, c) {
        if c.story in anchors { AnchorsKnown(ss, c.story); }
        if c.story in natives { NativesKnown(ss, c.story); }
      }
      forall i | CommentOk(c, anchors, natives) && 0 <= i < |ss| && ss[i].id == c.story ensures StoryStands(ss[i], c) {
        ValidNotEmpty(c.story);
        if StoryBounds(ss[i]).Some? { AnchorsFound(ss, i); }
        if ss[i].native.Some? { NativesFound(ss, i); }
      }
    }
  }

  lemma ValidNotEmpty(id: string)
    requires ValidId(id)
    ensures id != ""
  {
  }

  lemma OkMeans(c: Comment, anchors: map<string, Bounds>, natives: map<string, string>)
    ensures CommentOk(c, anchors, natives) ==> CommentAlone(c)
    ensures CommentAlone(c) ==> c.anchor.Some? && BoundsOf(c.anchor.value).Some? && ValidId(c.story)
    ensures CommentAlone(c) ==>
              (CommentOk(c, anchors, natives) <==>
                && (c.story in anchors ==> Within(anchors[c.story], BoundsOf(c.anchor.value).value))
                && (c.story in natives && natives[c.story] != "" ==> natives[c.story] == c.native))
  {
    hide Within;
  }

  lemma {:induction false} CommentsLookup(d: Document, cs: seq<Comment>)
    requires DistinctStories(AllStories(d))
    ensures CommentsOk(cs, AnchorsAfter(map[], AllStories(d)), NativesAfter(map[], AllStories(d)))
      <==> forall i :: 0 <= i < |cs| ==> CommentStands(d, cs[i])
  {
    hide AnchorsAfter, NativesAfter, CommentOk, CommentStands, AllStories, DistinctStories;
    if cs == [] {
    } else {
      var before := cs[..|cs| - 1];
      CommentsLookup(d, before);
      CommentLookup(d, cs[|cs| - 1]);
      assert forall i :: 0 <= i < |before| ==> before[i] == cs[i];
    }
  }

  // ------------------------------------------------------------------------ the walk

  lemma {:induction false} HeadNoted(a: Seen, id: string, mainPart: string)
    requires Matches(a, Advance(START, true, IdTrace(id)))
    ensures Matches(if mainPart != "" then a.(parts := a.parts + {mainPart}) else a,
                    Advance(START, true, IdTrace(id).(parts := if mainPart != "" then [mainPart] else [])))
  {
    hide Fresh, Fits, Sum, SetOf;
    SetOfFew(mainPart);
  }

  /** Document head, body, sections and the four lists of stories. */
  method CheckStories(v: NativeValidator, d: Document)
    requires v.Now() == START
    modifies v`issues, v`ids, v`references, v`nodes, v`bodyBlocks, v`storyIds, v`anchors, v`storyNativeIDs, v`modeledParts
    ensures Matches(v.Now(), Advance(START, StoriesHold(d), StoriesPart(d)))
  {
    hide Advance, Matches, Join, StoryOk, StoryTrace, SectionsOk, SectionsTrace, StoriesOk, ListTrace, SizeTrace, IdTrace, SectionsPart;
    var bounds := CheckBody(v, d);
    ghost var a := v.Now();
    v.Sections(d.sections, "/sections", d.mainPart, bounds);
    ghost var ok := d.fieldsOk && StoryOk(d.body, {BodyStory}) && d.body.part == d.mainPart && d.sections != [];
    ThenUnder(START, a, v.Now(), ok, HeadTrace(d), SectionsOk(d.sections, d.mainPart, bounds),
      SectionsOk(d.sections, d.mainPart, StoryBounds(d.body)), Join(SizeTrace(|d.sections|), SectionsTrace(d.sections)));
    SectionsPartIs(d);
    ghost var ok2 := ok && SectionsOk(d.sections, d.mainPart, StoryBounds(d.body));
    CheckLists(v, d, ok2);
  }

  lemma SectionsPartIs(d: Document)
    ensures SectionsPart(d) == Join(HeadTrace(d), Join(SizeTrace(|d.sections|), SectionsTrace(d.sections)))
  {
  }

  method CheckBody(v: NativeValidator, d: Document) returns (bounds: Option<Bounds>)
    requires v.Now() == START
    modifies v`issues, v`ids, v`references, v`nodes, v`bodyBlocks, v`storyIds, v`anchors, v`storyNativeIDs, v`modeledParts
    ensures Matches(v.Now(), Advance(START, d.fieldsOk && StoryOk(d.body, {BodyStory}) && d.body.part == d.mainPart && d.sections != [], HeadTrace(d)))
    ensures v.Now().clean ==> bounds == StoryBounds(d.body)
  {
    hide Advance, Matches, Join, StoryOk, StoryTrace, IdTrace, StoryBounds;
    v.Id(d.id, "/document_id");
    ghost var i := v.Now();
    if d.mainPart != "" {
      v.modeledParts := v.modeledParts + {d.mainPart};
    }
    HeadNoted(i, d.id, d.mainPart);
    ghost var t := IdTrace(d.id).(parts := if d.mainPart != "" then [d.mainPart] else []);
    ghost var a := v.Now();
    bounds := v.Story(d.body, "/body", {BodyStory});
    Then(START, a, v.Now(), true, t, StoryOk(d.body, {BodyStory}), StoryTrace(d.body));
    ghost var b := v.Now();
    ghost var ok := d.fieldsOk && d.body.part == d.mainPart && d.sections != [];
    v.Check(d.fieldsOk && d.body.part == d.mainPart && |d.sections| > 0, "INVALID_VALUE", "", "document field is invalid");
    DirtyStays(b, v.Now(), ok, NOTHING);
    ThenCheck(START, b, v.Now(), StoryOk(d.body, {BodyStory}), HeadTrace(d), ok);
  }

  method CheckLists(v: NativeValidator, d: Document, ghost ok: bool)
    requires Matches(v.Now(), Advance(START, ok, SectionsPart(d)))
    modifies v`issues, v`ids, v`references, v`nodes, v`bodyBlocks, v`storyIds, v`anchors, v`storyNativeIDs, v`modeledParts
    ensures Matches(v.Now(), Advance(START,
      ok && StoriesOk(d.headers, {HeaderStory}) && StoriesOk(d.footers, {FooterStory})
      && StoriesOk(d.notes, {FootnoteStory, EndnoteStory}) && StoriesOk(d.commentStories, {CommentStory}), StoriesPart(d)))
  {
    hide Advance, Matches, Join, StoriesOk, ListTrace, SectionsPart;
    ghost var a := v.Now();
    CheckList(v, d.headers, "/headers", {HeaderStory});
    Then(START, a, v.Now(), ok, SectionsPart(d), StoriesOk(d.headers, {HeaderStory}), ListTrace(d.headers));
    ghost var ok1, t1 := ok && StoriesOk(d.headers, {HeaderStory}), Join(SectionsPart(d), ListTrace(d.headers));
    ghost var b := v.Now();
    CheckList(v, d.footers, "/footers", {FooterStory});
    Then(START, b, v.Now(), ok1, t1, StoriesOk(d.footers, {FooterStory}), ListTrace(d.footers));
    ghost var ok2, t2 := ok1 && StoriesOk(d.footers, {FooterStory}), Join(t1, ListTrace(d.footers));
    ghost var c := v.Now();
    CheckList(v, d.notes, "/notes", {FootnoteStory, EndnoteStory});
    Then(START, c, v.Now(), ok2, t2, StoriesOk(d.notes, {FootnoteStory, EndnoteStory}), ListTrace(d.notes));
    ghost var ok3, t3 := ok2 && StoriesOk(d.notes, {FootnoteStory, EndnoteStory}), Join(t2, ListTrace(d.notes));
    ghost var e := v.Now();
    CheckList(v, d.commentStories, "/comment_stories", {CommentStory});
    Then(START, e, v.Now(), ok3, t3, StoriesOk(d.commentStories, {CommentStory}), ListTrace(d.commentStories));
  }

  method CheckList(v: NativeValidator, ss: seq<Story>, path: string, kinds: set<StoryKind>)
    modifies v`issues, v`ids, v`references, v`nodes, v`bodyBlocks, v`storyIds, v`anchors, v`storyNativeIDs, v`modeledParts
    ensures Matches(v.Now(), Advance(old(v.Now()), StoriesOk(ss, kinds), ListTrace(ss)))
  {
    hide Advance, Matches, Join, StoriesOk, SizeTrace;
    v.StoryList(ss, path, kinds);
  }

  // ------------------------------------------------------------------------ the rest

  predicate RestHolds(d: Document) {
    && StoriesHold(d)
    && CommentsOk(d.comments, AnchorsAfter(map[], AllStories(d)), NativesAfter(map[], AllStories(d)))
    && CapabilitiesOk(d.capabilities) && PassthroughOk(d.passthrough, ModeledParts(d)) && EntriesOk(d.unsupported)
  }

  lemma {:induction false} LookupsAre(d: Document, a: Seen)
    requires Matches(a, Advance(START, StoriesHold(d), StoriesPart(d)))
    ensures a.clean ==> a.anchors == AnchorsAfter(map[], AllStories(d)) && a.natives == NativesAfter(map[], AllStories(d))
  {
    hide StoriesHold, StoriesPart, AllStories, AnchorsAfter, NativesAfter, KindsAfter, Fresh, Fits, Sum, SetOf;
    StoriesPartHolds(d);
  }

  lemma {:induction false} PartsAre(d: Document, a: Seen, ok: bool)
    requires Matches(a, Advance(START, ok, Join(CommentsPart(d), SizeTrace(|d.capabilities|))))
    ensures a.clean ==> a.parts == ModeledParts(d)
  {
    hide StoriesPart, CommentsTrace, AnchorsAfter, NativesAfter, KindsAfter, Fresh, Fits, Sum, SetOf;
    QuietComments(d.comments);
    var ps := StoriesPart(d).parts;
    assert (ps + ([] + [])) + [] == ps;
    assert {} + SetOf(ps) == SetOf(ps);
  }

  method CheckComments(v: NativeValidator, d: Document)
    requires Matches(v.Now(), Advance(START, StoriesHold(d), StoriesPart(d))) && v.comments == {}
    modifies v`issues, v`ids, v`references, v`nodes, v`comments
    ensures Matches(v.Now(), Advance(START,
      StoriesHold(d) && CommentsOk(d.comments, AnchorsAfter(map[], AllStories(d)), NativesAfter(map[], AllStories(d))), CommentsPart(d)))
    ensures v.Now().clean ==> v.comments == CommentIds(d.comments)
  {
    hide Advance, Matches, Join, StoriesHold, StoriesPart, CommentsOk, CommentsTrace, SizeTrace, AnchorsAfter, NativesAfter, AllStories, CommentIds;
    ghost var a := v.Now();
    LookupsAre(d, a);
    v.Comments(d.comments, "/comments");
    ThenUnder(START, a, v.Now(), StoriesHold(d), StoriesPart(d), CommentsOk(d.comments, a.anchors, a.natives),
      CommentsOk(d.comments, AnchorsAfter(map[], AllStories(d)), NativesAfter(map[], AllStories(d))),
      Join(SizeTrace(|d.comments|), CommentsTrace(d.comments)));
  }

  /** Capabilities, passthrough parts and unsupported entries. */
  method CheckEntries(v: NativeValidator, d: Document, ghost ok: bool)
    requires Matches(v.Now(), Advance(START, ok, CommentsPart(d))) && v.passthrough == {} && v.mediaParts == {}
    modifies v`issues, v`ids, v`references, v`nodes, v`passthrough, v`mediaParts
    ensures Matches(v.Now(), Advance(START,
      ok && CapabilitiesOk(d.capabilities) && PassthroughOk(d.passthrough, ModeledParts(d)) && EntriesOk(d.unsupported), DocTrace(d)))
    ensures v.Now().clean ==> v.mediaParts == MediaNames(d.passthrough)
    ensures v.Now().clean ==> old(v.Now()).clean
  {
    hide Advance, Matches, Join, CommentsPart, CapabilitiesOk, PassthroughOk, EntriesOk, EntriesTrace, SizeTrace, ModeledParts, MediaNames;
    ghost var a := v.Now();
    v.Capabilities(d.capabilities, "/capabilities");
    DirtyStays(a, v.Now(), CapabilitiesOk(d.capabilities), SizeTrace(|d.capabilities|));
    Then(START, a, v.Now(), ok, CommentsPart(d), CapabilitiesOk(d.capabilities), SizeTrace(|d.capabilities|));
    ghost var ok1, t1 := ok && CapabilitiesOk(d.capabilities), Join(CommentsPart(d), SizeTrace(|d.capabilities|));
    ghost var b := v.Now();
    PartsAre(d, b, ok1);
    v.PassthroughParts(d.passthrough, "/passthrough_parts");
    DirtyStays(b, v.Now(), PassthroughOk(d.passthrough, b.parts), SizeTrace(|d.passthrough|));
    ThenUnder(START, b, v.Now(), ok1, t1, PassthroughOk(d.passthrough, b.parts), PassthroughOk(d.passthrough, ModeledParts(d)),
      SizeTrace(|d.passthrough|));
    ghost var ok2, t2 := ok1 && PassthroughOk(d.passthrough, ModeledParts(d)), Join(t1, SizeTrace(|d.passthrough|));
    ghost var c := v.Now();
    v.UnsupportedEntries(d.unsupported, "/unsupported");
    DirtyStays(c, v.Now(), EntriesOk(d.unsupported), Join(SizeTrace(|d.unsupported|), EntriesTrace(d.unsupported)));
    Then(START, c, v.Now(), ok2, t2, EntriesOk(d.unsupported), Join(SizeTrace(|d.unsupported|), EntriesTrace(d.unsupported)));
  }

  lemma {:induction false} ResolvedIs(d: Document, now: Seen, r: Ref)
    requires now == Advance(START, true, DocTrace(d)) && StoriesHold(d)
    ensures match r.target
            case ModeledId => r.id in now.ids <==> Resolves(d, r)
            case BodyBlock => r.id in now.blocks <==> Resolves(d, r)
            case StoryOf(kind) => (kind, r.id) in now.storyIds <==> Resolves(d, r)
            case CommentItem => true
            case MediaPart => true
  {
    hide DocTrace, StoriesHold, StoriesPart, AllStories, AnchorsAfter, NativesAfter, KindsAfter, Fresh, Fits, Sum, SetOf, BlockIds;
    DocHolds(d);
    StoriesPartHolds(d);
    if r.target.StoryOf? { KindsKnown(AllStories(d), r.target.kind, r.id); }
  }

  lemma {:induction false} VerdictIsContract(d: Document)
    ensures Advance(START, RestHolds(d), DocTrace(d)).clean && RefsResolve(d) <==> Contract(d)
  {
    hide DocTrace, StoriesHold, AllStories, AnchorsAfter, NativesAfter, KindsAfter, Fresh, Fits, Sum, SetOf, RefsResolve, DistinctStories;
    hide CommentsOk, CommentStands, CapabilitiesOk, PassthroughOk, EntriesOk, ModeledParts;
    DocHolds(d);
    if DistinctStories(AllStories(d)) { CommentsLookup(d, d.comments); }
  }

  /** A document passes without an issue if and only if it meets the contract. */
  method ValidateNativeDocument(doc: Option<Document>) returns (issues: seq<Issue>)
    ensures issues == [] <==> doc.Some? && Contract(doc.value)
  {
    hide Advance, Matches, DocTrace, Contract, RefsResolve, CommentsPart, StoriesPart, Resolves, MediaNames, CommentIds, RestHolds;
    hide StoriesHold, CommentsOk, CapabilitiesOk, PassthroughOk, EntriesOk, AnchorsAfter, NativesAfter, AllStories, ModeledParts;
    var v := new NativeValidator();
    if doc == None {
      v.Add("REQUIRED", "", "document is required");
      return v.issues;
    }
    var d := doc.value;
    CheckStories(v, d);
    CheckComments(v, d);
    CheckEntries(v, d,
      StoriesHold(d) && CommentsOk(d.comments, AnchorsAfter(map[], AllStories(d)), NativesAfter(map[], AllStories(d))));
    RestIs(d);
    ghost var a := v.Now();
    v.CheckReferences();
    FinalVerdict(v, d, a);
    return v.issues;
  }

  lemma RestIs(d: Document)
    ensures RestHolds(d) ==
      (StoriesHold(d) && CommentsOk(d.comments, AnchorsAfter(map[], AllStories(d)), NativesAfter(map[], AllStories(d)))
       && CapabilitiesOk(d.capabilities) && PassthroughOk(d.passthrough, ModeledParts(d)) && EntriesOk(d.unsupported))
  {
  }

  lemma {:induction false} FinalVerdict(v: NativeValidator, d: Document, a: Seen)
    requires Matches(a, Advance(START, RestHolds(d), DocTrace(d)))
    requires v.Now().clean <==> a.clean && forall i :: 0 <= i < |v.references| ==> v.TargetExists(v.references[i])
    requires v.Now() == a.(clean := v.Now().clean)
    requires a.clean ==> v.comments == CommentIds(d.comments) && v.mediaParts == MediaNames(d.passthrough)
    ensures v.Now().clean <==> Contract(d)
  {
    hide DocTrace, RefsResolve, Contract, RestHolds, Resolves, MediaNames, CommentIds, Advance;
    VerdictIsContract(d);
    if a.clean { AllResolved(v, d, a); }
  }

  lemma {:induction false} AllResolved(v: NativeValidator, d: Document, a: Seen)
    requires a == Advance(START, RestHolds(d), DocTrace(d)) && a.clean
    requires v.Now() == a.(clean := v.Now().clean)
    requires v.comments == CommentIds(d.comments) && v.mediaParts == MediaNames(d.passthrough)
    ensures (forall i :: 0 <= i < |v.references| ==> v.TargetExists(v.references[i])) <==> RefsResolve(d)
  {
    hide DocTrace, RestHolds, MediaNames, CommentIds, Advance, BlockIds, AllStories, SetOf;
    RefsAre(d, a);
    forall r: Ref ensures v.TargetExists(r) <==> Resolves(d, r) {
      ResolvedIs(d, a, r);
    }
  }

  lemma {:induction false} RefsAre(d: Document, a: Seen)
    requires a == Advance(START, RestHolds(d), DocTrace(d)) && a.clean
    ensures a.refs == DocTrace(d).refs && a == Advance(START, true, DocTrace(d)) && StoriesHold(d)
  {
    hide DocTrace, StoriesHold, CommentsOk, CapabilitiesOk, PassthroughOk, EntriesOk, Fresh, Fits, Sum, SetOf, KindsAfter, AnchorsAfter, NativesAfter;
    assert [] + DocTrace(d).refs == DocTrace(d).refs;
  }
}
