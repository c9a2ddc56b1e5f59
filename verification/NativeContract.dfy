/** The native document contract, stated about the document alone. */
module NativeContract {
  import opened Prelude

  const MAX_ITEMS := 10000
  const MAX_NODES := 100000
  const MAX_ISSUES := 100
  const MAX_SAFE := 9007199254740991
  const MAX_COLUMNS := 45
  const MAX_ID := 256

  // ------------------------------------------------------------------ documents

  datatype Bounds = Bounds(part: string, start: int, end: int)

  /** A source anchor; `lexical` says that its part name, path and fingerprint are well formed. */
  datatype Anchor = Anchor(part: string, start: Option<int>, end: Option<int>, lexical: bool)

  datatype RunKind = TextRun | ControlRun | ReferenceRun | DrawingRun | UnknownRun

  datatype StoryKind = BodyStory | HeaderStory | FooterStory | FootnoteStory | EndnoteStory | CommentStory

  datatype Target = ModeledId | BodyBlock | StoryOf(kind: StoryKind) | CommentItem | MediaPart

  datatype Ref = Ref(id: string, target: Target)

  /** `fieldsOk` stands for the checks of the fields that are not modelled. */
  datatype Drawing = Drawing(id: string, anchor: Anchor, media: Option<string>, fieldsOk: bool)

  datatype Run = Run(
    id: string, anchor: Anchor, link: Option<Anchor>, kind: RunKind, text: bool, control: bool,
    reference: Option<Ref>, drawing: Option<Drawing>, fieldsOk: bool)

  datatype Paragraph = Paragraph(id: string, anchor: Anchor, runs: seq<Run>, fieldsOk: bool)

  datatype Cell = Cell(id: string, anchor: Anchor, paragraphs: seq<Paragraph>, fieldsOk: bool)

  datatype Row = Row(id: string, anchor: Anchor, cells: seq<Cell>, fieldsOk: bool)

  datatype Table = Table(id: string, anchor: Anchor, rows: seq<Row>, fieldsOk: bool)

  datatype BlockKind = ParagraphBlock | TableBlock | UnknownBlock

  datatype Block = Block(id: string, kind: BlockKind, paragraph: Option<Paragraph>, table: Option<Table>)

  datatype Story = Story(
    id: string, kind: StoryKind, part: string, native: Option<string>, anchor: Option<Anchor>, blocks: seq<Block>, fieldsOk: bool)

  datatype Section = Section(
    id: string, anchor: Anchor, startsAt: string, columns: seq<string>, headers: seq<string>, footers: seq<string>, fieldsOk: bool)

  datatype Comment = Comment(id: string, native: string, anchor: Option<Anchor>, story: string, fieldsOk: bool)

  datatype Passthrough = Passthrough(name: string, media: bool, fieldsOk: bool)

  datatype Unsupported = Unsupported(id: string, scope: string, anchor: Option<Anchor>, fieldsOk: bool)

  datatype Document = Document(
    id: string, mainPart: string, body: Story, sections: seq<Section>, headers: seq<Story>, footers: seq<Story>,
    notes: seq<Story>, commentStories: seq<Story>, comments: seq<Comment>, capabilities: seq<string>,
    passthrough: seq<Passthrough>, unsupported: seq<Unsupported>, fieldsOk: bool)

  // -------------------------------------------------------------------- anchors

  function BoundsOf(a: Anchor): Option<Bounds> {
    if a.start.None? || a.end.None? || a.end.value <= a.start.value || a.part == "" then None
    else Some(Bounds(a.part, a.start.value, a.end.value))
  }

  predicate Within(inner: Bounds, outer: Bounds) {
    inner.part == outer.part && outer.start <= inner.start && inner.end <= outer.end
  }

  /** A complete anchor in the owner's part, inside the parent's interval. */
  predicate AnchorOk(a: Option<Anchor>, owner: string, parent: Option<Bounds>) {
    && a.Some?
    && a.value.lexical
    && a.value.start.Some? && 0 <= a.value.start.value <= MAX_SAFE
    && a.value.end.Some? && 1 <= a.value.end.value <= MAX_SAFE
    && BoundsOf(a.value).Some?
    && (owner != "" ==> a.value.part == owner)
    && (parent.Some? ==> Within(BoundsOf(a.value).value, parent.value))
  }

  // ------------------------------------------------------------- what a part declares

  /** Ids to be unique, references to be resolved, collection sizes to be counted, and what can be referred to. */
  datatype Trace = Trace(
    ids: seq<string>, refs: seq<Ref>, sizes: seq<nat>, blocks: seq<string>, stories: seq<Story>, parts: seq<string>)

  const NOTHING := Trace([], [], [], [], [], [])

  function Join(a: Trace, b: Trace): Trace {
    Trace(a.ids + b.ids, a.refs + b.refs, a.sizes + b.sizes, a.blocks + b.blocks, a.stories + b.stories, a.parts + b.parts)
  }

  function IdTrace(id: string): Trace { NOTHING.(ids := [id]) }

  function SizeTrace(n: nat): Trace { NOTHING.(sizes := [n]) }

  function RefTrace(id: string, target: Target): Trace {
    if id == "" then NOTHING else NOTHING.(refs := [Ref(id, target)])
  }

  predicate IdChar(c: char) {
    'A' <= c <= 'Z' || 'a' <= c <= 'z' || '0' <= c <= '9'
  }

  /** An identifier: a letter or digit, then up to 255 letters, digits, dots, underscores, colons and hyphens. */
  predicate ValidId(s: string) {
    && 0 < |s| <= MAX_ID && IdChar(s[0])
    && forall k :: 1 <= k < |s| ==> IdChar(s[k]) || s[k] == '.' || s[k] == '_' || s[k] == ':' || s[k] == '-'
  }

  function Payloads(r: Run): nat {
    (if r.text then 1 else 0) + (if r.control then 1 else 0) + (if r.reference.Some? then 1 else 0) + (if r.drawing.Some? then 1 else 0)
  }

  /** Exactly one payload, of the run's kind. */
  predicate UnionOk(r: Run) {
    && Payloads(r) == 1
    && match r.kind
       case TextRun => r.text
       case ControlRun => r.control
       case ReferenceRun => r.reference.Some?
       case DrawingRun => r.drawing.Some?
       case UnknownRun => false
  }

  function DrawingTrace(d: Drawing): Trace {
    Join(IdTrace(d.id), if d.media.Some? then RefTrace(d.media.value, MediaPart) else NOTHING)
  }

  predicate DrawingOk(d: Drawing, owner: string, parent: Option<Bounds>) {
    d.fieldsOk && AnchorOk(Some(d.anchor), owner, parent)
  }

  /** What only a reference or a drawing run adds. */
  function PayloadTrace(r: Run): Trace {
    if r.kind == ReferenceRun && r.reference.Some? then RefTrace(r.reference.value.id, r.reference.value.target)
    else if r.kind == DrawingRun && r.drawing.Some? then DrawingTrace(r.drawing.value)
    else NOTHING
  }

  predicate PayloadOk(r: Run, owner: string, bounds: Option<Bounds>) {
    if r.kind == ReferenceRun && r.reference.Some? then ValidId(r.reference.value.id)
    else if r.kind == DrawingRun && r.drawing.Some? then DrawingOk(r.drawing.value, owner, bounds)
    else true
  }

  function RunTrace(r: Run): Trace {
    Join(IdTrace(r.id), PayloadTrace(r))
  }

  predicate RunOk(r: Run, owner: string, parent: Option<Bounds>) {
    && (r.link.Some? ==> AnchorOk(r.link, owner, parent))
    && AnchorOk(Some(r.anchor), owner, parent)
    && UnionOk(r) && PayloadOk(r, owner, BoundsOf(r.anchor)) && r.fieldsOk
  }

  function RunsTrace(rs: seq<Run>): Trace {
    if rs == [] then NOTHING else Join(RunsTrace(rs[..|rs| - 1]), RunTrace(rs[|rs| - 1]))
  }

  predicate RunsOk(rs: seq<Run>, owner: string, parent: Option<Bounds>) {
    rs != [] ==> RunsOk(rs[..|rs| - 1], owner, parent) && RunOk(rs[|rs| - 1], owner, parent)
  }

  function ParagraphTrace(p: Paragraph, track: bool): Trace {
    Join(if track then IdTrace(p.id) else NOTHING, Join(SizeTrace(|p.runs|), RunsTrace(p.runs)))
  }

  predicate ParagraphOk(p: Paragraph, owner: string, parent: Option<Bounds>) {
    ValidId(p.id) && AnchorOk(Some(p.anchor), owner, parent) && p.fieldsOk && RunsOk(p.runs, owner, BoundsOf(p.anchor))
  }

  function ParagraphsTrace(ps: seq<Paragraph>): Trace {
    if ps == [] then NOTHING else Join(ParagraphsTrace(ps[..|ps| - 1]), ParagraphTrace(ps[|ps| - 1], true))
  }

  predicate ParagraphsOk(ps: seq<Paragraph>, owner: string, parent: Option<Bounds>) {
    ps != [] ==> ParagraphsOk(ps[..|ps| - 1], owner, parent) && ParagraphOk(ps[|ps| - 1], owner, parent)
  }

  function CellTrace(c: Cell): Trace {
    Join(IdTrace(c.id), Join(SizeTrace(|c.paragraphs|), ParagraphsTrace(c.paragraphs)))
  }

  predicate CellOk(c: Cell, owner: string, parent: Option<Bounds>) {
    AnchorOk(Some(c.anchor), owner, parent) && c.fieldsOk && ParagraphsOk(c.paragraphs, owner, BoundsOf(c.anchor))
  }

  function CellsTrace(cs: seq<Cell>): Trace {
    if cs == [] then NOTHING else Join(CellsTrace(cs[..|cs| - 1]), CellTrace(cs[|cs| - 1]))
  }

  predicate CellsOk(cs: seq<Cell>, owner: string, parent: Option<Bounds>) {
    cs != [] ==> CellsOk(cs[..|cs| - 1], owner, parent) && CellOk(cs[|cs| - 1], owner, parent)
  }

  function RowTrace(r: Row): Trace {
    Join(IdTrace(r.id), Join(SizeTrace(|r.cells|), CellsTrace(r.cells)))
  }

  predicate RowOk(r: Row, owner: string, parent: Option<Bounds>) {
    AnchorOk(Some(r.anchor), owner, parent) && r.fieldsOk && CellsOk(r.cells, owner, BoundsOf(r.anchor))
  }

  function RowsTrace(rs: seq<Row>): Trace {
    if rs == [] then NOTHING else Join(RowsTrace(rs[..|rs| - 1]), RowTrace(rs[|rs| - 1]))
  }

  predicate RowsOk(rs: seq<Row>, owner: string, parent: Option<Bounds>) {
    rs != [] ==> RowsOk(rs[..|rs| - 1], owner, parent) && RowOk(rs[|rs| - 1], owner, parent)
  }

  function TableTrace(t: Table): Trace {
    Join(SizeTrace(|t.rows|), RowsTrace(t.rows))
  }

  predicate TableOk(t: Table, owner: string, parent: Option<Bounds>) {
    ValidId(t.id) && AnchorOk(Some(t.anchor), owner, parent) && t.fieldsOk && RowsOk(t.rows, owner, BoundsOf(t.anchor))
  }

  function PayloadBlockTrace(b: Block): Trace {
    if b.kind == ParagraphBlock && b.paragraph.Some? && b.table.None? then ParagraphTrace(b.paragraph.value, false)
    else if b.kind == TableBlock && b.table.Some? && b.paragraph.None? then TableTrace(b.table.value)
    else NOTHING
  }

  /** A block's payload has the block's kind and id. */
  predicate BlockOk(b: Block, owner: string, parent: Option<Bounds>) {
    if b.kind == ParagraphBlock && b.paragraph.Some? && b.table.None? then
      b.paragraph.value.id == b.id && ParagraphOk(b.paragraph.value, owner, parent)
    else if b.kind == TableBlock && b.table.Some? && b.paragraph.None? then
      b.table.value.id == b.id && TableOk(b.table.value, owner, parent)
    else false
  }

  function BlockTrace(b: Block, body: bool): Trace {
    Join(IdTrace(b.id).(blocks := if body && b.id != "" then [b.id] else []), PayloadBlockTrace(b))
  }

  function BlocksTrace(bs: seq<Block>, body: bool): Trace {
    if bs == [] then NOTHING else Join(BlocksTrace(bs[..|bs| - 1], body), BlockTrace(bs[|bs| - 1], body))
  }

  predicate BlocksOk(bs: seq<Block>, owner: string, parent: Option<Bounds>) {
    bs != [] ==> BlocksOk(bs[..|bs| - 1], owner, parent) && BlockOk(bs[|bs| - 1], owner, parent)
  }

  function StoryBounds(s: Story): Option<Bounds> {
    if s.anchor.Some? then BoundsOf(s.anchor.value) else None
  }

  function StoryHeadTrace(s: Story): Trace {
    IdTrace(s.id).(stories := [s], parts := if s.part != "" then [s.part] else [])
  }

  function StoryTrace(s: Story): Trace {
    Join(StoryHeadTrace(s),
         Join(SizeTrace(|s.blocks|), BlocksTrace(s.blocks, s.kind == BodyStory)))
  }

  predicate StoryOk(s: Story, kinds: set<StoryKind>) {
    s.kind in kinds && s.fieldsOk && AnchorOk(s.anchor, s.part, None) && BlocksOk(s.blocks, s.part, StoryBounds(s))
  }

  function StoriesTrace(ss: seq<Story>): Trace {
    if ss == [] then NOTHING else Join(StoriesTrace(ss[..|ss| - 1]), StoryTrace(ss[|ss| - 1]))
  }

  predicate StoriesOk(ss: seq<Story>, kinds: set<StoryKind>) {
    ss != [] ==> StoriesOk(ss[..|ss| - 1], kinds) && StoryOk(ss[|ss| - 1], kinds)
  }

  function ListTrace(ss: seq<Story>): Trace {
    Join(SizeTrace(|ss|), StoriesTrace(ss))
  }

  function IdsTrace(ids: seq<string>): Trace {
    NOTHING.(ids := ids)
  }

  function RefsTrace(ids: seq<string>, target: Target): Trace {
    if ids == [] then NOTHING else Join(RefsTrace(ids[..|ids| - 1], target), RefTrace(ids[|ids| - 1], target))
  }

  predicate AllValid(ids: seq<string>) {
    ids != [] ==> AllValid(ids[..|ids| - 1]) && ValidId(ids[|ids| - 1])
  }

  function RefListTrace(ids: seq<string>, target: Target): Trace {
    Join(SizeTrace(|ids|), RefsTrace(ids, target))
  }

  function SectionTrace(s: Section): Trace {
    Join(Join(Join(Join(IdTrace(s.id), RefTrace(s.startsAt, BodyBlock)), IdsTrace(s.columns)),
              RefListTrace(s.headers, StoryOf(HeaderStory))),
         RefListTrace(s.footers, StoryOf(FooterStory)))
  }

  predicate SectionOk(s: Section, mainPart: string, body: Option<Bounds>) {
    && AnchorOk(Some(s.anchor), mainPart, body) && ValidId(s.startsAt) && |s.columns| <= MAX_COLUMNS
    && s.fieldsOk && AllValid(s.headers) && AllValid(s.footers)
  }

  function SectionsTrace(ss: seq<Section>): Trace {
    if ss == [] then NOTHING else Join(SectionsTrace(ss[..|ss| - 1]), SectionTrace(ss[|ss| - 1]))
  }

  predicate SectionsOk(ss: seq<Section>, mainPart: string, body: Option<Bounds>) {
    ss != [] ==> SectionsOk(ss[..|ss| - 1], mainPart, body) && SectionOk(ss[|ss| - 1], mainPart, body)
  }

  function CommentTrace(c: Comment): Trace {
    Join(IdTrace(c.id), RefTrace(c.story, StoryOf(CommentStory)))
  }

  /** A comment and the anchors and native ids of the stories known by their ids. */
  predicate CommentOk(c: Comment, anchors: map<string, Bounds>, natives: map<string, string>) {
    && c.fieldsOk && ValidId(c.native) && ValidId(c.story) && AnchorOk(c.anchor, "", None)
    && (c.story in anchors ==> Within(anchors[c.story], BoundsOf(c.anchor.value).value))
    && (c.story in natives && natives[c.story] != "" ==> natives[c.story] == c.native)
  }

  function CommentsTrace(cs: seq<Comment>): Trace {
    if cs == [] then NOTHING else Join(CommentsTrace(cs[..|cs| - 1]), CommentTrace(cs[|cs| - 1]))
  }

  predicate CommentsOk(cs: seq<Comment>, anchors: map<string, Bounds>, natives: map<string, string>) {
    cs != [] ==> CommentsOk(cs[..|cs| - 1], anchors, natives) && CommentOk(cs[|cs| - 1], anchors, natives)
  }

  function CommentIds(cs: seq<Comment>): set<string> {
    set i | 0 <= i < |cs| && cs[i].id != "" :: cs[i].id
  }

  predicate CapabilitiesOk(names: seq<string>) {
    names != [] ==>
      && CapabilitiesOk(names[..|names| - 1])
      && ValidId(names[|names| - 1]) && names[|names| - 1] !in names[..|names| - 1]
  }

  function PartNames(ps: seq<Passthrough>): set<string> {
    set i | 0 <= i < |ps| :: ps[i].name
  }

  function MediaNames(ps: seq<Passthrough>): set<string> {
    set i | 0 <= i < |ps| && ps[i].media :: ps[i].name
  }

  /** Passthrough parts are listed once and are none of the parts that stories were read from. */
  predicate PassthroughOk(ps: seq<Passthrough>, modeled: set<string>) {
    ps != [] ==>
      && PassthroughOk(ps[..|ps| - 1], modeled)
      && ps[|ps| - 1].fieldsOk && ps[|ps| - 1].name !in PartNames(ps[..|ps| - 1]) && ps[|ps| - 1].name !in modeled
  }

  function EntryTrace(u: Unsupported): Trace {
    Join(IdTrace(u.id), RefTrace(u.scope, ModeledId))
  }

  predicate EntryOk(u: Unsupported) {
    u.fieldsOk && ValidId(u.scope) && (u.anchor.Some? ==> AnchorOk(u.anchor, "", None))
  }

  function EntriesTrace(us: seq<Unsupported>): Trace {
    if us == [] then NOTHING else Join(EntriesTrace(us[..|us| - 1]), EntryTrace(us[|us| - 1]))
  }

  predicate EntriesOk(us: seq<Unsupported>) {
    us != [] ==> EntriesOk(us[..|us| - 1]) && EntryOk(us[|us| - 1])
  }

  // -------------------------------------------------------------- uniqueness and limits

  /** Valid identifiers, pairwise different and different from the known ones. */
  predicate Fresh(ids: seq<string>, known: set<string>) {
    ids != [] ==>
      && Fresh(ids[..|ids| - 1], known)
      && ValidId(ids[|ids| - 1])
      && ids[|ids| - 1] !in known && ids[|ids| - 1] !in ids[..|ids| - 1]
  }

  function Sum(sizes: seq<nat>): nat {
    if sizes == [] then 0 else Sum(sizes[..|sizes| - 1]) + sizes[|sizes| - 1]
  }

  /** Every collection is within its limit and is begun and finished before the traversal budget is used up. */
  predicate Fits(sizes: seq<nat>, nodes: nat) {
    sizes != [] ==>
      && Fits(sizes[..|sizes| - 1], nodes)
      && sizes[|sizes| - 1] <= MAX_ITEMS
      && nodes + Sum(sizes[..|sizes| - 1]) < MAX_NODES
      && nodes + Sum(sizes) <= MAX_NODES
  }

  function SetOf(s: seq<string>): set<string> {
    set i | 0 <= i < |s| :: s[i]
  }
}
