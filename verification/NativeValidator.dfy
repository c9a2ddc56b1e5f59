/**
 The validator: one object that collects issues, ids, references and anchors
 while it walks a document.  Each of its methods is proved to do to that record
 what the declarative contract says about the part it was given; the lemmas
 beside the class compose such steps, one after the other and over loops that a
 limit may cut short.
 */
module NativeValidators {
  import opened Prelude
  import opened Numerals
  import opened NativeContract
  import opened ContractLedger

  datatype Issue = Issue(code: string, path: string, message: string)

  // ------------------------------------------------------------ steps of a traversal

  lemma {:induction false} ThenCheck(s: Seen, a: Seen, b: Seen, ok1: bool, t: Trace, ok2: bool)
    requires Matches(a, Advance(s, ok1, t)) && Matches(b, Advance(a, ok2, NOTHING))
    ensures Matches(b, Advance(s, ok1 && ok2, t))
  {
    hide Advance, Matches, Join;
    Then(s, a, b, ok1, t, ok2, NOTHING);
    JoinNothing(t);
  }

  /** Nothing was looked at yet. */
  lemma {:induction false} AtStart(s: Seen)
    ensures Matches(s, Advance(s, true, NOTHING))
  {
    AdvanceNothing(s, true);
  }

  /** A step under a parent whose anchor was sound, unless there is an issue already. */
  lemma {:induction false} ThenUnder(s: Seen, a: Seen, b: Seen, ok1: bool, t1: Trace, ok2: bool, okSpec: bool, t2: Trace)
    requires Matches(a, Advance(s, ok1, t1)) && Matches(b, Advance(a, ok2, t2)) && (a.clean ==> ok2 == okSpec)
    ensures Matches(b, Advance(s, ok1 && okSpec, Join(t1, t2)))
  {
    hide Fresh, Fits, Sum, SetOf, KindsAfter, AnchorsAfter, NativesAfter, Join;
    Then(s, a, b, ok1, t1, ok2, t2);
    AdvanceJoin(s, ok1, t1, okSpec, t2);
  }

  lemma {:induction false} LoopNext(s: Seen, a: Seen, b: Seen, n: nat, ok: bool, t: Trace, okX: bool, tX: Trace)
    requires Matches(a, Advance(s, ok, Join(SizeTrace(n), t))) && Matches(b, Advance(a, okX, tX))
    ensures Matches(b, Advance(s, ok && okX, Join(SizeTrace(n), Join(t, tX))))
  {
    hide Advance, Matches, Join, SizeTrace;
    Then(s, a, b, ok, Join(SizeTrace(n), t), okX, tX);
    JoinAssoc(SizeTrace(n), t, tX);
  }

  /** A loop cut short by a limit has already left an issue, and so has the whole collection. */
  lemma {:induction false} LoopEnd(now: Seen, s: Seen, n: nat, limit: nat, ok: bool, t: Trace, okAll: bool, tAll: Trace)
    requires Matches(now, Advance(s, ok, Join(SizeTrace(n), t)))
    requires limit == n ==> ok == okAll && t == tAll
    requires limit != n ==> !Advance(s, true, SizeTrace(n)).clean
    ensures Matches(now, Advance(s, okAll, Join(SizeTrace(n), tAll)))
    ensures now.clean ==> limit == n
  {
    hide Join, SizeTrace, Fresh, Fits, Sum, SetOf, KindsAfter, AnchorsAfter, NativesAfter;
    AdvanceJoin(s, true, SizeTrace(n), ok, t);
    AdvanceJoin(s, true, SizeTrace(n), okAll, tAll);
  }

  lemma {:induction false} SizeStart(s: Seen, a: Seen, n: nat)
    requires Matches(a, Advance(s, true, SizeTrace(n)))
    ensures Matches(a, Advance(s, true, Join(SizeTrace(n), NOTHING)))
  {
    hide Advance, Matches, Join, SizeTrace;
    JoinNothing(SizeTrace(n));
  }

  lemma Prefix<T>(s: seq<T>, i: nat)
    requires i < |s|
    ensures s[..i + 1][..|s[..i + 1]| - 1] == s[..i] && s[..i + 1][|s[..i + 1]| - 1] == s[i]
  {
  }

  predicate NoRepeats(issues: seq<Issue>) {
    forall i, j :: 0 <= i < j < |issues| ==> issues[i] != issues[j]
  }

  /** At most one more issue, only below the cap, and then that issue is listed; a list without repetitions stays so. */
  predicate Reported(before: seq<Issue>, after: seq<Issue>, issue: Issue) {
    && (after == before || (|before| < MAX_ISSUES && after == before + [issue]))
    && (|before| < MAX_ISSUES ==> issue in after)
    && (NoRepeats(before) ==> NoRepeats(after))
  }

  class NativeValidator {
    var issues: seq<Issue>
    var ids: map<string, string>
    var references: seq<Ref>
    var bodyBlocks: set<string>
    var storyIds: set<(StoryKind, string)>
    var anchors: map<string, Bounds>
    var storyNativeIDs: map<string, string>
    var modeledParts: set<string>
    var nodes: nat
    var comments: set<string>
    var mediaParts: set<string>
    var passthrough: set<string>

    ghost function Now(): Seen
      reads this
    {
      Seen(issues == [], ids.Keys, nodes, references, bodyBlocks, storyIds, anchors, storyNativeIDs, modeledParts)
    }

    constructor ()
      ensures Now() == START && comments == {} && mediaParts == {} && passthrough == {}
    {
      issues, ids, references, nodes := [], map[], [], 0;
      bodyBlocks, storyIds, anchors, storyNativeIDs, modeledParts := {}, {}, map[], map[], {};
      comments, mediaParts, passthrough := {}, {}, {};
    }

    /** Issues are capped and not repeated; whatever is dropped, an issue is left. */
    method Add(code: string, path: string, message: string)
      modifies this`issues
      ensures old(issues) <= issues && issues != []
      ensures Reported(old(issues), issues, Issue(code, path, message))
    {
      if |issues| >= MAX_ISSUES {
        return;
      }
      for i := 0 to |issues|
        invariant forall k :: 0 <= k < i ==> issues[k] != Issue(code, path, message)
      {
        if issues[i] == Issue(code, path, message) {
          return;
        }
      }
      issues := issues + [Issue(code, path, message)];
    }

    method Check(ok: bool, code: string, path: string, message: string)
      modifies this`issues
      ensures Matches(Now(), Advance(old(Now()), ok, NOTHING))
    {
      hide Advance;
      AdvanceNothing(Now(), ok);
      if !ok {
        Add(code, path, message);
      }
    }

    method RequiredId(value: string, path: string)
      modifies this`issues
      ensures Matches(Now(), Advance(old(Now()), ValidId(value), NOTHING))
    {
      hide Advance, ValidId, Matches;
      Check(ValidId(value), "INVALID_VALUE", path, "contains an invalid identifier");
    }

    method Id(value: string, path: string)
      modifies this`issues, this`ids
      ensures Matches(Now(), Advance(old(Now()), true, IdTrace(value)))
    {
      hide ValidId;
      OneId(Now(), value);
      if !ValidId(value) {
        Add("INVALID_VALUE", path, "contains an invalid identifier");
      }
      if value in ids {
        Add("DUPLICATE_ID", path, "duplicate native id first used at " + ids[value]);
      } else if value != "" {
        ids := ids[value := path];
      } else {
        assert !ValidId(value) by { EmptyInvalid(); }
      }
    }

    method AddRef(value: string, target: Target)
      modifies this`references
      ensures Matches(Now(), Advance(old(Now()), true, RefTrace(value, target)))
    {
      OneRef(Now(), value, target);
      if value != "" {
        references := references + [Ref(value, target)];
      } else {
        assert references + [] == references;
      }
    }

    /** How much of a collection is looked at. */
    method Collection(length: nat, path: string) returns (limit: nat)
      modifies this`issues, this`nodes
      ensures limit <= length
      ensures Matches(Now(), Advance(old(Now()), true, SizeTrace(length)))
      ensures limit != length ==> !Advance(old(Now()), true, SizeTrace(length)).clean
    {
      OneSize(Now(), length);
      limit := length;
      if limit > MAX_ITEMS {
        Add("LIMIT_EXCEEDED", path, "must contain at most 10000 items");
        limit := MAX_ITEMS;
      }
      if nodes >= MAX_NODES {
        Add("LIMIT_EXCEEDED", path, "document traversal exceeds 100000 values");
        return 0;
      }
      if limit > MAX_NODES - nodes {
        Add("LIMIT_EXCEEDED", path, "document traversal exceeds 100000 values");
        limit := MAX_NODES - nodes;
      }
      nodes := nodes + limit;
    }

    method CheckBytes(a: Anchor, path: string)
      modifies this`issues
      ensures issues == [] <==>
        old(issues) == [] && a.start.Some? && 0 <= a.start.value <= MAX_SAFE && a.end.Some? && 1 <= a.end.value <= MAX_SAFE
    {
      hide Reported;
      if a.start.None? {
        Add("REQUIRED", path + "/start_byte", "field is required");
      } else if a.start.value < 0 || a.start.value > MAX_SAFE {
        Add("OUT_OF_RANGE", path + "/start_byte", "must be a nonnegative safe integer");
      }
      if a.end.None? {
        Add("REQUIRED", path + "/end_byte", "field is required");
      } else if a.end.value < 1 || a.end.value > MAX_SAFE {
        Add("OUT_OF_RANGE", path + "/end_byte", "must be a positive safe integer");
      }
    }

    method CheckAnchor(anchor: Option<Anchor>, path: string, owner: string, parent: Option<Bounds>) returns (bounds: Option<Bounds>)
      modifies this`issues
      ensures Matches(Now(), Advance(old(Now()), AnchorOk(anchor, owner, parent), NOTHING))
      ensures Now().clean ==> anchor.Some? && bounds == BoundsOf(anchor.value)
    {
      hide Advance, Reported;
      AdvanceNothing(Now(), AnchorOk(anchor, owner, parent));
      if anchor == None {
        Add("REQUIRED", path, "field is required");
        return None;
      }
      var a := anchor.value;
      if !a.lexical {
        Add("INVALID_VALUE", path, "contains an invalid part name, path or fingerprint");
      }
      CheckBytes(a, path);
      if a.start.Some? && a.end.Some? && a.end.value <= a.start.value {
        Add("OUT_OF_RANGE", path + "/end_byte", "must be greater than start_byte");
      }
      if a.part == "" {
        Add("INVALID_VALUE", path + "/part_name", "contains an invalid OPC part name");
      }
      if owner != "" && a.part != owner {
        Add("INVALID_VALUE", path + "/part_name", "must equal owning part");
      }
      if a.start.None? || a.end.None? || a.end.value <= a.start.value || a.part == "" {
        return None;
      }
      var b := Bounds(a.part, a.start.value, a.end.value);
      if parent.Some? && !Within(b, parent.value) {
        Add("OUT_OF_RANGE", path, "anchor must be contained by its parent anchor in the same part");
      }
      return Some(b);
    }

    method Drawing(d: Drawing, path: string, owner: string, parent: Option<Bounds>)
      modifies this`issues, this`ids, this`references
      ensures Matches(Now(), Advance(old(Now()), DrawingOk(d, owner, parent), DrawingTrace(d)))
    {
      hide Advance, Matches, Join, AnchorOk, IdTrace, RefTrace;
      ghost var s := Now();
      Id(d.id, path + "/id");
      ghost var a := Now();
      var bounds := CheckAnchor(Some(d.anchor), path + "/anchor", owner, parent);
      ThenCheck(s, a, Now(), true, IdTrace(d.id), AnchorOk(Some(d.anchor), owner, parent));
      ghost var b := Now();
      if d.media.Some? {
        AddRef(d.media.value, MediaPart);
      } else {
        AtStart(b);
      }
      Then(s, b, Now(), AnchorOk(Some(d.anchor), owner, parent), IdTrace(d.id), true,
        if d.media.Some? then RefTrace(d.media.value, MediaPart) else NOTHING);
      ghost var c := Now();
      Check(d.fieldsOk, "INVALID_VALUE", path, "drawing field is invalid");
      ThenCheck(s, c, Now(), AnchorOk(Some(d.anchor), owner, parent), DrawingTrace(d), d.fieldsOk);
    }

    method Payload(run: Run, path: string, owner: string, bounds: Option<Bounds>)
      modifies this`issues, this`ids, this`references
      ensures Matches(Now(), Advance(old(Now()), PayloadOk(run, owner, bounds), PayloadTrace(run)))
    {
      hide Advance, Matches, Join, RefTrace, DrawingOk, DrawingTrace, ValidId;
      ghost var s := Now();
      AtStart(s);
      match run.kind
      case ReferenceRun =>
        if run.reference.Some? {
          RequiredId(run.reference.value.id, path + "/reference/target_id");
          ghost var a := Now();
          AddRef(run.reference.value.id, run.reference.value.target);
          Then(s, a, Now(), ValidId(run.reference.value.id), NOTHING, true, PayloadTrace(run));
          JoinNothing(PayloadTrace(run));
        }
      case DrawingRun =>
        if run.drawing.Some? {
          Drawing(run.drawing.value, path + "/drawing", owner, bounds);
        }
      case _ =>
    }

    /** The checks of a run that do not involve its payload. */
    method RunHead(run: Run, path: string, owner: string, parent: Option<Bounds>) returns (bounds: Option<Bounds>)
      modifies this`issues, this`ids
      ensures Matches(Now(), Advance(old(Now()), RunAlone(run, owner, parent), IdTrace(run.id)))
      ensures Now().clean ==> bounds == BoundsOf(run.anchor)
    {
      hide Advance, Matches, Join, AnchorOk, IdTrace, UnionOk;
      ghost var s := Now();
      AtStart(s);
      ghost var linkOk := run.link.Some? ==> AnchorOk(run.link, owner, parent);
      if run.link.Some? {
        var linkBounds := CheckAnchor(run.link, path + "/hyperlink/anchor", owner, parent);
      }
      ghost var a := Now();
      Id(run.id, path + "/id");
      Then(s, a, Now(), linkOk, NOTHING, true, IdTrace(run.id));
      JoinNothing(IdTrace(run.id));
      ghost var b := Now();
      Check(UnionOk(run) && run.fieldsOk, "INVALID_UNION", path, "run kind must match exactly one payload");
      ThenCheck(s, b, Now(), linkOk, IdTrace(run.id), UnionOk(run) && run.fieldsOk);
      ghost var c := Now();
      bounds := CheckAnchor(Some(run.anchor), path + "/anchor", owner, parent);
      ThenCheck(s, c, Now(), linkOk && UnionOk(run) && run.fieldsOk, IdTrace(run.id), AnchorOk(Some(run.anchor), owner, parent));
    }

    method Run(run: Run, path: string, owner: string, parent: Option<Bounds>)
      modifies this`issues, this`ids, this`references
      ensures Matches(Now(), Advance(old(Now()), RunOk(run, owner, parent), RunTrace(run)))
    {
      hide Advance, Matches, Join, AnchorOk, IdTrace, PayloadOk, PayloadTrace, UnionOk;
      ghost var s := Now();
      var bounds := RunHead(run, path, owner, parent);
      ghost var a := Now();
      Payload(run, path, owner, bounds);
      ThenUnder(s, a, Now(), RunAlone(run, owner, parent), IdTrace(run.id),
        PayloadOk(run, owner, bounds), PayloadOk(run, owner, BoundsOf(run.anchor)), PayloadTrace(run));
    }

    method Runs(xs: seq<Run>, path: string, owner: string, parent: Option<Bounds>)
      modifies this`issues, this`ids, this`references, this`nodes
      ensures Matches(Now(), Advance(old(Now()), RunsOk(xs, owner, parent), Join(SizeTrace(|xs|), RunsTrace(xs))))
    {
      hide Advance, Matches, Join, SizeTrace, RunOk, RunTrace;
      ghost var s := Now();
      var limit := Collection(|xs|, path);
      SizeStart(s, Now(), |xs|);
      for i := 0 to limit
        invariant Matches(Now(), Advance(s, RunsOk(xs[..i], owner, parent), Join(SizeTrace(|xs|), RunsTrace(xs[..i]))))
      {
        ghost var a := Now();
        Run(xs[i], path + "/" + Numeral(i), owner, parent);
        LoopNext(s, a, Now(), |xs|, RunsOk(xs[..i], owner, parent), RunsTrace(xs[..i]), RunOk(xs[i], owner, parent), RunTrace(xs[i]));
        Prefix(xs, i);
      }
      assert limit == |xs| ==> xs[..limit] == xs;
      LoopEnd(Now(), s, |xs|, limit, RunsOk(xs[..limit], owner, parent), RunsTrace(xs[..limit]), RunsOk(xs, owner, parent), RunsTrace(xs));
    }

    /** An id that is checked, and recorded when it is to be unique. */
    method IdOrRequired(value: string, path: string, track: bool)
      modifies this`issues, this`ids
      ensures Matches(Now(), Advance(old(Now()), ValidId(value), if track then IdTrace(value) else NOTHING))
    {
      hide ValidId;
      if track {
        ghost var s := Now();
        Id(value, path);
        IdIsValid(s, value);
      } else {
        RequiredId(value, path);
      }
    }

    method Paragraph(p: Paragraph, path: string, track: bool, owner: string, parent: Option<Bounds>)
      modifies this`issues, this`ids, this`references, this`nodes
      ensures Matches(Now(), Advance(old(Now()), ParagraphOk(p, owner, parent), ParagraphTrace(p, track)))
    {
      hide Advance, Matches, Join, AnchorOk, IdTrace, ValidId, SizeTrace, RunsTrace, RunsOk;
      ghost var s := Now();
      ghost var t := if track then IdTrace(p.id) else NOTHING;
      IdOrRequired(p.id, path + "/id", track);
      ghost var a := Now();
      var bounds := CheckAnchor(Some(p.anchor), path + "/anchor", owner, parent);
      ThenCheck(s, a, Now(), ValidId(p.id), t, AnchorOk(Some(p.anchor), owner, parent));
      ghost var b := Now();
      Check(p.fieldsOk, "INVALID_VALUE", path, "paragraph field is invalid");
      ThenCheck(s, b, Now(), ValidId(p.id) && AnchorOk(Some(p.anchor), owner, parent), t, p.fieldsOk);
      ghost var c := Now();
      DirtyStays(b, c, p.fieldsOk, NOTHING);
      Runs(p.runs, path + "/runs", owner, bounds);
      ThenUnder(s, c, Now(), ValidId(p.id) && AnchorOk(Some(p.anchor), owner, parent) && p.fieldsOk, t,
        RunsOk(p.runs, owner, bounds), RunsOk(p.runs, owner, BoundsOf(p.anchor)), Join(SizeTrace(|p.runs|), RunsTrace(p.runs)));
    }

    method CellParagraphs(xs: seq<Paragraph>, path: string, owner: string, parent: Option<Bounds>)
      modifies this`issues, this`ids, this`references, this`nodes
      ensures Matches(Now(), Advance(old(Now()), ParagraphsOk(xs, owner, parent), Join(SizeTrace(|xs|), ParagraphsTrace(xs))))
    {
      hide Advance, Matches, Join, SizeTrace, ParagraphOk, ParagraphTrace;
      ghost var s := Now();
      var limit := Collection(|xs|, path);
      SizeStart(s, Now(), |xs|);
      for i := 0 to limit
        invariant Matches(Now(), Advance(s, ParagraphsOk(xs[..i], owner, parent), Join(SizeTrace(|xs|), ParagraphsTrace(xs[..i]))))
      {
        ghost var a := Now();
        Paragraph(xs[i], path + "/" + Numeral(i), true, owner, parent);
        LoopNext(s, a, Now(), |xs|, ParagraphsOk(xs[..i], owner, parent), ParagraphsTrace(xs[..i]), ParagraphOk(xs[i], owner, parent), ParagraphTrace(xs[i], true));
        Prefix(xs, i);
      }
      assert limit == |xs| ==> xs[..limit] == xs;
      LoopEnd(Now(), s, |xs|, limit, ParagraphsOk(xs[..limit], owner, parent), ParagraphsTrace(xs[..limit]), ParagraphsOk(xs, owner, parent), ParagraphsTrace(xs));
    }

    method Cell(c: Cell, path: string, owner: string, parent: Option<Bounds>)
      modifies this`issues, this`ids, this`references, this`nodes
      ensures Matches(Now(), Advance(old(Now()), CellOk(c, owner, parent), CellTrace(c)))
    {
      hide Advance, Matches, Join, AnchorOk, IdTrace, SizeTrace, ParagraphsTrace, ParagraphsOk;
      ghost var s := Now();
      Id(c.id, path + "/id");
      ghost var a := Now();
      var bounds := CheckAnchor(Some(c.anchor), path + "/anchor", owner, parent);
      ThenCheck(s, a, Now(), true, IdTrace(c.id), AnchorOk(Some(c.anchor), owner, parent));
      ghost var b := Now();
      Check(c.fieldsOk, "INVALID_VALUE", path, "cell field is invalid");
      ThenCheck(s, b, Now(), AnchorOk(Some(c.anchor), owner, parent), IdTrace(c.id), c.fieldsOk);
      ghost var d := Now();
      DirtyStays(b, d, c.fieldsOk, NOTHING);
      CellParagraphs(c.paragraphs, path + "/paragraphs", owner, bounds);
      ThenUnder(s, d, Now(), AnchorOk(Some(c.anchor), owner, parent) && c.fieldsOk, IdTrace(c.id),
        ParagraphsOk(c.paragraphs, owner, bounds), ParagraphsOk(c.paragraphs, owner, BoundsOf(c.anchor)), Join(SizeTrace(|c.paragraphs|), ParagraphsTrace(c.paragraphs)));
    }

    method Cells(xs: seq<Cell>, path: string, owner: string, parent: Option<Bounds>)
      modifies this`issues, this`ids, this`references, this`nodes
      ensures Matches(Now(), Advance(old(Now()), CellsOk(xs, owner, parent), Join(SizeTrace(|xs|), CellsTrace(xs))))
    {
      hide Advance, Matches, Join, SizeTrace, CellOk, CellTrace;
      ghost var s := Now();
      var limit := Collection(|xs|, path);
      SizeStart(s, Now(), |xs|);
      for i := 0 to limit
        invariant Matches(Now(), Advance(s, CellsOk(xs[..i], owner, parent), Join(SizeTrace(|xs|), CellsTrace(xs[..i]))))
      {
        ghost var a := Now();
        Cell(xs[i], path + "/" + Numeral(i), owner, parent);
        LoopNext(s, a, Now(), |xs|, CellsOk(xs[..i], owner, parent), CellsTrace(xs[..i]), CellOk(xs[i], owner, parent), CellTrace(xs[i]));
        Prefix(xs, i);
      }
      assert limit == |xs| ==> xs[..limit] == xs;
      LoopEnd(Now(), s, |xs|, limit, CellsOk(xs[..limit], owner, parent), CellsTrace(xs[..limit]), CellsOk(xs, owner, parent), CellsTrace(xs));
    }

    method Row(r: Row, path: string, owner: string, parent: Option<Bounds>)
      modifies this`issues, this`ids, this`references, this`nodes
      ensures Matches(Now(), Advance(old(Now()), RowOk(r, owner, parent), RowTrace(r)))
    {
      hide Advance, Matches, Join, AnchorOk, IdTrace, SizeTrace, CellsTrace, CellsOk;
      ghost var s := Now();
      Id(r.id, path + "/id");
      ghost var a := Now();
      var bounds := CheckAnchor(Some(r.anchor), path + "/anchor", owner, parent);
      ThenCheck(s, a, Now(), true, IdTrace(r.id), AnchorOk(Some(r.anchor), owner, parent));
      ghost var b := Now();
      Check(r.fieldsOk, "INVALID_VALUE", path, "row field is invalid");
      ThenCheck(s, b, Now(), AnchorOk(Some(r.anchor), owner, parent), IdTrace(r.id), r.fieldsOk);
      ghost var c := Now();
      DirtyStays(b, c, r.fieldsOk, NOTHING);
      Cells(r.cells, path + "/cells", owner, bounds);
      ThenUnder(s, c, Now(), AnchorOk(Some(r.anchor), owner, parent) && r.fieldsOk, IdTrace(r.id),
        CellsOk(r.cells, owner, bounds), CellsOk(r.cells, owner, BoundsOf(r.anchor)), Join(SizeTrace(|r.cells|), CellsTrace(r.cells)));
    }

    method Rows(xs: seq<Row>, path: string, owner: string, parent: Option<Bounds>)
      modifies this`issues, this`ids, this`references, this`nodes
      ensures Matches(Now(), Advance(old(Now()), RowsOk(xs, owner, parent), Join(SizeTrace(|xs|), RowsTrace(xs))))
    {
      hide Advance, Matches, Join, SizeTrace, RowOk, RowTrace;
      ghost var s := Now();
      var limit := Collection(|xs|, path);
      SizeStart(s, Now(), |xs|);
      for i := 0 to limit
        invariant Matches(Now(), Advance(s, RowsOk(xs[..i], owner, parent), Join(SizeTrace(|xs|), RowsTrace(xs[..i]))))
      {
        ghost var a := Now();
        Row(xs[i], path + "/" + Numeral(i), owner, parent);
        LoopNext(s, a, Now(), |xs|, RowsOk(xs[..i], owner, parent), RowsTrace(xs[..i]), RowOk(xs[i], owner, parent), RowTrace(xs[i]));
        Prefix(xs, i);
      }
      assert limit == |xs| ==> xs[..limit] == xs;
      LoopEnd(Now(), s, |xs|, limit, RowsOk(xs[..limit], owner, parent), RowsTrace(xs[..limit]), RowsOk(xs, owner, parent), RowsTrace(xs));
    }

    method Table(t: Table, path: string, owner: string, parent: Option<Bounds>)
      modifies this`issues, this`ids, this`references, this`nodes
      ensures Matches(Now(), Advance(old(Now()), TableOk(t, owner, parent), TableTrace(t)))
    {
      hide Advance, Matches, Join, AnchorOk, ValidId, SizeTrace, RowsTrace, RowsOk;
      ghost var s := Now();
      RequiredId(t.id, path + "/id");
      ghost var a := Now();
      var bounds := CheckAnchor(Some(t.anchor), path + "/anchor", owner, parent);
      ThenCheck(s, a, Now(), ValidId(t.id), NOTHING, AnchorOk(Some(t.anchor), owner, parent));
      ghost var b := Now();
      Check(t.fieldsOk, "INVALID_VALUE", path, "table field is invalid");
      ThenCheck(s, b, Now(), ValidId(t.id) && AnchorOk(Some(t.anchor), owner, parent), NOTHING, t.fieldsOk);
      ghost var c := Now();
      DirtyStays(b, c, t.fieldsOk, NOTHING);
      Rows(t.rows, path + "/rows", owner, bounds);
      ThenUnder(s, c, Now(), ValidId(t.id) && AnchorOk(Some(t.anchor), owner, parent) && t.fieldsOk, NOTHING,
        RowsOk(t.rows, owner, bounds), RowsOk(t.rows, owner, BoundsOf(t.anchor)), TableTrace(t));
      JoinNothing(TableTrace(t));
    }

    method ParagraphPayload(p: Paragraph, id: string, path: string, owner: string, parent: Option<Bounds>)
      modifies this`issues, this`ids, this`references, this`nodes
      ensures Matches(Now(), Advance(old(Now()), p.id == id && ParagraphOk(p, owner, parent), ParagraphTrace(p, false)))
    {
      hide Advance, Matches, ParagraphOk, ParagraphTrace;
      ghost var s := Now();
      Check(p.id == id, "INVALID_VALUE", path + "/id", "payload id must equal block id");
      ghost var a := Now();
      Paragraph(p, path, false, owner, parent);
      Then(s, a, Now(), p.id == id, NOTHING, ParagraphOk(p, owner, parent), ParagraphTrace(p, false));
      JoinNothing(ParagraphTrace(p, false));
    }

    method TablePayload(t: Table, id: string, path: string, owner: string, parent: Option<Bounds>)
      modifies this`issues, this`ids, this`references, this`nodes
      ensures Matches(Now(), Advance(old(Now()), t.id == id && TableOk(t, owner, parent), TableTrace(t)))
    {
      hide Advance, Matches, TableOk, TableTrace;
      ghost var s := Now();
      Check(t.id == id, "INVALID_VALUE", path + "/id", "payload id must equal block id");
      ghost var a := Now();
      Table(t, path, owner, parent);
      Then(s, a, Now(), t.id == id, NOTHING, TableOk(t, owner, parent), TableTrace(t));
      JoinNothing(TableTrace(t));
    }

    /** The payload of a block: of the block's kind and with its id. */
    method BlockPayload(block: Block, path: string, owner: string, parent: Option<Bounds>)
      modifies this`issues, this`ids, this`references, this`nodes
      ensures Matches(Now(), Advance(old(Now()), BlockOk(block, owner, parent), PayloadBlockTrace(block)))
    {
      hide Advance, Matches, ParagraphOk, ParagraphTrace, TableOk, TableTrace;
      match block.kind
      case ParagraphBlock =>
        if block.paragraph == None || block.table.Some? {
          Check(false, "INVALID_UNION", path, "paragraph block must contain only paragraph payload");
          return;
        }
        ParagraphPayload(block.paragraph.value, block.id, path + "/paragraph", owner, parent);
      case TableBlock =>
        if block.table == None || block.paragraph.Some? {
          Check(false, "INVALID_UNION", path, "table block must contain only table payload");
          return;
        }
        TablePayload(block.table.value, block.id, path + "/table", owner, parent);
      case UnknownBlock =>
        Check(false, "INVALID_UNION", path + "/kind", "unknown block kind");
    }

    method Block(block: Block, path: string, body: bool, owner: string, parent: Option<Bounds>)
      modifies this`issues, this`ids, this`references, this`nodes, this`bodyBlocks
      ensures Matches(Now(), Advance(old(Now()), BlockOk(block, owner, parent), BlockTrace(block, body)))
    {
      hide Advance, Matches, Join, IdTrace, BlockOk, PayloadBlockTrace;
      ghost var s := Now();
      Id(block.id, path + "/id");
      ghost var a := Now();
      if body && block.id != "" {
        bodyBlocks := bodyBlocks + {block.id};
      }
      BlockHead(s, a, block.id, body);
      ghost var b := Now();
      BlockPayload(block, path, owner, parent);
      Then(s, b, Now(), true, IdTrace(block.id).(blocks := if body && block.id != "" then [block.id] else []),
        BlockOk(block, owner, parent), PayloadBlockTrace(block));
    }

    method Blocks(xs: seq<Block>, path: string, body: bool, owner: string, parent: Option<Bounds>)
      modifies this`issues, this`ids, this`references, this`nodes, this`bodyBlocks
      ensures Matches(Now(), Advance(old(Now()), BlocksOk(xs, owner, parent), Join(SizeTrace(|xs|), BlocksTrace(xs, body))))
    {
      hide Advance, Matches, Join, SizeTrace, BlockOk, BlockTrace;
      ghost var s := Now();
      var limit := Collection(|xs|, path);
      SizeStart(s, Now(), |xs|);
      for i := 0 to limit
        invariant Matches(Now(), Advance(s, BlocksOk(xs[..i], owner, parent), Join(SizeTrace(|xs|), BlocksTrace(xs[..i], body))))
      {
        ghost var a := Now();
        Block(xs[i], path + "/" + Numeral(i), body, owner, parent);
        LoopNext(s, a, Now(), |xs|, BlocksOk(xs[..i], owner, parent), BlocksTrace(xs[..i], body), BlockOk(xs[i], owner, parent), BlockTrace(xs[i], body));
        Prefix(xs, i);
      }
      assert limit == |xs| ==> xs[..limit] == xs;
      LoopEnd(Now(), s, |xs|, limit, BlocksOk(xs[..limit], owner, parent), BlocksTrace(xs[..limit], body), BlocksOk(xs, owner, parent), BlocksTrace(xs, body));
    }

    /** The checks of a story but those of its blocks. */
    method StoryHead(story: Story, path: string, kinds: set<StoryKind>) returns (bounds: Option<Bounds>)
      modifies this`issues, this`ids
      ensures Matches(Now(), Advance(old(Now()), story.kind in kinds && story.fieldsOk && AnchorOk(story.anchor, story.part, None), IdTrace(story.id)))
      ensures Now().clean ==> story.anchor.Some? && bounds == BoundsOf(story.anchor.value)
    {
      hide Advance, Matches, AnchorOk, IdTrace, BoundsOf;
      ghost var s := Now();
      Id(story.id, path + "/id");
      ghost var a := Now();
      Check(story.kind in kinds, "INVALID_VALUE", path + "/kind", "story kind is not valid in this collection");
      ThenCheck(s, a, Now(), true, IdTrace(story.id), story.kind in kinds);
      ghost var b := Now();
      Check(story.fieldsOk, "INVALID_VALUE", path, "story field is invalid");
      ThenCheck(s, b, Now(), story.kind in kinds, IdTrace(story.id), story.fieldsOk);
      ghost var c := Now();
      bounds := CheckAnchor(story.anchor, path + "/anchor", story.part, None);
      ThenCheck(s, c, Now(), story.kind in kinds && story.fieldsOk, IdTrace(story.id), AnchorOk(story.anchor, story.part, None));
    }

    /** What later checks look up about a story. */
    method NoteStory(story: Story, bounds: Option<Bounds>)
      modifies this`storyIds, this`anchors, this`storyNativeIDs, this`modeledParts
      ensures Now() == Noted(old(Now()), story, bounds)
    {
      if story.part != "" {
        modeledParts := modeledParts + {story.part};
      }
      if story.id != "" && story.native.Some? {
        storyNativeIDs := storyNativeIDs[story.id := story.native.value];
      }
      if story.id != "" && bounds.Some? {
        anchors := anchors[story.id := bounds.value];
      }
      storyIds := storyIds + {(story.kind, story.id)};
    }

    method Story(story: Story, path: string, kinds: set<StoryKind>) returns (bounds: Option<Bounds>)
      modifies this`issues, this`ids, this`references, this`nodes, this`bodyBlocks, this`storyIds, this`anchors, this`storyNativeIDs, this`modeledParts
      ensures Matches(Now(), Advance(old(Now()), StoryOk(story, kinds), StoryTrace(story)))
      ensures Now().clean ==> bounds == StoryBounds(story)
    {
      hide Advance, Matches, Join, AnchorOk, SizeTrace, BlocksTrace, BlocksOk, StoryHeadTrace, BoundsOf, IdTrace, Noted;
      ghost var s := Now();
      bounds := StoryHead(story, path, kinds);
      ghost var d := Now();
      NoteStory(story, bounds);
      StoryNoted(s, d, story, bounds, story.kind in kinds && story.fieldsOk && AnchorOk(story.anchor, story.part, None));
      ghost var a := Now();
      Blocks(story.blocks, path + "/blocks", story.kind == BodyStory, story.part, bounds);
      ghost var tail := Join(SizeTrace(|story.blocks|), BlocksTrace(story.blocks, story.kind == BodyStory));
      DirtyStays(a, Now(), BlocksOk(story.blocks, story.part, bounds), tail);
      ThenUnder(s, a, Now(), story.kind in kinds && story.fieldsOk && AnchorOk(story.anchor, story.part, None), StoryHeadTrace(story),
        BlocksOk(story.blocks, story.part, bounds), BlocksOk(story.blocks, story.part, StoryBounds(story)), tail);
    }

    method StoryList(xs: seq<Story>, path: string, kinds: set<StoryKind>)
      modifies this`issues, this`ids, this`references, this`nodes, this`bodyBlocks, this`storyIds, this`anchors, this`storyNativeIDs, this`modeledParts
      ensures Matches(Now(), Advance(old(Now()), StoriesOk(xs, kinds), Join(SizeTrace(|xs|), StoriesTrace(xs))))
    {
      hide Advance, Matches, Join, SizeTrace, StoryOk, StoryTrace;
      ghost var s := Now();
      var limit := Collection(|xs|, path);
      SizeStart(s, Now(), |xs|);
      for i := 0 to limit
        invariant Matches(Now(), Advance(s, StoriesOk(xs[..i], kinds), Join(SizeTrace(|xs|), StoriesTrace(xs[..i]))))
      {
        ghost var a := Now();
        var bounds := Story(xs[i], path + "/" + Numeral(i), kinds);
        LoopNext(s, a, Now(), |xs|, StoriesOk(xs[..i], kinds), StoriesTrace(xs[..i]), StoryOk(xs[i], kinds), StoryTrace(xs[i]));
        Prefix(xs, i);
      }
      assert limit == |xs| ==> xs[..limit] == xs;
      LoopEnd(Now(), s, |xs|, limit, StoriesOk(xs[..limit], kinds), StoriesTrace(xs[..limit]), StoriesOk(xs, kinds), StoriesTrace(xs));
    }

    method Columns(xs: seq<string>, path: string)
      modifies this`issues, this`ids
      ensures Matches(Now(), Advance(old(Now()), |xs| <= MAX_COLUMNS, IdsTrace(xs)))
    {
      hide Advance, Matches, Join, IdTrace, ValidId;
      ghost var s := Now();
      Check(|xs| <= MAX_COLUMNS, "LIMIT_EXCEEDED", path, "must contain at most 45 columns");
      var limit := Min(|xs|, MAX_COLUMNS);
      for i := 0 to limit
        invariant Matches(Now(), Advance(s, |xs| <= MAX_COLUMNS, IdsTrace(xs[..i])))
      {
        ghost var a := Now();
        Id(xs[i], path + "/" + Numeral(i));
        Then(s, a, Now(), |xs| <= MAX_COLUMNS, IdsTrace(xs[..i]), true, IdTrace(xs[i]));
        IdsSnoc(xs, i);
      }
      if limit == |xs| {
        assert xs[..limit] == xs;
      } else {
        NeverClean(s, IdsTrace(xs[..limit]), IdsTrace(xs), Now());
      }
    }

    method StoryRef(id: string, path: string, target: Target)
      modifies this`issues, this`references
      ensures Matches(Now(), Advance(old(Now()), ValidId(id), RefTrace(id, target)))
    {
      hide Advance, Matches, Join, RefTrace, ValidId;
      ghost var s := Now();
      RequiredId(id, path + "/story_id");
      ghost var a := Now();
      AddRef(id, target);
      Then(s, a, Now(), ValidId(id), NOTHING, true, RefTrace(id, target));
      JoinNothing(RefTrace(id, target));
    }

    method HeaderFooterRefs(xs: seq<string>, path: string, target: Target)
      modifies this`issues, this`references, this`nodes
      ensures Matches(Now(), Advance(old(Now()), AllValid(xs), RefListTrace(xs, target)))
    {
      hide Advance, Matches, Join, SizeTrace, ValidId, RefTrace;
      ghost var s := Now();
      var limit := Collection(|xs|, path);
      SizeStart(s, Now(), |xs|);
      for i := 0 to limit
        invariant Matches(Now(), Advance(s, AllValid(xs[..i]), Join(SizeTrace(|xs|), RefsTrace(xs[..i], target))))
      {
        ghost var a := Now();
        StoryRef(xs[i], path + "/" + Numeral(i), target);
        LoopNext(s, a, Now(), |xs|, AllValid(xs[..i]), RefsTrace(xs[..i], target), ValidId(xs[i]), RefTrace(xs[i], target));
        Prefix(xs, i);
      }
      assert limit == |xs| ==> xs[..limit] == xs;
      LoopEnd(Now(), s, |xs|, limit, AllValid(xs[..limit]), RefsTrace(xs[..limit], target), AllValid(xs), RefsTrace(xs, target));
    }

    method Section(x: Section, path: string, mainPart: string, body: Option<Bounds>)
      modifies this`issues, this`ids, this`references, this`nodes
      ensures Matches(Now(), Advance(old(Now()), SectionOk(x, mainPart, body), SectionTrace(x)))
    {
      hide Advance, Matches, Join, AnchorOk, IdTrace, IdsTrace, RefTrace, RefListTrace, ValidId, AllValid;
      ghost var s := Now();
      SectionHead(x, path, mainPart, body);
      ghost var ok := AnchorOk(Some(x.anchor), mainPart, body) && ValidId(x.startsAt) && x.fieldsOk;
      ghost var t := Join(IdTrace(x.id), RefTrace(x.startsAt, BodyBlock));
      ghost var a := Now();
      Columns(x.columns, path + "/page/column_definitions");
      Then(s, a, Now(), ok, t, |x.columns| <= MAX_COLUMNS, IdsTrace(x.columns));
      ghost var b := Now();
      HeaderFooterRefs(x.headers, path + "/header_refs", StoryOf(HeaderStory));
      Then(s, b, Now(), ok && |x.columns| <= MAX_COLUMNS, Join(t, IdsTrace(x.columns)),
        AllValid(x.headers), RefListTrace(x.headers, StoryOf(HeaderStory)));
      ghost var c := Now();
      HeaderFooterRefs(x.footers, path + "/footer_refs", StoryOf(FooterStory));
      Then(s, c, Now(), ok && |x.columns| <= MAX_COLUMNS && AllValid(x.headers),
        Join(Join(t, IdsTrace(x.columns)), RefListTrace(x.headers, StoryOf(HeaderStory))),
        AllValid(x.footers), RefListTrace(x.footers, StoryOf(FooterStory)));
    }

    method SectionHead(x: Section, path: string, mainPart: string, body: Option<Bounds>)
      modifies this`issues, this`ids, this`references
      ensures Matches(Now(), Advance(old(Now()), AnchorOk(Some(x.anchor), mainPart, body) && ValidId(x.startsAt) && x.fieldsOk,
        Join(IdTrace(x.id), RefTrace(x.startsAt, BodyBlock))))
    {
      hide Advance, Matches, Join, AnchorOk, IdTrace, RefTrace, ValidId;
      ghost var s := Now();
      Id(x.id, path + "/id");
      ghost var a := Now();
      var bounds := CheckAnchor(Some(x.anchor), path + "/anchor", mainPart, body);
      ThenCheck(s, a, Now(), true, IdTrace(x.id), AnchorOk(Some(x.anchor), mainPart, body));
      ghost var b := Now();
      StoryRef(x.startsAt, path, BodyBlock);
      Then(s, b, Now(), AnchorOk(Some(x.anchor), mainPart, body), IdTrace(x.id), ValidId(x.startsAt), RefTrace(x.startsAt, BodyBlock));
      ghost var c := Now();
      Check(x.fieldsOk, "INVALID_VALUE", path, "section field is invalid");
      ThenCheck(s, c, Now(), AnchorOk(Some(x.anchor), mainPart, body) && ValidId(x.startsAt),
        Join(IdTrace(x.id), RefTrace(x.startsAt, BodyBlock)), x.fieldsOk);
    }

    method Sections(xs: seq<Section>, path: string, mainPart: string, body: Option<Bounds>)
      modifies this`issues, this`ids, this`references, this`nodes
      ensures Matches(Now(), Advance(old(Now()), SectionsOk(xs, mainPart, body), Join(SizeTrace(|xs|), SectionsTrace(xs))))
    {
      hide Advance, Matches, Join, SizeTrace, SectionOk, SectionTrace;
      ghost var s := Now();
      var limit := Collection(|xs|, path);
      SizeStart(s, Now(), |xs|);
      for i := 0 to limit
        invariant Matches(Now(), Advance(s, SectionsOk(xs[..i], mainPart, body), Join(SizeTrace(|xs|), SectionsTrace(xs[..i]))))
      {
        ghost var a := Now();
        Section(xs[i], path + "/" + Numeral(i), mainPart, body);
        LoopNext(s, a, Now(), |xs|, SectionsOk(xs[..i], mainPart, body), SectionsTrace(xs[..i]), SectionOk(xs[i], mainPart, body), SectionTrace(xs[i]));
        Prefix(xs, i);
      }
      assert limit == |xs| ==> xs[..limit] == xs;
      LoopEnd(Now(), s, |xs|, limit, SectionsOk(xs[..limit], mainPart, body), SectionsTrace(xs[..limit]), SectionsOk(xs, mainPart, body), SectionsTrace(xs));
    }

    /** The checks of a comment that do not involve its story. */
    method CommentHead(c: Comment, path: string) returns (bounds: Option<Bounds>)
      modifies this`issues, this`ids, this`references, this`comments
      ensures Matches(Now(), Advance(old(Now()), CommentAlone(c), CommentTrace(c)))
      ensures comments == old(comments) + if c.id != "" then {c.id} else {}
      ensures Now().clean ==> c.anchor.Some? && bounds == BoundsOf(c.anchor.value)
    {
      hide Advance, Matches, Join, AnchorOk, IdTrace, RefTrace, ValidId, BoundsOf;
      ghost var s := Now();
      Id(c.id, path + "/id");
      if c.id != "" {
        comments := comments + {c.id};
      }
      ghost var a := Now();
      StoryRef(c.story, path, StoryOf(CommentStory));
      Then(s, a, Now(), true, IdTrace(c.id), ValidId(c.story), RefTrace(c.story, StoryOf(CommentStory)));
      ghost var b := Now();
      Check(c.fieldsOk && ValidId(c.native), "INVALID_VALUE", path, "comment field is invalid");
      ThenCheck(s, b, Now(), ValidId(c.story), CommentTrace(c), c.fieldsOk && ValidId(c.native));
      ghost var d := Now();
      bounds := CheckAnchor(c.anchor, path + "/anchor", "", None);
      ThenCheck(s, d, Now(), ValidId(c.story) && c.fieldsOk && ValidId(c.native), CommentTrace(c), AnchorOk(c.anchor, "", None));
    }

    method Comment(c: Comment, path: string)
      modifies this`issues, this`ids, this`references, this`comments
      ensures Matches(Now(), Advance(old(Now()), CommentOk(c, anchors, storyNativeIDs), CommentTrace(c)))
      ensures comments == old(comments) + if c.id != "" then {c.id} else {}
    {
      hide Advance, Matches, CommentTrace, CommentAlone, CommentOk, StoryFits, BoundsOf;
      ghost var s := Now();
      var bounds := CommentHead(c, path);
      ghost var a := Now();
      CommentFits(c, path, bounds);
      CleanMeansOk(s, a, CommentAlone(c), CommentTrace(c));
      CommentSplits(c, bounds, anchors, storyNativeIDs);
      ThenLast(s, a, Now(), CommentAlone(c), CommentTrace(c), StoryFits(c, bounds, anchors, storyNativeIDs),
        CommentOk(c, anchors, storyNativeIDs));
    }

    /** The comment's story lies inside the comment's anchor and carries its native id. */
    method CommentFits(c: Comment, path: string, bounds: Option<Bounds>)
      modifies this`issues
      ensures Matches(Now(), Advance(old(Now()), StoryFits(c, bounds, anchors, storyNativeIDs), NOTHING))
    {
      hide Advance, Matches, StoryFits;
      var fits := StoryFits(c, bounds, anchors, storyNativeIDs);
      Check(fits, "OUT_OF_RANGE", path + "/body_story_id", "comment body story must be contained by and named as the comment");
    }

    method Comments(xs: seq<Comment>, path: string)
      modifies this`issues, this`ids, this`references, this`nodes, this`comments
      ensures Matches(Now(), Advance(old(Now()), CommentsOk(xs, anchors, storyNativeIDs), Join(SizeTrace(|xs|), CommentsTrace(xs))))
      ensures Now().clean ==> comments == old(comments) + CommentIds(xs)
    {
      hide Advance, Matches, Join, SizeTrace, CommentOk, CommentTrace;
      ghost var s := Now();
      var limit := Collection(|xs|, path);
      SizeStart(s, Now(), |xs|);
      for i := 0 to limit
        invariant comments == old(comments) + CommentIds(xs[..i])
        invariant Matches(Now(), Advance(s, CommentsOk(xs[..i], anchors, storyNativeIDs), Join(SizeTrace(|xs|), CommentsTrace(xs[..i]))))
      {
        ghost var a := Now();
        Comment(xs[i], path + "/" + Numeral(i));
        LoopNext(s, a, Now(), |xs|, CommentsOk(xs[..i], anchors, storyNativeIDs), CommentsTrace(xs[..i]), CommentOk(xs[i], anchors, storyNativeIDs), CommentTrace(xs[i]));
        Prefix(xs, i);
        CommentIdsSnoc(xs, i);
      }
      assert limit == |xs| ==> xs[..limit] == xs;
      LoopEnd(Now(), s, |xs|, limit, CommentsOk(xs[..limit], anchors, storyNativeIDs), CommentsTrace(xs[..limit]), CommentsOk(xs, anchors, storyNativeIDs), CommentsTrace(xs));
    }

    method Capabilities(xs: seq<string>, path: string)
      modifies this`issues, this`nodes
      ensures Matches(Now(), Advance(old(Now()), CapabilitiesOk(xs), SizeTrace(|xs|)))
    {
      hide Advance, Matches, Join, SizeTrace, ValidId;
      ghost var s := Now();
      var limit := Collection(|xs|, path);
      SizeStart(s, Now(), |xs|);
      var names: set<string> := {};
      for i := 0 to limit
        invariant names == set j | 0 <= j < i :: xs[j]
        invariant Matches(Now(), Advance(s, CapabilitiesOk(xs[..i]), Join(SizeTrace(|xs|), NOTHING)))
      {
        ghost var a := Now();
        assert xs[i] in names <==> xs[i] in xs[..i];
        Check(ValidId(xs[i]) && xs[i] !in names, "INVALID_VALUE", path + "/" + Numeral(i), "capability name is invalid or duplicated");
        names := names + {xs[i]};
        LoopNext(s, a, Now(), |xs|, CapabilitiesOk(xs[..i]), NOTHING, ValidId(xs[i]) && xs[i] !in xs[..i], NOTHING);
        JoinNothing(NOTHING);
        Prefix(xs, i);
      }
      assert limit == |xs| ==> xs[..limit] == xs;
      LoopEnd(Now(), s, |xs|, limit, CapabilitiesOk(xs[..limit]), NOTHING, CapabilitiesOk(xs), NOTHING);
      JoinNothing(SizeTrace(|xs|));
    }

    method PassthroughPart(part: Passthrough, path: string)
      modifies this`issues, this`passthrough, this`mediaParts
      ensures Matches(Now(), Advance(old(Now()), part.fieldsOk && part.name !in old(passthrough) && part.name !in modeledParts, NOTHING))
      ensures passthrough == old(passthrough) + {part.name}
      ensures mediaParts == old(mediaParts) + if part.media then {part.name} else {}
    {
      hide Advance, Matches;
      Check(part.fieldsOk && part.name !in passthrough && part.name !in modeledParts, "INVALID_VALUE", path,
        "passthrough part is invalid, duplicated or modeled");
      passthrough := passthrough + {part.name};
      if part.media {
        mediaParts := mediaParts + {part.name};
      }
    }

    method PassthroughParts(xs: seq<Passthrough>, path: string)
      requires passthrough == {} && mediaParts == {}
      modifies this`issues, this`nodes, this`passthrough, this`mediaParts
      ensures Matches(Now(), Advance(old(Now()), PassthroughOk(xs, modeledParts), SizeTrace(|xs|)))
      ensures Now().clean ==> mediaParts == MediaNames(xs)
    {
      hide Advance, Matches, Join, SizeTrace, PartNames, MediaNames, PassthroughOk;
      ghost var s := Now();
      var limit := Collection(|xs|, path);
      SizeStart(s, Now(), |xs|);
      PartsNone();
      JoinNothing(NOTHING);
      for i := 0 to limit
        invariant passthrough == PartNames(xs[..i]) && mediaParts == MediaNames(xs[..i])
        invariant Matches(Now(), Advance(s, PassthroughOk(xs[..i], modeledParts), Join(SizeTrace(|xs|), NOTHING)))
      {
        ghost var a := Now();
        ghost var ok := xs[i].fieldsOk && xs[i].name !in passthrough && xs[i].name !in modeledParts;
        PassthroughPart(xs[i], path + "/" + Numeral(i));
        LoopNext(s, a, Now(), |xs|, PassthroughOk(xs[..i], modeledParts), NOTHING, ok, NOTHING);
        PartsSnoc(xs, i);
        PassthroughSnoc(xs, i, modeledParts);
      }
      assert limit == |xs| ==> xs[..limit] == xs;
      LoopEnd(Now(), s, |xs|, limit, PassthroughOk(xs[..limit], modeledParts), NOTHING, PassthroughOk(xs, modeledParts), NOTHING);
      JoinNothing(SizeTrace(|xs|));
    }

    method UnsupportedEntry(u: Unsupported, path: string)
      modifies this`issues, this`ids, this`references
      ensures Matches(Now(), Advance(old(Now()), EntryOk(u), EntryTrace(u)))
    {
      hide Advance, Matches, Join, AnchorOk, IdTrace, RefTrace, ValidId;
      ghost var s := Now();
      Id(u.id, path + "/id");
      ghost var a := Now();
      StoryRef(u.scope, path, ModeledId);
      Then(s, a, Now(), true, IdTrace(u.id), ValidId(u.scope), RefTrace(u.scope, ModeledId));
      ghost var b := Now();
      Check(u.fieldsOk, "INVALID_VALUE", path, "entry field is invalid");
      ThenCheck(s, b, Now(), ValidId(u.scope), EntryTrace(u), u.fieldsOk);
      if u.anchor.Some? {
        ghost var c := Now();
        var bounds := CheckAnchor(u.anchor, path + "/anchor", "", None);
        ThenCheck(s, c, Now(), ValidId(u.scope) && u.fieldsOk, EntryTrace(u), AnchorOk(u.anchor, "", None));
      }
    }

    method UnsupportedEntries(xs: seq<Unsupported>, path: string)
      modifies this`issues, this`ids, this`references, this`nodes
      ensures Matches(Now(), Advance(old(Now()), EntriesOk(xs), Join(SizeTrace(|xs|), EntriesTrace(xs))))
    {
      hide Advance, Matches, Join, SizeTrace, EntryOk, EntryTrace;
      ghost var s := Now();
      var limit := Collection(|xs|, path);
      SizeStart(s, Now(), |xs|);
      for i := 0 to limit
        invariant Matches(Now(), Advance(s, EntriesOk(xs[..i]), Join(SizeTrace(|xs|), EntriesTrace(xs[..i]))))
      {
        ghost var a := Now();
        UnsupportedEntry(xs[i], path + "/" + Numeral(i));
        LoopNext(s, a, Now(), |xs|, EntriesOk(xs[..i]), EntriesTrace(xs[..i]), EntryOk(xs[i]), EntryTrace(xs[i]));
        Prefix(xs, i);
      }
      assert limit == |xs| ==> xs[..limit] == xs;
      LoopEnd(Now(), s, |xs|, limit, EntriesOk(xs[..limit]), EntriesTrace(xs[..limit]), EntriesOk(xs), EntriesTrace(xs));
    }

    predicate TargetExists(r: Ref)
      reads this
    {
      match r.target
      case ModeledId => r.id in ids
      case BodyBlock => r.id in bodyBlocks
      case StoryOf(kind) => (kind, r.id) in storyIds
      case CommentItem => r.id in comments
      case MediaPart => r.id in mediaParts
    }

    method CheckReferences()
      modifies this`issues
      ensures Now().clean <==> old(Now()).clean && forall i :: 0 <= i < |references| ==> TargetExists(references[i])
    {
      ghost var s := Now();
      for i := 0 to |references|
        invariant Now().clean <==> s.clean && forall j :: 0 <= j < i ==> TargetExists(references[j])
      {
        if !TargetExists(references[i]) {
          Add("BROKEN_REFERENCE", "", "reference does not resolve");
        }
      }
    }
  }

  lemma EmptyInvalid()
    ensures !ValidId("")
  {
  }

  predicate CommentAlone(c: Comment) {
    ValidId(c.story) && c.fieldsOk && ValidId(c.native) && AnchorOk(c.anchor, "", None)
  }

  predicate StoryFits(c: Comment, bounds: Option<Bounds>, anchors: map<string, Bounds>, natives: map<string, string>) {
    && (bounds.Some? && c.story in anchors ==> Within(anchors[c.story], bounds.value))
    && (c.story in natives && natives[c.story] != "" ==> natives[c.story] == c.native)
  }

  lemma CommentSplits(c: Comment, bounds: Option<Bounds>, anchors: map<string, Bounds>, natives: map<string, string>)
    ensures CommentOk(c, anchors, natives) ==> CommentAlone(c)
    ensures CommentAlone(c) && bounds == BoundsOf(c.anchor.value) ==> (CommentOk(c, anchors, natives) <==> StoryFits(c, bounds, anchors, natives))
  {
    hide ValidId, Within;
  }

  lemma {:induction false} CleanMeansOk(s: Seen, a: Seen, ok: bool, t: Trace)
    requires Matches(a, Advance(s, ok, t))
    ensures a.clean ==> ok
  {
    hide Fresh, Fits, Sum, SetOf, KindsAfter, AnchorsAfter, NativesAfter;
  }

  lemma PartsNone()
    ensures PartNames([]) == {} && MediaNames([]) == {} && forall modeled :: PassthroughOk([], modeled)
  {
  }

  lemma PassthroughSnoc(xs: seq<Passthrough>, i: nat, modeled: set<string>)
    requires i < |xs|
    ensures PassthroughOk(xs[..i + 1], modeled)
      == (PassthroughOk(xs[..i], modeled) && xs[i].fieldsOk && xs[i].name !in PartNames(xs[..i]) && xs[i].name !in modeled)
  {
    hide PartNames;
    Prefix(xs, i);
  }

  predicate RunAlone(r: Run, owner: string, parent: Option<Bounds>) {
    && (r.link.Some? ==> AnchorOk(r.link, owner, parent))
    && AnchorOk(Some(r.anchor), owner, parent)
    && UnionOk(r) && r.fieldsOk
  }

  lemma IdsSnoc(xs: seq<string>, i: nat)
    requires i < |xs|
    ensures IdsTrace(xs[..i + 1]) == Join(IdsTrace(xs[..i]), IdTrace(xs[i]))
  {
    assert xs[..i + 1] == xs[..i] + [xs[i]];
  }

  /** A refused length leaves no way to a clean verdict. */
  lemma {:induction false} NeverClean(s: Seen, t: Trace, tAll: Trace, now: Seen)
    requires Matches(now, Advance(s, false, t))
    ensures Matches(now, Advance(s, false, tAll))
  {
    hide Fresh, Fits, Sum, SetOf, KindsAfter, AnchorsAfter, NativesAfter;
  }

  /** A last check that, as long as there was no issue, completes the verdict. */
  lemma {:induction false} ThenLast(s: Seen, a: Seen, b: Seen, ok1: bool, t: Trace, ok2: bool, okAll: bool)
    requires Matches(a, Advance(s, ok1, t)) && Matches(b, Advance(a, ok2, NOTHING))
    requires a.clean ==> (ok1 && ok2 <==> okAll)
    requires okAll ==> ok1
    ensures Matches(b, Advance(s, okAll, t))
  {
    hide Fresh, Fits, Sum, SetOf, KindsAfter, AnchorsAfter, NativesAfter;
    AdvanceNothing(a, ok2);
  }

  lemma CommentIdsSnoc(xs: seq<Comment>, i: nat)
    requires i < |xs|
    ensures CommentIds(xs[..i + 1]) == CommentIds(xs[..i]) + if xs[i].id != "" then {xs[i].id} else {}
  {
    var all := xs[..i + 1];
    forall x ensures x in CommentIds(all) <==> x in CommentIds(xs[..i]) || (x == xs[i].id && x != "") {
      if x in CommentIds(xs[..i]) {
        var j :| 0 <= j < i && xs[..i][j].id == x;
        assert all[j].id == x;
      }
      if x == xs[i].id { assert all[i].id == x; }
      if x in CommentIds(all) {
        var j :| 0 <= j < |all| && all[j].id == x;
        if j < i { assert xs[..i][j].id == x; }
      }
    }
  }

  lemma PartsSnoc(xs: seq<Passthrough>, i: nat)
    requires i < |xs|
    ensures PartNames(xs[..i + 1]) == PartNames(xs[..i]) + {xs[i].name}
    ensures MediaNames(xs[..i + 1]) == MediaNames(xs[..i]) + if xs[i].media then {xs[i].name} else {}
  {
    var all := xs[..i + 1];
    forall j | 0 <= j < i ensures all[j] == xs[..i][j] {
    }
    assert all[i] == xs[i];
  }

  lemma {:induction false} DirtyStays(a: Seen, b: Seen, ok: bool, t: Trace)
    requires Matches(b, Advance(a, ok, t))
    ensures b.clean ==> a.clean
  {
    hide Fresh, Fits, Sum, SetOf, KindsAfter, AnchorsAfter, NativesAfter;
  }

  lemma {:induction false} IdIsValid(s: Seen, id: string)
    ensures Advance(s, true, IdTrace(id)) == Advance(s, ValidId(id), IdTrace(id))
  {
    hide ValidId, SetOf, KindsAfter, AnchorsAfter, NativesAfter, Sum, Fits;
    assert [id][..0] == [];
  }

  lemma {:induction false} BlockHead(s: Seen, a: Seen, id: string, body: bool)
    requires Matches(a, Advance(s, true, IdTrace(id)))
    ensures Matches(if body && id != "" then a.(blocks := a.blocks + {id}) else a,
                    Advance(s, true, IdTrace(id).(blocks := if body && id != "" then [id] else [])))
  {
    hide Fresh, Fits, Sum, KindsAfter, AnchorsAfter, NativesAfter, SetOf;
    SetOfFew(id);
  }

  function Noted(a: Seen, story: Story, bounds: Option<Bounds>): Seen {
    a.(parts := if story.part != "" then a.parts + {story.part} else a.parts,
       natives := if story.id != "" && story.native.Some? then a.natives[story.id := story.native.value] else a.natives,
       anchors := if story.id != "" && bounds.Some? then a.anchors[story.id := bounds.value] else a.anchors,
       storyIds := a.storyIds + {(story.kind, story.id)})
  }

  lemma {:induction false} StoryNoted(s: Seen, a: Seen, story: Story, bounds: Option<Bounds>, ok: bool)
    requires Matches(a, Advance(s, ok, IdTrace(story.id)))
    requires a.clean ==> story.anchor.Some? && bounds == BoundsOf(story.anchor.value)
    ensures Matches(Noted(a, story, bounds), Advance(s, ok, StoryHeadTrace(story)))
    ensures Noted(a, story, bounds).clean == a.clean
  {
    hide Fresh, Fits, Sum, SetOf, BoundsOf;
    SetOfFew(story.part);
    assert [story][..0] == [];
  }

  /** Most parts declare only ids, references and sizes. */
  lemma {:induction false} AdvancePlain(s: Seen, ok: bool, t: Trace)
    requires t.blocks == [] && t.stories == [] && t.parts == []
    ensures Advance(s, ok, t)
      == s.(clean := s.clean && ok && Fresh(t.ids, s.ids) && Fits(t.sizes, s.nodes),
            ids := s.ids + SetOf(t.ids), nodes := s.nodes + Sum(t.sizes), refs := s.refs + t.refs)
  {
    assert SetOf([]) == {};
    assert s.blocks + {} == s.blocks && s.parts + {} == s.parts;
  }

  lemma SetOfFew(id: string)
    ensures SetOf([]) == {} && SetOf([id]) == {id}
  {
    assert [id][0] == id;
  }

  lemma {:induction false} OneId(s: Seen, id: string)
    ensures Advance(s, true, IdTrace(id)) == s.(clean := s.clean && ValidId(id) && id !in s.ids, ids := s.ids + {id})
  {
    hide ValidId, Advance, SetOf;
    AdvancePlain(s, true, IdTrace(id));
    SetOfFew(id);
    assert [id][..0] == [];
    Whole(s.refs);
  }

  lemma {:induction false} OneRef(s: Seen, id: string, target: Target)
    ensures Advance(s, true, RefTrace(id, target)) == s.(refs := s.refs + if id == "" then [] else [Ref(id, target)])
  {
    hide Advance, SetOf;
    AdvancePlain(s, true, RefTrace(id, target));
    SetOfFew(id);
    assert s.ids + {} == s.ids;
  }

  lemma {:induction false} OneSize(s: Seen, n: nat)
    ensures Advance(s, true, SizeTrace(n))
      == s.(clean := s.clean && n <= MAX_ITEMS && s.nodes < MAX_NODES && s.nodes + n <= MAX_NODES, nodes := s.nodes + n)
  {
    hide Advance, SetOf;
    AdvancePlain(s, true, SizeTrace(n));
    SetOfFew("");
    assert s.ids + {} == s.ids;
    Whole(s.refs);
    assert [n][..0] == [];
    assert Sum([]) == 0 && Sum([n]) == n;
  }
}
