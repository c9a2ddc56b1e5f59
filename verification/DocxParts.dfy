/**
 The parts of a paragraph that the patcher keeps, its own properties and those
 of its first run, and the paragraph it writes from them.  A pattern that no
 written tag matches (Foreign) does not occur in what is written unless it was
 in the kept parts already (Silent); table tags, non-text markers and the
 closing paragraph tag are such patterns.
 */
module DocxParts {
  import opened Prelude
  import opened Strings
  import opened Markup
  import opened DocxText
  import opened DocxScan

  const PARA_PROPS := "w:pPr"
  const RUN := "w:r"
  const RUN_PROPS := "w:rPr"
  const STYLE := "<w:pStyle "
  const VAL := "w:val=\""

  /** Content a rewrite would destroy. */
  const MARKERS: seq<string> := [
    "<w:drawing", "<pic:pic", "<w:object", "<w:pict", "<w:fldChar",
    "<w:fldSimple", "<w:footnoteReference", "<w:endnoteReference",
    "<w:commentReference", "<m:oMath", "<w:hyperlink", "<w:sdt"
  ]

  predicate HasNonText(inner: string) {
    exists m :: m in MARKERS && Contains(inner, m)
  }

  /** The paragraph's own properties: only at the very start of the content. */
  function PPr(inner: string): (r: string)
    ensures TagWhole(r) && r <= inner
  {
    match ElementAt(inner, PARA_PROPS)
    case Some(e) =>
      EndsWithTagWhole(inner[..e.len]);
      inner[..e.len]
    case None => ""
  }

  /** The properties that directly follow a run's start tag at the start of s. */
  function RunPrAt(s: string): (r: Option<string>)
    ensures r.Some? ==> TagWhole(r.value) && Contains(s, r.value)
  {
    match StartTag(s, RUN)
    case None => None
    case Some(o) =>
      match ElementAt(s[o..], RUN_PROPS)
      case None => None
      case Some(e) =>
        PropsSlice(s, o, e.len);
        Some(s[o..o + e.len])
  }

  lemma PropsSlice(s: string, o: nat, n: nat)
    requires o <= |s| && 0 < n <= |s[o..]| && s[o..][n - 1] == '>'
    ensures TagWhole(s[o..o + n]) && Contains(s, s[o..o + n])
  {
    EndsWithTagWhole(s[o..o + n]);
    SliceAt(s, o, o + n);
  }

  /** The properties of the first run that has any. */
  function RPr(inner: string): (r: string)
    ensures TagWhole(r) && Contains(inner, r)
    decreases |inner|
  {
    if inner == "" then
      assert At(inner, "", 0);
      ""
    else
      match RunPrAt(inner)
      case Some(r) => r
      case None =>
        ContainsTail(inner, RPr(inner[1..]));
        RPr(inner[1..])
  }

  lemma ContainsTail(s: string, p: string)
    requires s != "" && Contains(s[1..], p)
    ensures Contains(s, p)
  {
    var i :| 0 <= i <= |s[1..]| && At(s[1..], p, i);
    AtSlice(s, p, 1, i);
    assert At(s, p, 1 + i);
  }

  /** The last attribute value that starts in s[from..v] and is closed by a quote. */
  function LastVal(s: string, from: nat, v: nat): (r: Option<string>)
    requires v <= |s|
    decreases v
  {
    if v < from then None
    else if At(s, VAL, v) && IndexOf(s, "\"", v + |VAL|).Some? then
      Some(s[v + |VAL|..IndexOf(s, "\"", v + |VAL|).value])
    else if v == 0 then None
    else LastVal(s, from, v - 1)
  }

  /** Where the start tag at the start of s stops: its '>' or the end of s. */
  function TagEnd(s: string, from: nat): (r: nat)
    requires from <= |s|
    ensures from <= r <= |s|
  {
    match IndexOf(s, ">", from)
    case Some(g) => g
    case None => |s|
  }

  function StyleAt(s: string): Option<string> {
    if At(s, STYLE, 0) then LastVal(s, |STYLE|, TagEnd(s, |STYLE|)) else None
  }

  /** The paragraph style: the first style tag with a value. */
  function Style(inner: string): Option<string>
    decreases |inner|
  {
    if inner == "" then None
    else if StyleAt(inner).Some? then StyleAt(inner)
    else Style(inner[1..])
  }

  // ------------------------------------------------------------ the new paragraph

  function NewInner(inner: string, text: string): string {
    PPr(inner) + Runs(text, RPr(inner))
  }

  /** The tag without a final "/>". */
  function TrimTag(tag: string): string {
    if |tag| >= 2 && tag[|tag| - 2..] == "/>" then tag[..|tag| - 2] else tag
  }

  /** The paragraph with its properties kept and `text` as its only content. */
  function Rewrite(p: Piece, text: string): Piece {
    match p
    case Closed(tag) => Full(TrimTag(tag) + ">", Runs(text, ""))
    case Full(open, inner) => Full(open, NewInner(inner, text))
  }

  // ---------------------------------------------- what written runs do not contain

  const RUN_TAGS: seq<string> := [OPEN_RUN, OPEN_TEXT, CLOSE_TEXT, BREAK, TAB, CLOSE_RUN]

  predicate Clash(p: string, tag: string) {
    exists k :: 0 <= k < |p| && k < |tag| && p[k] != tag[k]
  }

  /** A tag pattern that none of the written tags matches. */
  predicate Foreign(p: string) {
    TagPattern(p) && forall tag :: tag in RUN_TAGS ==> Clash(p, tag)
  }

  /** x has whole tags and no occurrence of p. */
  predicate Silent(x: string, p: string) {
    TagWhole(x) && !Contains(x, p)
  }

  lemma SilentConcat(a: string, b: string, p: string)
    requires TagPattern(p) && Silent(a, p) && Silent(b, p)
    ensures Silent(a + b, p)
  {
    TagWholeConcat(a, b);
    forall i | 0 <= i <= |a + b| ensures !At(a + b, p, i) {
      OccurrencesSplit(a, b, p, i);
    }
  }

  lemma SilentTag(tag: string, p: string)
    requires Foreign(p) && tag in RUN_TAGS
    ensures Silent(tag, p)
  {
    assert Clash(p, tag);
    RunTagShape(tag);
    EndsWithTagWhole(tag);
    var k :| 0 <= k < |p| && k < |tag| && p[k] != tag[k];
    forall i | 0 <= i <= |tag| ensures !At(tag, p, i) {
      if At(tag, p, i) {
        AtChars(tag, p, i, 0);
        AtChars(tag, p, i, k);
      }
    }
  }

  lemma RunTagShape(tag: string)
    requires tag in RUN_TAGS
    ensures tag != "" && tag[|tag| - 1] == '>' && forall k :: 1 <= k < |tag| ==> tag[k] != '<'
  {
  }

  lemma SilentPlain(x: string, p: string)
    requires TagPattern(p) && forall k :: 0 <= k < |x| ==> x[k] != '<'
    ensures Silent(x, p)
  {
    forall i | 0 <= i <= |x| ensures !At(x, p, i) {
      if At(x, p, i) { AtChars(x, p, i, 0); }
    }
  }

  lemma RunTagMembers()
    ensures OPEN_RUN in RUN_TAGS && OPEN_TEXT in RUN_TAGS && CLOSE_TEXT in RUN_TAGS
    ensures BREAK in RUN_TAGS && TAB in RUN_TAGS && CLOSE_RUN in RUN_TAGS
  {
    assert RUN_TAGS[0] == OPEN_RUN && RUN_TAGS[1] == OPEN_TEXT && RUN_TAGS[2] == CLOSE_TEXT;
    assert RUN_TAGS[3] == BREAK && RUN_TAGS[4] == TAB && RUN_TAGS[5] == CLOSE_RUN;
  }

  lemma SilentFlush(t: string, p: string)
    requires Foreign(p)
    ensures Silent(Flush(t), p)
  {
    hide Silent, Contains, Clash;
    RunTagMembers();
    if t == "" {
      SilentPlain("", p);
    } else {
      SilentTag(OPEN_TEXT, p);
      SilentTag(CLOSE_TEXT, p);
      SilentPlain(Escape(t), p);
      SilentConcat(OPEN_TEXT, Escape(t), p);
      SilentConcat(OPEN_TEXT + Escape(t), CLOSE_TEXT, p);
    }
  }

  lemma {:induction false} SilentBody(cur: string, text: string, p: string)
    requires Foreign(p)
    ensures Silent(Body(cur, text), p)
    decreases |text|
  {
    hide Silent, Contains, Clash, Flush;
    RunTagMembers();
    SilentFlush(cur, p);
    if text == "" {
    } else if text[0] == '\n' || text[0] == '\t' {
      var mark := if text[0] == '\n' then BREAK else TAB;
      SilentTag(mark, p);
      SilentBody("", text[1..], p);
      SilentConcat(Flush(cur), mark, p);
      SilentConcat(Flush(cur) + mark, Body("", text[1..]), p);
    } else {
      SilentBody(cur + [text[0]], text[1..], p);
    }
  }

  lemma SilentRuns(text: string, rPr: string, p: string)
    requires Foreign(p) && Silent(rPr, p)
    ensures Silent(Runs(text, rPr), p)
  {
    hide Silent, Contains, Clash, Body;
    RunTagMembers();
    SilentTag(OPEN_RUN, p);
    SilentTag(CLOSE_RUN, p);
    SilentBody("", text, p);
    SilentConcat(OPEN_RUN, rPr, p);
    SilentConcat(OPEN_RUN + rPr, Body("", text), p);
    SilentConcat(OPEN_RUN + rPr + Body("", text), CLOSE_RUN, p);
  }

  /** The kept properties are part of the old content, so what that lacks they lack. */
  lemma KeptSilent(inner: string, p: string)
    requires !Contains(inner, p)
    ensures Silent(PPr(inner), p) && Silent(RPr(inner), p)
  {
    hide PPr, RPr;
    assert At(inner, PPr(inner), 0);
    PartLacks(inner, PPr(inner), p);
    PartLacks(inner, RPr(inner), p);
  }

  lemma PartLacks(s: string, part: string, p: string)
    requires Contains(s, part) && !Contains(s, p)
    ensures !Contains(part, p)
  {
    var a :| 0 <= a <= |s| && At(s, part, a);
    forall i | 0 <= i <= |part| ensures !At(part, p, i) {
      if At(part, p, i) {
        SubSlice(s, a, |part|, i, |p|);
        assert At(s, p, a + i);
      }
    }
  }

  lemma NewInnerSilent(inner: string, text: string, p: string)
    requires Foreign(p) && Silent(PPr(inner), p) && Silent(RPr(inner), p)
    ensures Silent(NewInner(inner, text), p)
  {
    hide Silent, Clash, Runs, PPr, RPr;
    SilentRuns(text, RPr(inner), p);
    SilentConcat(PPr(inner), Runs(text, RPr(inner)), p);
  }

  lemma MarkerForeign(p: string)
    requires TagPattern(p) && |p| >= 4 && p[1] != '/' && (p[1] == 'w' ==> p[3] != 'r' && p[3] != 't' && p[3] != 'b')
    ensures Foreign(p)
  {
    forall tag | tag in RUN_TAGS ensures Clash(p, tag) {
      if tag == CLOSE_TEXT || tag == CLOSE_RUN {
        assert tag[1] == '/';
      } else {
        RunTagHead(tag);
        if p[1] == 'w' { assert p[3] != tag[3]; }
      }
    }
  }

  lemma RunTagHead(tag: string)
    requires tag == OPEN_RUN || tag == OPEN_TEXT || tag == BREAK || tag == TAB
    ensures |tag| >= 4 && tag[1] == 'w' && (tag[3] == 'r' || tag[3] == 't' || tag[3] == 'b')
  {
  }

  lemma MarkersForeign()
    ensures forall m :: m in MARKERS ==> Foreign(m)
  {
    forall k | 0 <= k < |MARKERS| ensures Foreign(MARKERS[k]) {
      MarkerShape(k);
      MarkerForeign(MARKERS[k]);
    }
  }

  lemma MarkerShape(k: nat)
    requires k < |MARKERS|
    ensures
      var p := MARKERS[k];
      TagPattern(p) && |p| >= 4 && p[1] != '/' && (p[1] == 'w' ==> p[3] != 'r' && p[3] != 't' && p[3] != 'b')
  {
  }

  lemma ForeignIf(p: string, a: nat, b: nat, c: nat, d: nat, e: nat, f: nat)
    requires TagPattern(p)
    requires a < |p| && a < |OPEN_RUN| && p[a] != OPEN_RUN[a]
    requires b < |p| && b < |OPEN_TEXT| && p[b] != OPEN_TEXT[b]
    requires c < |p| && c < |CLOSE_TEXT| && p[c] != CLOSE_TEXT[c]
    requires d < |p| && d < |BREAK| && p[d] != BREAK[d]
    requires e < |p| && e < |TAB| && p[e] != TAB[e]
    requires f < |p| && f < |CLOSE_RUN| && p[f] != CLOSE_RUN[f]
    ensures Foreign(p)
  {
    assert Clash(p, OPEN_RUN);
    assert Clash(p, OPEN_TEXT);
    assert Clash(p, CLOSE_TEXT);
    assert Clash(p, BREAK);
    assert Clash(p, TAB);
    assert Clash(p, CLOSE_RUN);
  }

  lemma TableForeign()
    ensures Foreign(TABLE) && Foreign(TABLE_END)
  {
    ForeignIf(TABLE, 3, 4, 1, 3, 4, 1);
    ForeignIf(TABLE_END, 1, 1, 5, 1, 1, 4);
  }

  lemma StructureForeign()
    ensures Foreign(CLOSE_P) && Foreign(STYLE)
  {
    ForeignIf(CLOSE_P, 1, 1, 4, 1, 1, 4);
    MarkerForeign(STYLE);
  }
}
