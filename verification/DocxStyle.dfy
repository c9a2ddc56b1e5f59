/**
 When a rewritten paragraph keeps the shape and the style of the one it
 replaces: its tag is still one tag, its content has no closing tag of its own,
 and a style that the kept properties declare is still the first one found.
 */
module DocxStyle {
  import opened Prelude
  import opened Strings
  import opened Markup
  import opened DocxText
  import opened DocxScan
  import opened DocxParts

  /** Every attribute value that starts in x also ends in x. */
  predicate Quoted(x: string) {
    forall v :: 0 <= v < |x| && At(x, VAL, v) ==> IndexOf(x, "\"", v + |VAL|).Some?
  }

  lemma QuotedTail(x: string)
    requires Quoted(x) && x != ""
    ensures Quoted(x[1..])
  {
    assert x == x[..1] + x[1..];
    forall v | 0 <= v < |x[1..]| && At(x[1..], VAL, v) ensures IndexOf(x[1..], "\"", v + |VAL|).Some? {
      AtSlice(x, VAL, 1, v);
      IndexOfShift(x[..1], x[1..], "\"", v + |VAL|);
    }
  }

  lemma BeforeTagEnd(x: string, z: string, g: nat, v: nat)
    requires g < |x| && x[g] == '>' && v <= g
    ensures At(x + z, VAL, v) <==> At(x, VAL, v)
  {
    if v + |VAL| <= |x| {
      AtLeft(x, z, VAL, v);
    } else if At(x + z, VAL, v) {
      AtChars(x + z, VAL, v, g - v);
    }
  }

  lemma {:induction false} LastValKept(x: string, z: string, from: nat, g: nat, v: nat)
    requires g < |x| && x[g] == '>' && v <= g && Quoted(x)
    ensures LastVal(x + z, from, v) == LastVal(x, from, v)
    decreases v
  {
    hide At;
    BeforeTagEnd(x, z, g, v);
    if v >= from {
      if At(x, VAL, v) {
        AtBounds(x, VAL, v);
        FirstKept(x, z, "\"", v + |VAL|);
        var q := IndexOf(x, "\"", v + |VAL|).value;
        AtBounds(x, "\"", q);
        assert (x + z)[v + |VAL|..q] == x[v + |VAL|..q];
      } else if v > 0 {
        LastValKept(x, z, from, g, v - 1);
      }
    }
  }

  lemma TagEndFound(x: string)
    requires TagWhole(x) && At(x, STYLE, 0)
    ensures IndexOf(x, ">", |STYLE|).Some? && IndexOf(x, ">", |STYLE|).value < |x|
    ensures x[IndexOf(x, ">", |STYLE|).value] == '>'
  {
    AtChars(x, STYLE, 0, 0);
    var j :| 0 < j < |x| && x[j] == '>';
    if j < |STYLE| { AtChars(x, STYLE, 0, j); }
    AtOne(x, '>', j);
    AtOne(x, '>', IndexOf(x, ">", |STYLE|).value);
  }

  lemma StyleAtKept(x: string, z: string)
    requires TagWhole(x) && Quoted(x) && x != ""
    ensures StyleAt(x + z) == StyleAt(x)
  {
    hide Quoted, LastVal, TagWhole;
    OccurrencesSplit(x, z, STYLE, 0);
    if At(x, STYLE, 0) {
      TagEndFound(x);
      FirstKept(x, z, ">", |STYLE|);
      LastValKept(x, z, |STYLE|, TagEnd(x, |STYLE|), TagEnd(x, |STYLE|));
    }
  }

  lemma {:induction false} NoStyle(z: string)
    requires !Contains(z, STYLE)
    ensures Style(z) == None
    decreases |z|
  {
    if z == "" {
    } else {
      assert !At(z, STYLE, 0);
      LacksTail(z);
      NoStyle(z[1..]);
    }
  }

  lemma LacksTail(z: string)
    requires z != "" && !Contains(z, STYLE)
    ensures !Contains(z[1..], STYLE)
  {
    if Contains(z[1..], STYLE) { ContainsTail(z, STYLE); }
  }

  /** The style is decided by a start whose tags and values are complete, when nothing after it declares one. */
  lemma {:induction false} StyleKept(x: string, z: string)
    requires TagWhole(x) && Quoted(x) && !Contains(z, STYLE)
    ensures Style(x + z) == Style(x)
    decreases |x|
  {
    hide At, TagWhole, Quoted, Contains, StyleAt;
    if x == "" {
      assert x + z == z;
      NoStyle(z);
    } else {
      StyleAtKept(x, z);
      TagWholeTail(x);
      QuotedTail(x);
      assert (x + z)[1..] == x[1..] + z;
      StyleKept(x[1..], z);
    }
  }

  // ---------------------------------------------------- the new paragraph's shape

  /** The trimmed tag of an empty paragraph is again a start tag and not an empty one. */
  predicate TrimsClean(p: Piece) {
    p.Closed? ==> |p.tag| >= 3 && p.tag[|p.tag| - 3] != '/'
  }

  predicate OneLt(t: string) {
    forall k :: 1 <= k < |t| ==> t[k] != '<'
  }

  lemma TrimmedTag(tag: string)
    requires OneTag(tag) && tag[|tag| - 2] == '/' && tag[|tag| - 3] != '/'
    ensures |tag| >= 6 && TrimTag(tag) == tag[..|tag| - 2] && OneTag(TrimTag(tag) + ">")
  {
    var n := |tag|;
    assert tag[n - 2..] == "/>";
    var t := tag[..n - 2] + ">";
    POpenPrefix(tag);
    assert n >= 6;
    if n == 6 {
      assert t[0..5] == tag[..4] + ">";
    } else {
      assert t[0..5] == tag[0..5];
    }
  }

  lemma POpenPrefix(s: string)
    requires POpen(s, 0)
    ensures |s| >= 5 && s[..4] == "<w:p" && s[3] == 'p' && (s[4] == ' ' || s[4] == '>' || s[4] == '/')
  {
    assert s[0..5][..4] == s[..4];
    assert s[0..5][3] == s[3] && s[0..5][4] == s[4];
  }

  lemma RewriteOk(p: Piece, text: string)
    requires PieceOk(p) && TrimsClean(p)
    ensures PieceOk(Rewrite(p, text))
  {
    hide At, OneTag, Contains, Foreign, Runs, PPr, RPr;
    StructureForeign();
    match p
    case Closed(tag) =>
      assert |tag| >= 5 by { TagLength(tag); }
      TrimmedTag(tag);
      SilentPlain("", CLOSE_P);
      ForeignIsPattern(CLOSE_P);
      SilentRuns(text, "", CLOSE_P);
      var t := TrimTag(tag) + ">";
      assert t[|t| - 2] == tag[|tag| - 3];
    case Full(open, inner) =>
      KeptSilent(inner, CLOSE_P);
      NewInnerSilent(inner, text, CLOSE_P);
  }

  lemma TagLength(t: string)
    requires OneTag(t)
    ensures |t| >= 5
  {
  }

  lemma ForeignIsPattern(p: string)
    requires Foreign(p)
    ensures TagPattern(p)
  {
  }
}
