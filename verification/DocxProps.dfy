/** Properties that are found again in what is written from them. */
module DocxProps {
  import opened Prelude
  import opened Strings
  import opened Markup
  import opened DocxText
  import opened DocxScan
  import opened DocxParts
  import opened DocxStyle

  /** Properties that end where they end, whatever follows: absent, a bare empty tag, or closed by their own tag. */
  predicate Solid(props: string, name: string) {
    || props == "" || props == SelfCloser(name)
    || (ElementAt(props, name).Some? && ElementAt(props, name).value.Whole? && ElementAt(props, name).value.len == |props|)
  }

  ghost predicate NoRun(s: string) {
    forall j: int :: !Starts(s, RUN, j)
  }

  /** No start tag of a run is directly followed by the start of run properties. */
  ghost predicate Bare(s: string) {
    forall j: nat :: j <= |s| && StartTag(s[j..], RUN).Some? ==> !Starts(s, RUN_PROPS, j + StartTag(s[j..], RUN).value)
  }

  /** A paragraph whose tag is one tag, whose own properties hold no run, and whose kept properties are solid. */
  ghost predicate Tidy(p: Piece) {
    p.Full? ==>
      && OneLt(p.open)
      && Solid(PPr(p.inner), PARA_PROPS) && NoRun(PPr(p.inner))
      && if RPr(p.inner) == "" then Bare(p.inner) else Solid(RPr(p.inner), RUN_PROPS)
  }

  lemma Differ(s: string, p: string, q: string, k: nat)
    requires k < |p| && k < |q| && p[k] != q[k]
    ensures !(At(s, p, 0) && At(s, q, 0))
  {
    if At(s, p, 0) && At(s, q, 0) {
      AtChars(s, p, 0, k);
      AtChars(s, q, 0, k);
    }
  }

  lemma SolidKept(e: string, name: string, y: string)
    requires Solid(e, name) && e != ""
    ensures ElementAt(e + y, name).Some? && ElementAt(e + y, name).value.len == |e|
  {
    hide At, IndexOf;
    if e == SelfCloser(name) {
      AtWhole(e, y);
      Differ(e + y, SelfCloser(name), Opener(name), |name| + 1);
      Differ(e + y, SelfCloser(name), OpenerSpaced(name), |name| + 1);
    } else {
      StartTagKept(e, y, name);
      FirstKept(e, y, Closer(name), StartTag(e, name).value);
    }
  }

  lemma PPrKept(props: string, y: string)
    requires Solid(props, PARA_PROPS) && (props == "" ==> !Starts(y, PARA_PROPS, 0))
    ensures PPr(props + y) == props
  {
    hide ElementAt, Solid;
    if props == "" {
      assert "" + y == y;
      NoStartNoElement(y, PARA_PROPS);
    } else {
      SolidKept(props, PARA_PROPS, y);
      assert (props + y)[..|props|] == props;
    }
  }

  lemma {:induction false} RPrAt(s: string, j: nat, r: string)
    requires j < |s| && (forall i: nat :: i < j ==> RunPrAt(s[i..]) == None) && RunPrAt(s[j..]) == Some(r)
    ensures RPr(s) == r
    decreases j
  {
    hide RunPrAt;
    assert s[0..] == s;
    if j == 0 {
    } else {
      forall i: nat | i < j - 1 ensures RunPrAt(s[1..][i..]) == None { assert s[1..][i..] == s[i + 1..]; }
      assert s[1..][j - 1..] == s[j..];
      RPrAt(s[1..], j - 1, r);
    }
  }

  lemma {:induction false} RPrNone(s: string)
    requires forall i: nat :: i < |s| ==> RunPrAt(s[i..]) == None
    ensures RPr(s) == ""
    decreases |s|
  {
    hide RunPrAt;
    assert s[0..] == s;
    if s == "" {
    } else {
      forall i: nat | i < |s[1..]| ensures RunPrAt(s[1..][i..]) == None { assert s[1..][i..] == s[i + 1..]; }
      RPrNone(s[1..]);
    }
  }

  lemma NoTagNoProps(s: string, i: nat)
    requires i <= |s| && !Starts(s, RUN, i)
    ensures StartTag(s[i..], RUN) == None && RunPrAt(s[i..]) == None
  {
    hide At, IndexOf;
    AtSlice(s, Opener(RUN), i, 0);
    AtSlice(s, OpenerSpaced(RUN), i, 0);
  }

  lemma BareNone(s: string)
    requires Bare(s)
    ensures RPr(s) == ""
  {
    forall i: nat | i < |s| ensures RunPrAt(s[i..]) == None { BareAt(s, i); }
    RPrNone(s);
  }

  lemma BareAt(s: string, i: nat)
    requires Bare(s) && i <= |s|
    ensures RunPrAt(s[i..]) == None
  {
    hide At, ElementAt, StartTag;
    match StartTag(s[i..], RUN)
    case None =>
    case Some(o) =>
      assert s[i..][o..] == s[i + o..];
      StartsSlice(s, RUN_PROPS, i + o);
      NoStartNoElement(s[i + o..], RUN_PROPS);
  }

  lemma StartsSlice(s: string, name: string, i: nat)
    requires i <= |s|
    ensures Starts(s[i..], name, 0) <==> Starts(s, name, i)
  {
    hide At;
    AtSlice(s, Opener(name), i, 0);
    AtSlice(s, OpenerSpaced(name), i, 0);
    AtSlice(s, SelfCloser(name), i, 0);
  }

  lemma StartsSplit(a: string, b: string, name: string, i: int)
    requires TagWhole(a) && NameText(name)
    ensures Starts(a + b, name, i) <==> Starts(a, name, i) || Starts(b, name, i - |a|)
  {
    hide At, TagWhole, TagPattern;
    NamePatterns(name);
    OccurrencesSplit(a, b, Opener(name), i);
    OccurrencesSplit(a, b, OpenerSpaced(name), i);
    OccurrencesSplit(a, b, SelfCloser(name), i);
  }

  lemma Names()
    ensures NameText(RUN) && NameText(RUN_PROPS) && NameText(PARA_PROPS)
  {
  }

  lemma OpenRunTag(y: string)
    ensures StartTag(OPEN_RUN + y, RUN) == Some(5)
  {
    assert Opener(RUN) == OPEN_RUN;
    AtWhole(OPEN_RUN, y);
  }

  /** Run properties behind a prefix without runs are the first ones. */
  lemma RPrBehind(a: string, w: string)
    requires TagWhole(a) && NoRun(a) && ElementAt(w, RUN_PROPS).Some?
    ensures RPr(a + (OPEN_RUN + w)) == w[..ElementAt(w, RUN_PROPS).value.len]
  {
    hide At, TagWhole, ElementAt, StartTag, Starts;
    var s := a + (OPEN_RUN + w);
    Names();
    forall i: nat | i < |a| ensures RunPrAt(s[i..]) == None {
      StartsSplit(a, OPEN_RUN + w, RUN, i);
      NothingBefore(OPEN_RUN + w, RUN, i - |a|);
      NoTagNoProps(s, i);
    }
    assert s[|a|..] == OPEN_RUN + w;
    OpenRunTag(w);
    assert (OPEN_RUN + w)[5..] == w;
    var n := ElementAt(w, RUN_PROPS).value.len;
    assert (OPEN_RUN + w)[5..5 + n] == w[..n];
    RPrAt(s, |a|, w[..n]);
  }

  lemma RPrFirst(a: string, r: string, y: string)
    requires TagWhole(a) && NoRun(a) && r != "" && Solid(r, RUN_PROPS)
    ensures RPr(a + (OPEN_RUN + (r + y))) == r
  {
    hide TagWhole, NoRun, ElementAt, Solid;
    SolidKept(r, RUN_PROPS, y);
    RPrBehind(a, r + y);
  }

  lemma NothingBefore(s: string, name: string, i: int)
    requires i < 0
    ensures !Starts(s, name, i)
  {
  }

  /** Where the run properties are: behind a run's tag. */
  lemma {:induction false} RPrWhere(s: string) returns (j: nat)
    requires RPr(s) != ""
    ensures j < |s| && Starts(s, RUN, j) && j + 5 + |RPr(s)| <= |s|
    decreases |s|
  {
    hide At, IndexOf, ElementAt;
    match RunPrAt(s)
    case Some(r) =>
      j := 0;
    case None =>
      var i := RPrWhere(s[1..]);
      j := i + 1;
      assert s[1..][i..] == s[j..];
      StartsSlice(s[1..], RUN, i);
      StartsSlice(s, RUN, j);
  }

  lemma RPrRoom(inner: string)
    requires NoRun(PPr(inner)) && RPr(inner) != ""
    ensures |PPr(inner)| + 5 + |RPr(inner)| <= |inner|
  {
    hide At, RPr, PPr, Starts, TagWhole;
    var j := RPrWhere(inner);
    var a := PPr(inner);
    Names();
    assert inner == a + inner[|a|..];
    StartsSplit(a, inner[|a|..], RUN, j);
    if j < |a| { NothingBefore(inner[|a|..], RUN, j - |a|); }
  }

  // ---------------------------------------------------------------------- without run properties

  lemma BareNoRun(s: string)
    requires NoRun(s)
    ensures Bare(s)
  {
    hide Starts, StartTag;
    forall j: nat | j <= |s| ensures StartTag(s[j..], RUN) == None { NoTagNoProps(s, j); }
  }

  const PROPS_HEAD := "<w:rPr"

  lemma PropsHead(s: string, i: int)
    requires Starts(s, RUN_PROPS, i)
    ensures At(s, PROPS_HEAD, i) && 0 <= i < |s|
  {
    var p := if At(s, Opener(RUN_PROPS), i) then Opener(RUN_PROPS) else if At(s, OpenerSpaced(RUN_PROPS), i) then OpenerSpaced(RUN_PROPS) else SelfCloser(RUN_PROPS);
    assert p[..6] == PROPS_HEAD;
    assert s[i..i + |p|][..6] == s[i..i + 6];
  }

  lemma BareSilent(s: string)
    requires !Contains(s, PROPS_HEAD)
    ensures Bare(s)
  {
    hide Starts, StartTag, At;
    forall i: int ensures !Starts(s, RUN_PROPS, i) {
      if Starts(s, RUN_PROPS, i) { PropsHead(s, i); }
    }
  }

  lemma StartTagPrefix(s: string, n: nat, name: string)
    requires n <= |s| && StartTag(s[..n], name).Some?
    ensures StartTag(s, name) == StartTag(s[..n], name)
  {
    hide StartTag;
    StartTagKept(s[..n], s[n..], name);
    assert s[..n] + s[n..] == s;
  }

  lemma BarePrefix(s: string, n: nat)
    requires n <= |s| && Bare(s)
    ensures Bare(s[..n])
  {
    hide StartTag, Starts;
    var x := s[..n];
    forall j: nat | j <= n && StartTag(x[j..], RUN).Some? ensures !Starts(x, RUN_PROPS, j + StartTag(x[j..], RUN).value) {
      assert x[j..] == s[j..][..n - j];
      StartTagPrefix(s[j..], n - j, RUN);
      var k := j + StartTag(x[j..], RUN).value;
      if Starts(x, RUN_PROPS, k) { StartsPrefix(s, n, RUN_PROPS, k); }
    }
  }

  lemma StartsPrefix(s: string, n: nat, name: string, i: int)
    requires n <= |s| && Starts(s[..n], name, i)
    ensures Starts(s, name, i)
  {
    hide At;
    assert s == s[..n] + s[n..];
    LeftStarts(s[..n], s[n..], name, i);
  }

  lemma LeftStarts(a: string, b: string, name: string, i: int)
    requires Starts(a, name, i)
    ensures Starts(a + b, name, i)
  {
    if At(a, Opener(name), i) { AtLeft(a, b, Opener(name), i); }
    else if At(a, OpenerSpaced(name), i) { AtLeft(a, b, OpenerSpaced(name), i); }
    else { AtLeft(a, b, SelfCloser(name), i); }
  }

  /** A start tag that begins in whole tags ends there. */
  lemma StartTagInside(a: string, b: string, name: string)
    requires a != "" && TagWhole(a) && NameText(name) && StartTag(a + b, name).Some?
    ensures StartTag(a, name) == StartTag(a + b, name)
  {
    hide IndexOf;
    var s := a + b;
    NamePatterns(name);
    OccurrencesSplit(a, b, Opener(name), 0);
    OccurrencesSplit(a, b, OpenerSpaced(name), 0);
    if !At(s, Opener(name), 0) {
      AtChars(a, OpenerSpaced(name), 0, 0);
      var j :| 0 < j < |a| && a[j] == '>';
      if j < |name| + 2 {
        AtChars(a, OpenerSpaced(name), 0, j);
      }
      assert a[j..j + 1] == ">" && At(a, ">", j);
      FirstKept(a, b, ">", |name| + 2);
    }
  }

  lemma TagWholeDrop(s: string, j: nat)
    requires TagWhole(s) && j <= |s|
    ensures TagWhole(s[j..])
  {
    forall i | 0 <= i < |s[j..]| && s[j..][i] == '<' ensures exists k :: i < k < |s[j..]| && s[j..][k] == '>' {
      var k :| i + j < k < |s| && s[k] == '>';
      assert s[j..][k - j] == '>';
    }
  }

  lemma BareConcat(a: string, b: string)
    requires Bare(a) && Bare(b) && TagWhole(a) && !Starts(b, RUN_PROPS, 0)
    ensures Bare(a + b)
  {
    hide StartTag, Starts, TagWhole;
    var s := a + b;
    forall j: nat | j <= |s| && StartTag(s[j..], RUN).Some? ensures !Starts(s, RUN_PROPS, j + StartTag(s[j..], RUN).value) {
      BareAcross(a, b, j);
    }
  }

  lemma BareAcross(a: string, b: string, j: nat)
    requires Bare(a) && Bare(b) && TagWhole(a) && !Starts(b, RUN_PROPS, 0)
    requires j <= |a + b| && StartTag((a + b)[j..], RUN).Some?
    ensures !Starts(a + b, RUN_PROPS, j + StartTag((a + b)[j..], RUN).value)
  {
    hide StartTag, Starts, TagWhole;
    var s := a + b;
    var k := j + StartTag(s[j..], RUN).value;
    Names();
    StartsSplit(a, b, RUN_PROPS, k);
    if j < |a| {
      assert s[j..] == a[j..] + b;
      TagWholeDrop(a, j);
      StartTagInside(a[j..], b, RUN);
      if k < |a| { NothingBefore(b, RUN_PROPS, k - |a|); }
    } else {
      assert s[j..] == b[j - |a|..];
      PastEnd(a, RUN_PROPS, k);
    }
  }

  lemma PastEnd(s: string, name: string, i: int)
    requires i >= |s|
    ensures !Starts(s, name, i)
  {
  }

  /** A tag of its own in front brings no run in. */
  lemma BareTagFront(open: string, x: string)
    requires OneTag(open) && OneLt(open) && Bare(x)
    ensures Bare(open + x) && TagWhole(open)
  {
    hide StartTag, At, IndexOf;
    EndsWithTagWhole(open);
    POpenPrefix(open);
    var s := open + x;
    forall j: nat | j <= |s| && StartTag(s[j..], RUN).Some? ensures !Starts(s, RUN_PROPS, j + StartTag(s[j..], RUN).value) {
      if j < |open| {
        NoRunInTag(open, x, j);
        NoTagNoProps(s, j);
      } else {
        assert s[j..] == x[j - |open|..];
        StartsRight(open, x, RUN_PROPS, j + StartTag(s[j..], RUN).value);
      }
    }
  }

  lemma NoRunInTag(open: string, x: string, j: nat)
    requires OneTag(open) && OneLt(open) && j < |open|
    ensures !Starts(open + x, RUN, j)
  {
    POpenPrefix(open);
    var s := open + x;
    forall p | p == Opener(RUN) || p == OpenerSpaced(RUN) || p == SelfCloser(RUN) ensures !At(s, p, j) {
      assert p[0] == '<' && p[3] == 'r';
      if At(s, p, j) {
        AtChars(s, p, j, 0);
        AtChars(s, p, j, 3);
      }
    }
  }

  lemma StartsRight(a: string, b: string, name: string, i: int)
    requires |a| <= i
    ensures Starts(a + b, name, i) <==> Starts(b, name, i - |a|)
  {
    hide At;
    AtRight(a, b, Opener(name), i);
    AtRight(a, b, OpenerSpaced(name), i);
    AtRight(a, b, SelfCloser(name), i);
  }

  // ------------------------------------------------------------- what a rewrite leaves to be found

  lemma HeadForeign()
    ensures Foreign(PROPS_HEAD)
  {
    ForeignIf(PROPS_HEAD, 4, 3, 1, 3, 3, 1);
  }

  lemma RunsBare(text: string)
    ensures Bare(Runs(text, "")) && TagWhole(Runs(text, "")) && !Starts(Runs(text, ""), RUN_PROPS, 0)
  {
    hide Foreign, Runs, Starts;
    HeadForeign();
    ForeignIsPattern(PROPS_HEAD);
    SilentPlain("", PROPS_HEAD);
    SilentRuns(text, "", PROPS_HEAD);
    BareSilent(Runs(text, ""));
    if Starts(Runs(text, ""), RUN_PROPS, 0) { PropsHead(Runs(text, ""), 0); }
  }

  lemma RunsHead(text: string, r: string)
    ensures Runs(text, r) == OPEN_RUN + (r + (Body("", text) + CLOSE_RUN))
  {
    Assoc(OPEN_RUN, r, Body("", text));
    Assoc(OPEN_RUN, r + Body("", text), CLOSE_RUN);
    Assoc(r, Body("", text), CLOSE_RUN);
  }

  lemma NoParaProps(s: string, n: nat, y: string)
    requires s == OPEN_RUN + y && n <= |s|
    ensures !Starts(s[..n], PARA_PROPS, 0)
  {
    var x := s[..n];
    forall p | p == Opener(PARA_PROPS) || p == OpenerSpaced(PARA_PROPS) || p == SelfCloser(PARA_PROPS) ensures !At(x, p, 0) {
      assert p[3] == 'p' && OPEN_RUN[3] == 'r';
      if At(x, p, 0) { AtChars(x, p, 0, 3); }
    }
  }

  lemma NoRunProps(s: string)
    requires |s| < 4 || s[3] != 'r'
    ensures !Starts(s, RUN_PROPS, 0)
  {
    if Starts(s, RUN_PROPS, 0) {
      PropsHead(s, 0);
      AtChars(s, PROPS_HEAD, 0, 3);
    }
  }

  /** What is written for a tidy paragraph has run properties only if the paragraph had some. */
  lemma NewInnerBare(inner: string, text: string)
    requires NoRun(PPr(inner)) && RPr(inner) == ""
    ensures Bare(NewInner(inner, text)) && TagWhole(NewInner(inner, text))
  {
    hide NoRun, Bare, TagWhole, PPr, RPr, Runs, Starts;
    RunsBare(text);
    BareNoRun(PPr(inner));
    BareConcat(PPr(inner), Runs(text, ""));
    TagWholeConcat(PPr(inner), Runs(text, ""));
  }

  /** The paragraph's own properties are found again whatever follows what is written for it. */
  lemma CutOwn(p: Piece, text: string, w: string)
    requires p.Full? && Tidy(p) && |p.inner| <= |NewInner(p.inner, text) + w|
    ensures PPr((NewInner(p.inner, text) + w)[..|p.inner|]) == PPr(p.inner)
  {
    hide NoRun, Bare, TagWhole, PPr, RPr, Runs, Starts, Solid, Body, OneLt;
    var a, r := PPr(p.inner), RPr(p.inner);
    var s := NewInner(p.inner, text) + w;
    var n := |p.inner|;
    var rest := Body("", text) + CLOSE_RUN;
    RunsHead(text, r);
    var y := r + (rest + w);
    assert s == a + (OPEN_RUN + y) by { Regroup4(a, OPEN_RUN, r, rest, w); }
    assert (OPEN_RUN + y)[..n - |a|] == s[..n][|a|..] && s[..n] == a + s[..n][|a|..];
    NoParaProps(OPEN_RUN + y, n - |a|, y);
    PPrKept(a, s[..n][|a|..]);
  }

  /**
   * From what is written for a tidy paragraph, and from anything that begins so and goes on without run properties if
   * the paragraph has none, cut off where the old content ended, the kept properties are found again.
   */
  lemma CutKeeps(p: Piece, text: string, w: string)
    requires p.Full? && Tidy(p) && |p.inner| <= |NewInner(p.inner, text) + w|
    requires RPr(p.inner) == "" ==> Bare(NewInner(p.inner, text) + w)
    ensures var cut := (NewInner(p.inner, text) + w)[..|p.inner|];
      PPr(cut) == PPr(p.inner) && RPr(cut) == RPr(p.inner)
  {
    hide NoRun, Bare, TagWhole, PPr, RPr, Runs, Starts, Solid, Body, OneLt;
    var a, r := PPr(p.inner), RPr(p.inner);
    var s := NewInner(p.inner, text) + w;
    var n := |p.inner|;
    var rest := Body("", text) + CLOSE_RUN;
    RunsHead(text, r);
    CutOwn(p, text, w);
    assert s == a + (OPEN_RUN + (r + (rest + w))) by { Regroup4(a, OPEN_RUN, r, rest, w); }
    if r == "" {
      BarePrefix(s, n);
      BareNone(s[..n]);
    } else {
      RPrRoom(p.inner);
      var z := (rest + w)[..n - |a| - 5 - |r|];
      assert s[..n] == a + (OPEN_RUN + (r + z)) by { CutInside(a, OPEN_RUN, r, rest + w, n); }
      RPrFirst(a, r, z);
    }
  }

  lemma Regroup4(a: string, o: string, r: string, rest: string, w: string)
    ensures (a + (o + (r + rest))) + w == a + (o + (r + (rest + w)))
  {
    Assoc(a, o + (r + rest), w);
    Assoc(o, r + rest, w);
    Assoc(r, rest, w);
  }

  lemma CutInside(a: string, o: string, r: string, z: string, n: nat)
    requires |a| + |o| + |r| <= n <= |a + (o + (r + z))|
    ensures (a + (o + (r + z)))[..n] == a + (o + (r + z[..n - |a| - |o| - |r|]))
  {
  }

  lemma WrittenKeeps(p: Piece, text: string)
    requires p.Full? && Tidy(p)
    ensures var x := NewInner(p.inner, text); PPr(x) == PPr(p.inner) && RPr(x) == RPr(p.inner)
  {
    hide NoRun, Bare, TagWhole, PPr, RPr, Runs, Starts, Solid, Body, OneLt;
    var a, r := PPr(p.inner), RPr(p.inner);
    var x := NewInner(p.inner, text);
    RunsHead(text, r);
    var y := r + (Body("", text) + CLOSE_RUN);
    NoParaProps(OPEN_RUN + y, |OPEN_RUN + y|, y);
    assert (OPEN_RUN + y)[..|OPEN_RUN + y|] == OPEN_RUN + y;
    PPrKept(a, OPEN_RUN + y);
    if r == "" {
      NewInnerBare(p.inner, text);
      BareNone(x);
    } else {
      RPrFirst(a, r, Body("", text) + CLOSE_RUN);
    }
  }

  lemma RunsKeep(text: string)
    ensures PPr(Runs(text, "")) == "" && RPr(Runs(text, "")) == ""
  {
    hide Bare, PPr, RPr, Runs, Starts, Body, TagWhole;
    RunsBare(text);
    BareNone(Runs(text, ""));
    RunsHead(text, "");
    var s, y := Runs(text, ""), "" + (Body("", text) + CLOSE_RUN);
    NoParaProps(s, |s|, y);
    assert s[..|s|] == s && "" + s == s;
    PPrKept("", s);
  }

  /** Rewriting a rewritten tidy paragraph is rewriting the paragraph. */
  lemma RewriteTwice(p: Piece, text: string, again: string)
    requires Tidy(p)
    ensures Rewrite(Rewrite(p, text), again) == Rewrite(p, again)
  {
    hide Tidy, PPr, RPr, Runs;
    match p
    case Closed(_) =>
      RunsKeep(text);
      assert "" + Runs(again, "") == Runs(again, "");
    case Full(_, _) => WrittenKeeps(p, text);
  }
}
