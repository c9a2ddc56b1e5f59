/** What a reader sees. */
module DocxReading {
  import opened Prelude
  import opened Strings
  import opened Markup
  import opened DocxText
  import opened DocxScan
  import opened DocxParas
  import opened DocxParts
  import opened DocxStyle
  import opened DocxProps
  import opened DocxEdits
  import opened DocxApply
  import opened DocxExtract

  // --------------------------------------------------------------------- entities

  /** The five entities read as their characters, and every other character as itself. */
  lemma UnescapeReads(z: string, c: char)
    ensures Unescape("") == ""
    ensures Unescape("&lt;" + z) == "<" + Unescape(z)
    ensures Unescape("&gt;" + z) == ">" + Unescape(z)
    ensures Unescape("&quot;" + z) == "\"" + Unescape(z)
    ensures Unescape("&apos;" + z) == "'" + Unescape(z)
    ensures Unescape("&amp;" + z) == "&" + Unescape(z)
    ensures c != '&' ==> Unescape([c] + z) == [c] + Unescape(z)
    ensures !("lt;" <= z || "gt;" <= z || "quot;" <= z || "apos;" <= z || "amp;" <= z) ==> Unescape("&" + z) == "&" + Unescape(z)
  {
    hide Unescape, Entity;
    UnescapeNothing();
    EntityReads("&lt;", '<', z);
    EntityReads("&gt;", '>', z);
    EntityReads("&quot;", '"', z);
    EntityReads("&apos;", '\'', z);
    EntityReads("&amp;", '&', z);
    if c != '&' { PlainReads(c, z); }
    if !("lt;" <= z || "gt;" <= z || "quot;" <= z || "apos;" <= z || "amp;" <= z) { AmpersandReads(z); }
  }

  lemma UnescapeNothing()
    ensures Unescape("") == ""
  {
  }

  lemma EntityReads(e: string, c: char, z: string)
    requires (e == "&lt;" && c == '<') || (e == "&gt;" && c == '>') || (e == "&quot;" && c == '"') || (e == "&apos;" && c == '\'') || (e == "&amp;" && c == '&')
    ensures Unescape(e + z) == [c] + Unescape(z)
  {
    var s := e + z;
    assert s[..|e|] == e && s[|e|..] == z;
    assert s[1] == e[1] && s[2] == e[2];
    assert Entity(s) == (c, |e|);
  }

  lemma PlainReads(c: char, z: string)
    requires c != '&'
    ensures Unescape([c] + z) == [c] + Unescape(z)
  {
    var s := [c] + z;
    assert s[0] == c && s[1..] == z;
    assert Entity(s) == (c, 1);
  }

  lemma AmpersandReads(z: string)
    requires !("lt;" <= z || "gt;" <= z || "quot;" <= z || "apos;" <= z || "amp;" <= z)
    ensures Unescape("&" + z) == "&" + Unescape(z)
  {
    var s := "&" + z;
    assert s[1..] == z;
    Behind("lt;", z);
    Behind("gt;", z);
    Behind("quot;", z);
    Behind("apos;", z);
    Behind("amp;", z);
    assert "&" + "lt;" == "&lt;" && "&" + "gt;" == "&gt;" && "&" + "quot;" == "&quot;" && "&" + "apos;" == "&apos;" && "&" + "amp;" == "&amp;";
    assert Entity(s) == ('&', 1);
  }

  lemma Behind(e: string, z: string)
    ensures "&" + e <= "&" + z <==> e <= z
  {
    assert ("&" + e)[1..] == e && ("&" + z)[1..] == z;
    if "&" + e <= "&" + z {
      assert forall k :: 0 <= k < |e| ==> e[k] == ("&" + e)[k + 1] == ("&" + z)[k + 1] == z[k];
    }
  }

  // ----------------------------------------------------------------------- tokens

  /** Any start tag of a text element, with or without attributes. */
  predicate TextTag(tag: string) {
    tag == "<w:t>" || SpacedTag(tag, "<w:t ")
  }

  /** A tag that begins with `head` and ends at its first bracket. */
  predicate SpacedTag(tag: string, head: string) {
    head < tag && tag[|tag| - 1] == '>' && forall k :: |head| <= k < |tag| - 1 ==> tag[k] != '>'
  }

  /** A piece of a paragraph's content. */
  datatype Item =
    | Words(tag: string, words: string)
    | NoWords
    | EmptyWords(tag: string)
    | Tab
    | LineBreak
    | CarriageReturn
    | Other(markup: string)

  function Spelling(i: Item): string {
    match i
    case Words(tag, words) => tag + (words + "</w:t>")
    case NoWords => "<w:t/>"
    case EmptyWords(tag) => tag
    case Tab => "<w:tab/>"
    case LineBreak => "<w:br/>"
    case CarriageReturn => "<w:cr/>"
    case Other(markup) => markup
  }

  /** What a reader sees of it. */
  function Meaning(i: Item): string {
    match i
    case Words(_, words) => Unescape(words)
    case Tab => "\t"
    case LineBreak => "\n"
    case CarriageReturn => "\n"
    case _ => ""
  }

  /**
   * The piece stands for itself in front of z: the words end at their own closing tag, an empty tag with attributes
   * is not taken for a start tag, and other markup has whole tags and no text token.
   */
  ghost predicate Plain(i: Item, z: string) {
    match i
    case Words(tag, words) => TextTag(tag) && !Contains(words, "</w:t>")
    case EmptyWords(tag) => SpacedTag(tag, "<w:t ") && tag[|tag| - 2] == '/' && |tag| >= 7 && !Contains(z, "</w:t>")
    case Other(markup) => TagWhole(markup) && TokenFree(markup)
    case _ => true
  }

  function Spelled(items: seq<Item>): string {
    if items == [] then "" else Spelling(items[0]) + Spelled(items[1..])
  }

  function Meant(items: seq<Item>): string {
    if items == [] then "" else Meaning(items[0]) + Meant(items[1..])
  }

  ghost predicate AllPlain(items: seq<Item>, z: string) {
    items != [] ==> Plain(items[0], Spelled(items[1..]) + z) && AllPlain(items[1..], z)
  }

  /** Any start tag of the element, with or without attributes. */
  predicate StartsElement(tag: string, name: string) {
    tag == Opener(name) || SpacedTag(tag, OpenerSpaced(name))
  }

  lemma ElementStarts(tag: string, name: string, z: string)
    requires StartsElement(tag, name)
    ensures StartTag(tag + z, name) == Some(|tag|)
  {
    var s, n := tag + z, |name| + 2;
    if tag == Opener(name) {
      assert s[0..n] == tag;
    } else {
      assert s[0..n] == tag[..n] == OpenerSpaced(name);
      assert s[n - 1] == ' ';
      if At(s, Opener(name), 0) { AtChars(s, Opener(name), 0, n - 1); }
      FirstBracket(tag, z, n);
    }
  }

  lemma FirstBracket(tag: string, z: string, from: nat)
    requires from < |tag| && tag[|tag| - 1] == '>' && forall k :: from <= k < |tag| - 1 ==> tag[k] != '>'
    ensures IndexOf(tag + z, ">", from) == Some(|tag| - 1)
  {
    var s := tag + z;
    forall j: nat | from <= j <= |tag| - 1 ensures At(s, ">", j) <==> j == |tag| - 1 {
      AtOne(s, '>', j);
      assert s[j] == tag[j];
    }
    IndexOfIs(s, ">", from, |tag| - 1);
  }

  /** A closing tag: it begins no other one inside itself. */
  predicate Closing(c: string) {
    c != "" && c[0] == '<' && forall k :: 1 <= k < |c| ==> c[k] != '<'
  }

  /** Content ends at the first closing tag behind it. */
  lemma ContentStops(tag: string, words: string, c: string, z: string)
    requires Closing(c) && !Contains(words, c)
    ensures IndexOf(tag + (words + (c + z)), c, |tag|) == Some(|tag| + |words|)
  {
    hide At, Contains, Closing;
    var y := words + (c + z);
    forall j: nat | j <= |words| ensures At(y, c, j) <==> j == |words| {
      StopsThere(words, c, z, j);
    }
    IndexOfIs(y, c, 0, |words|);
    IndexOfShift(tag, y, c, 0);
  }

  lemma StopsThere(words: string, c: string, z: string, j: nat)
    requires Closing(c) && !Contains(words, c) && j <= |words|
    ensures At(words + (c + z), c, j) <==> j == |words|
  {
    var y := words + (c + z);
    assert y[|words|] == '<';
    if j == |words| {
      AtWhole(c, z);
      AtRight(words, c + z, c, j);
    } else if j + |c| <= |words| {
      AtLeft(words, c + z, c, j);
    } else if At(y, c, j) {
      AtChars(y, c, j, |words| - j);
    }
  }

  /** An element is found as a whole wherever its start tag stands, up to its own closing tag. */
  lemma ElementReads(name: string, tag: string, words: string, z: string)
    requires NameText(name) && StartsElement(tag, name) && !Contains(words, Closer(name))
    ensures ElementAt((tag + (words + Closer(name))) + z, name)
         == Some(Whole(|tag|, |tag| + |words|, |tag + (words + Closer(name))|))
  {
    hide Contains, At, StartTag, IndexOf, StartsElement;
    var c := Closer(name);
    Assoc(tag, words + c, z);
    Assoc(words, c, z);
    ElementStarts(tag, name, words + (c + z));
    assert Closing(c);
    ContentStops(tag, words, c, z);
  }

  lemma WordsToken(tag: string, words: string, z: string)
    requires TextTag(tag) && !Contains(words, "</w:t>")
    ensures Token((tag + (words + "</w:t>")) + z) == Some((Unescape(words), |tag + (words + "</w:t>")|))
  {
    hide Contains, At, Unescape, ElementAt;
    TextNames();
    ElementReads(TEXT, tag, words, z);
    Assoc(tag, words + "</w:t>", z);
    Assoc(words, "</w:t>", z);
    MiddleSlice(tag, words, "</w:t>" + z);
  }

  lemma TextNames()
    ensures NameText(TEXT) && Closer(TEXT) == "</w:t>" && Opener(TEXT) == "<w:t>" && OpenerSpaced(TEXT) == "<w:t "
  {
  }

  lemma EmptyToken(tag: string, z: string)
    requires tag == "<w:t/>" || (SpacedTag(tag, "<w:t ") && |tag| >= 7 && tag[|tag| - 2] == '/' && !Contains(z, "</w:t>"))
    ensures Token(tag + z) == Some(("", |tag|))
  {
    var s := tag + z;
    TextNames();
    if tag == "<w:t/>" {
      assert s[..6] == tag && s[4] == '/';
      assert At(s, SelfCloser(TEXT), 0);
      if At(s, Opener(TEXT), 0) { AtChars(s, Opener(TEXT), 0, 4); }
      if At(s, OpenerSpaced(TEXT), 0) { AtChars(s, OpenerSpaced(TEXT), 0, 4); }
    } else {
      TextNames();
      ElementStarts(tag, TEXT, z);
      IndexOfShift(tag, z, "</w:t>", 0);
      assert s[0..5] == tag[..5] == OpenerSpaced(TEXT);
      assert s[4] == ' ';
      if At(s, SelfCloser(TEXT), 0) { AtChars(s, SelfCloser(TEXT), 0, 4); }
      FirstBracket(tag, z, 5);
      assert s[|tag| - 2] == tag[|tag| - 2];
    }
  }

  lemma MarkReads(mark: string, c: string, z: string)
    requires (mark == "<w:tab/>" && c == "\t") || (mark == "<w:br/>" && c == "\n") || (mark == "<w:cr/>" && c == "\n")
    ensures Token(mark + z) == Some((c, |mark|))
  {
    var s := mark + z;
    AtWhole(mark, z);
    assert s[3] == mark[3] && s[4] == mark[4];
    forall p | p == Opener(TEXT) || p == OpenerSpaced(TEXT) || p == SelfCloser(TEXT) ensures !At(s, p, 0) {
      assert p[3] == 't' && p[4] != 'a';
      if At(s, p, 0) { AtChars(s, p, 0, 3); AtChars(s, p, 0, 4); }
    }
    NoStartNoElement(s, TEXT);
    if At(s, TAB, 0) { AtChars(s, TAB, 0, 3); }
    if At(s, BREAK, 0) { AtChars(s, BREAK, 0, 3); }
  }

  /** One piece is read as what it means, and reading goes on behind it. */
  lemma ReadItem(i: Item, z: string)
    requires Plain(i, z)
    ensures TextOf(Spelling(i) + z) == Meaning(i) + TextOf(z)
  {
    hide Token, TextTag, SpacedTag, Contains, TokenFree, Unescape;
    match i
    case Other(markup) => SkipTokenFree(markup, z);
    case Words(tag, words) => WordsToken(tag, words, z); TokenRead(Spelling(i), Meaning(i), z);
    case NoWords => EmptyToken("<w:t/>", z); TokenRead(Spelling(i), Meaning(i), z);
    case EmptyWords(tag) => EmptyToken(tag, z); TokenRead(Spelling(i), Meaning(i), z);
    case Tab => MarkReads("<w:tab/>", "\t", z); TokenRead(Spelling(i), Meaning(i), z);
    case LineBreak => MarkReads("<w:br/>", "\n", z); TokenRead(Spelling(i), Meaning(i), z);
    case CarriageReturn => MarkReads("<w:cr/>", "\n", z); TokenRead(Spelling(i), Meaning(i), z);
  }

  lemma TokenRead(x: string, c: string, z: string)
    requires Token(x + z) == Some((c, |x|))
    ensures TextOf(x + z) == c + TextOf(z)
  {
    assert (x + z)[|x|..] == z;
  }

  /** Content put together from any such pieces is read piece by piece. */
  lemma {:induction false} ReadItems(items: seq<Item>, z: string)
    requires AllPlain(items, z)
    ensures TextOf(Spelled(items) + z) == Meant(items) + TextOf(z)
  {
    hide Plain, Spelling, Meaning, TextOf;
    if items == [] {
      assert "" + z == z && "" + TextOf(z) == TextOf(z);
    } else {
      var x, rest := Spelling(items[0]), Spelled(items[1..]);
      ReadItem(items[0], rest + z);
      ReadItems(items[1..], z);
      Assoc(x, rest, z);
      Assoc(Meaning(items[0]), Meant(items[1..]), TextOf(z));
    }
  }

  // ------------------------------------------------------------------- properties

  /** A paragraph's own properties are those at the very start of its content. */
  lemma OwnPropertiesRead(tag: string, props: string, z: string)
    requires (tag == "<w:pPr>" || SpacedTag(tag, "<w:pPr ")) && !Contains(props, "</w:pPr>")
    ensures PPr((tag + (props + "</w:pPr>")) + z) == tag + (props + "</w:pPr>")
  {
    hide Contains, ElementAt, SpacedTag;
    PropertyNames();
    ElementReads(PARA_PROPS, tag, props, z);
  }

  lemma PropertyNames()
    ensures NameText(PARA_PROPS) && Closer(PARA_PROPS) == "</w:pPr>" && Opener(PARA_PROPS) == "<w:pPr>" && OpenerSpaced(PARA_PROPS) == "<w:pPr "
    ensures NameText(RUN_PROPS) && Closer(RUN_PROPS) == "</w:rPr>" && Opener(RUN_PROPS) == "<w:rPr>" && OpenerSpaced(RUN_PROPS) == "<w:rPr "
    ensures Opener(RUN) == "<w:r>" && OpenerSpaced(RUN) == "<w:r " && SelfCloser(RUN) == "<w:r/>"
  {
  }

  /** The properties carried over are those of the first run, when they directly follow its start tag. */
  lemma RunPropertiesRead(x: string, tag: string, props: string, z: string)
    requires TagWhole(x) && !Contains(x, "<w:r>") && !Contains(x, "<w:r ") && !Contains(x, "<w:r/>")
    requires (tag == "<w:rPr>" || SpacedTag(tag, "<w:rPr ")) && !Contains(props, "</w:rPr>")
    ensures RPr(x + ("<w:r>" + ((tag + (props + "</w:rPr>")) + z))) == tag + (props + "</w:rPr>")
  {
    hide ElementAt, SpacedTag, TagWhole;
    PropertyNames();
    forall j: int ensures !Starts(x, RUN, j) {
      assert Starts(x, RUN, j) ==> 0 <= j <= |x|;
    }
    hide Contains, At, Starts;
    ElementReads(RUN_PROPS, tag, props, z);
    var own := tag + (props + "</w:rPr>");
    RPrBehind(x, own + z);
    assert (own + z)[..|own|] == own;
  }

  // ------------------------------------------------------------------- paragraphs

  /** Text with whole tags in which no paragraph begins. */
  ghost predicate Between(gap: string) {
    TagWhole(gap) && !Contains(gap, "<w:p ") && !Contains(gap, "<w:p>") && !Contains(gap, "<w:p/")
  }

  lemma BetweenOpens(gap: string)
    ensures Between(gap) <==> TagWhole(gap) && NoPOpen(gap)
  {
    if Between(gap) {
      forall i: int ensures !POpen(gap, i) {
        if POpen(gap, i) { POpenChar(gap, i); }
      }
    }
    if NoPOpen(gap) {
      forall i | 0 <= i <= |gap| ensures !At(gap, "<w:p ", i) && !At(gap, "<w:p>", i) && !At(gap, "<w:p/", i) {
        assert !POpen(gap, i);
      }
    }
  }

  /** Attributes of a paragraph's tag, with the blank before them. */
  predicate Attributes(more: string) {
    (more == "" || more[0] == ' ') && forall k :: 0 <= k < |more| ==> more[k] != '>'
  }

  function StartOf(more: string): string { "<w:p" + (more + ">") }
  function EmptyOf(more: string): string { "<w:p" + (more + "/>") }

  lemma StartIsTag(more: string)
    requires Attributes(more)
    ensures OneTag(StartOf(more)) && StartOf(more)[|StartOf(more)| - 2] == if more == "" then 'p' else more[|more| - 1]
  {
    var t := StartOf(more);
    assert t[..4] == "<w:p" && t[4] == (if more == "" then '>' else ' ');
    assert t[0..5] == if more == "" then "<w:p>" else "<w:p ";
    assert forall k :: 4 <= k < |t| - 1 ==> t[k] == more[k - 4];
  }

  lemma EmptyIsTag(more: string)
    requires Attributes(more)
    ensures OneTag(EmptyOf(more)) && EmptyOf(more)[|EmptyOf(more)| - 2] == '/'
  {
    var t := EmptyOf(more);
    assert t[..4] == "<w:p" && t[4] == (if more == "" then '/' else ' ');
    assert t[0..5] == if more == "" then "<w:p/" else "<w:p ";
    assert forall k :: 4 <= k < |t| - 2 ==> t[k] == more[k - 4];
  }

  /** A document: text between paragraphs, and paragraphs with or without content. */
  datatype Story =
    | End(gap: string)
    | Para(gap: string, more: string, items: seq<Item>, rest: Story)
    | Empty(gap: string, more: string, rest: Story)

  function Written(s: Story): string {
    match s
    case End(gap) => gap
    case Para(gap, more, items, rest) => gap + ((StartOf(more) + (Spelled(items) + "</w:p>")) + Written(rest))
    case Empty(gap, more, rest) => gap + (EmptyOf(more) + Written(rest))
  }

  ghost predicate WellWritten(s: Story) {
    match s
    case End(gap) => Between(gap)
    case Para(gap, more, items, rest) =>
      && Between(gap) && Attributes(more) && (more == "" || more[|more| - 1] != '/')
      && AllPlain(items, "") && !Contains(Spelled(items), "</w:p>") && WellWritten(rest)
    case Empty(gap, more, rest) => Between(gap) && Attributes(more) && WellWritten(rest)
  }

  /** The texts of the paragraphs, in order. */
  function Texts(s: Story): seq<string> {
    match s
    case End(_) => []
    case Para(_, _, items, rest) => [Meant(items)] + Texts(rest)
    case Empty(_, _, rest) => [""] + Texts(rest)
  }

  lemma ScansNothing(gap: string)
    requires Between(gap)
    ensures Segment(gap) == Tail(gap)
  {
    hide FirstPara;
    BetweenOpens(gap);
    SegmentGap(gap, "");
    SegmentStep("");
    NothingFirst();
    assert gap + "" == gap;
  }

  lemma NothingFirst()
    ensures FirstPara("") == None
  {
  }

  /** A paragraph is scanned where it is written. */
  lemma Scans(gap: string, p: Piece, z: string)
    requires Between(gap) && PieceOk(p)
    ensures Segment(gap + (PieceText(p) + z)) == Seg(gap, p, Segment(z))
  {
    hide Segment, PieceText, PieceOk, Between;
    BetweenOpens(gap);
    SegmentGap(gap, PieceText(p) + z);
    SegmentPiece(p, z);
    assert gap + "" == gap;
  }

  /** Extraction lists exactly the paragraphs written, each with the text that its content means. */
  lemma {:induction false} ReadsDocument(s: Story, depth: int)
    requires WellWritten(s)
    ensures var ps := Listing(Segment(Written(s)), depth);
      |ps| == |Texts(s)| && forall k :: 0 <= k < |ps| ==> ps[k].text == Texts(s)[k]
    decreases s
  {
    hide Segment, Between, Attributes, PieceText, OneTag, AllPlain, Contains, Spelled, Meant, Depth, StartOf, EmptyOf, Style, HasNonText, TextOf;
    match s
    case End(gap) => ScansNothing(gap);
    case Para(gap, more, items, rest) =>
      StartIsTag(more);
      var p := Full(StartOf(more), Spelled(items));
      assert PieceOk(p);
      assert PieceText(p) == StartOf(more) + (Spelled(items) + "</w:p>") by { PieceIs(p); }
      Scans(gap, p, Written(rest));
      ReadItems(items, "");
      assert Spelled(items) + "" == Spelled(items) && Meant(items) + TextOf("") == Meant(items) by { ReadsNothing(); }
      ReadsDocument(rest, depth + Depth(gap) + Depth(PieceText(p)));
    case Empty(gap, more, rest) =>
      EmptyIsTag(more);
      var p := Closed(EmptyOf(more));
      assert PieceText(p) == EmptyOf(more) by { PieceIs(p); }
      Scans(gap, p, Written(rest));
      ReadsDocument(rest, depth + Depth(gap) + Depth(PieceText(p)));
  }

  lemma PieceIs(p: Piece)
    ensures PieceText(p) == match p case Closed(tag) => tag case Full(open, inner) => open + (inner + "</w:p>")
  {
  }

  lemma ReadsNothing()
    ensures TextOf("") == ""
  {
  }

  // ----------------------------------------------------------- style, tables, markers

  /** The style is the value that the first style tag gives. */
  lemma StyleReads(x: string, attrs: string, v: string, z: string)
    requires TagWhole(x) && !Contains(x, "<w:pStyle ")
    requires (forall k :: 0 <= k < |attrs| ==> attrs[k] != '>') && (forall k :: 0 <= k < |v| ==> v[k] != '"')
    requires !Contains(v + "\"/>", "w:val=\"")
    ensures Style(x + ("<w:pStyle " + (attrs + ("w:val=\"" + (v + ("\"/>" + z)))))) == Some(v)
  {
    hide StyleAt, Contains, TagWhole;
    var s := "<w:pStyle " + (attrs + ("w:val=\"" + (v + ("\"/>" + z))));
    StyleHere(attrs, v, z);
    SkipStyleless(x, s);
  }

  lemma {:induction false} SkipStyleless(x: string, s: string)
    requires TagWhole(x) && !Contains(x, STYLE) && s != "" && StyleAt(s).Some?
    ensures Style(x + s) == StyleAt(s)
    decreases |x|
  {
    hide StyleAt, TagWhole;
    if x == "" {
      assert x + s == s;
    } else {
      NotHere(x, s);
      assert (x + s)[1..] == x[1..] + s;
      TagWholeTail(x);
      LacksTail(x);
      SkipStyleless(x[1..], s);
    }
  }

  lemma NotHere(x: string, s: string)
    requires x != "" && TagWhole(x) && !Contains(x, STYLE)
    ensures StyleAt(x + s) == None
  {
    OccurrencesSplit(x, s, STYLE, 0);
    assert !At(x, STYLE, 0);
  }

  lemma StyleHere(attrs: string, v: string, z: string)
    requires (forall k :: 0 <= k < |attrs| ==> attrs[k] != '>') && (forall k :: 0 <= k < |v| ==> v[k] != '"')
    requires !Contains(v + "\"/>", VAL)
    ensures StyleAt(STYLE + (attrs + (VAL + (v + ("\"/>" + z))))) == Some(v)
  {
    hide LastVal, At, TagEnd, IndexOf, Contains;
    var s, n := STYLE + (attrs + (VAL + (v + ("\"/>" + z)))), |STYLE| + |attrs|;
    AtWhole(STYLE, attrs + (VAL + (v + ("\"/>" + z))));
    TagEndBehind(attrs, v, z);
    ValueThere(attrs, v, z);
    LastValIs(s, |STYLE|, n, TagEnd(s, |STYLE|), attrs, v, z);
  }

  lemma ValueThere(attrs: string, v: string, z: string)
    requires forall k :: 0 <= k < |v| ==> v[k] != '"'
    ensures var s, n := STYLE + (attrs + (VAL + (v + ("\"/>" + z)))), |STYLE| + |attrs|;
      && At(s, VAL, n) && IndexOf(s, "\"", n + |VAL|) == Some(n + |VAL| + |v|) && s[n + |VAL|..n + |VAL| + |v|] == v
  {
    hide At, IndexOf;
    var y := v + ("\"/>" + z);
    var s, a := STYLE + (attrs + (VAL + y)), STYLE + attrs;
    assert s == a + (VAL + y);
    AtWhole(VAL, y);
    AtRight(a, VAL + y, VAL, |a|);
    QuoteEnds(v, z);
    assert s == (a + VAL) + y;
    IndexOfShift(a + VAL, y, "\"", 0);
    assert y[..|v|] == v;
  }

  /** The tag ends behind the beginning of the value, at the latest with the tag's own bracket. */
  lemma TagEndBehind(attrs: string, v: string, z: string)
    requires forall k :: 0 <= k < |attrs| ==> attrs[k] != '>'
    ensures var s := STYLE + (attrs + (VAL + (v + ("\"/>" + z))));
      var n := |STYLE| + |attrs|;
      n + |VAL| <= TagEnd(s, |STYLE|) <= n + |VAL| + |v| + 2
  {
    var s := STYLE + (attrs + (VAL + (v + ("\"/>" + z))));
    var n := |STYLE| + |attrs|;
    assert s[n + |VAL| + |v| + 2] == '>';
    AtOne(s, '>', n + |VAL| + |v| + 2);
    var g := IndexOf(s, ">", |STYLE|).value;
    AtBounds(s, ">", g);
    AtOne(s, '>', g);
    assert forall k :: |STYLE| <= k < n ==> s[k] == attrs[k - |STYLE|];
    assert forall k :: n <= k < n + |VAL| ==> s[k] == VAL[k - n];
  }

  lemma QuoteEnds(v: string, z: string)
    requires forall k :: 0 <= k < |v| ==> v[k] != '"'
    ensures IndexOf(v + ("\"/>" + z), "\"", 0) == Some(|v|)
  {
    var y := v + ("\"/>" + z);
    assert y[|v|] == '"';
    forall j: nat | j <= |v| ensures At(y, "\"", j) <==> j == |v| {
      AtOne(y, '"', j);
    }
    IndexOfIs(y, "\"", 0, |v|);
  }

  /** No later attribute value begins inside the tag. */
  lemma {:induction false} LastValIs(s: string, from: nat, n: nat, e: nat, attrs: string, v: string, z: string)
    requires s == STYLE + (attrs + (VAL + (v + ("\"/>" + z)))) && from == |STYLE| && n == from + |attrs| && n <= e <= n + |VAL| + |v| + 2
    requires !Contains(v + "\"/>", VAL) && At(s, VAL, n) && IndexOf(s, "\"", n + |VAL|) == Some(n + |VAL| + |v|)
    ensures LastVal(s, from, e) == Some(s[n + |VAL|..n + |VAL| + |v|])
    decreases e
  {
    hide Contains, At;
    if e == n {
    } else {
      NoLaterVal(s, n, e, attrs, v, z);
      LastValIs(s, from, n, e - 1, attrs, v, z);
    }
  }

  lemma NoLaterVal(s: string, n: nat, e: nat, attrs: string, v: string, z: string)
    requires s == STYLE + (attrs + (VAL + (v + ("\"/>" + z)))) && n == |STYLE| + |attrs| && n < e <= n + |VAL| + |v| + 2
    requires !Contains(v + "\"/>", VAL)
    ensures !At(s, VAL, e)
  {
    var x := v + "\"/>";
    var m := n + |VAL|;
    assert s[m..m + |x|] == x;
    assert s[n..m] == VAL;
    assert e < m ==> s[e] == VAL[e - n] && VAL[e - n] != VAL[0];
    assert s[m + |x| - 1] == x[|x| - 1] == '>';
    assert forall k :: 0 <= k < |VAL| ==> VAL[k] != '>';
    assert s == s[..m] + (x + z);
    if e < m {
      if At(s, VAL, e) { AtChars(s, VAL, e, 0); }
    } else {
      AtRight(s[..m], x + z, VAL, e);
      if e + |VAL| <= m + |x| {
        AtLeft(x, z, VAL, e - m);
      } else if At(s, VAL, e) {
        AtChars(s, VAL, e, m + |x| - 1 - e);
      }
    }
  }

  /** Without a style tag there is no style. */
  lemma NoStyleRead(x: string)
    requires !Contains(x, "<w:pStyle ")
    ensures Style(x) == None
  {
    NoStyle(x);
  }

  /** A table's start tag opens a level and its end tag closes one. */
  lemma TablesCount(x: string)
    requires TagWhole(x)
    ensures Depth(x + "<w:tbl>") == Depth(x) + 1 && Depth(x + "</w:tbl>") == Depth(x) - 1
    ensures (forall k :: 0 <= k < |x| ==> x[k] != '<') ==> Depth(x) == 0
  {
    hide Count, TagWhole;
    DepthConcat(x, "<w:tbl>");
    DepthConcat(x, "</w:tbl>");
    CountOne("<w:tbl>", "<w:tbl>");
    CountOne("<w:tbl>", "</w:tbl>");
    CountOne("</w:tbl>", "<w:tbl>");
    CountOne("</w:tbl>", "</w:tbl>");
    if forall k :: 0 <= k < |x| ==> x[k] != '<' {
      forall j: int ensures !At(x, "<w:tbl>", j) && !At(x, "</w:tbl>", j) {
        if At(x, "<w:tbl>", j) { AtChars(x, "<w:tbl>", j, 0); }
        if At(x, "</w:tbl>", j) { AtChars(x, "</w:tbl>", j, 0); }
      }
      CountNone(x, "<w:tbl>");
      CountNone(x, "</w:tbl>");
    }
  }

  lemma CountNone(x: string, p: string)
    requires forall j: nat :: !At(x, p, j)
    ensures Count(x, p, 0, |x|) == 0
  {
    CountSkip(x, p, 0, |x|, |x|);
  }

  lemma CountOne(tag: string, p: string)
    requires (tag == "<w:tbl>" || tag == "</w:tbl>") && (p == "<w:tbl>" || p == "</w:tbl>")
    ensures Count(tag, p, 0, |tag|) == if tag == p then 1 else 0
  {
    hide At;
    forall j: int | 1 <= j ensures !At(tag, p, j) {
      if At(tag, p, j) {
        AtBounds(tag, p, j);
        AtChars(tag, p, j, 0);
      }
    }
    CountSkip(tag, p, 1, |tag|, |tag|);
    if tag == p {
      AtWhole(p, "");
      assert p + "" == p;
    } else if At(tag, p, 0) {
      AtChars(tag, p, 0, 1);
    }
  }

  /** Content that a rewrite would destroy: exactly these kinds of markup. */
  lemma MarkersAre(inner: string)
    ensures HasNonText(inner) <==>
      || Contains(inner, "<w:drawing") || Contains(inner, "<pic:pic") || Contains(inner, "<w:object") || Contains(inner, "<w:pict")
      || Contains(inner, "<w:fldChar") || Contains(inner, "<w:fldSimple") || Contains(inner, "<w:footnoteReference")
      || Contains(inner, "<w:endnoteReference") || Contains(inner, "<w:commentReference") || Contains(inner, "<m:oMath")
      || Contains(inner, "<w:hyperlink") || Contains(inner, "<w:sdt")
  {
    hide Contains;
    MarkersListed();
  }

  /** What is listed of a paragraph: its style or none, its text, whether it is in a table, and whether it holds anything else. */
  lemma ParagraphIs(p: Piece, inTable: bool)
    ensures var r := Described(p, inTable);
      && r.inTable == inTable
      && (p.Closed? ==> r.style == "" && r.text == "" && !r.hasNonText)
      && (p.Full? ==>
            && r.text == TextOf(p.inner)
            && Style(p.inner) in {Some(r.style), None} && (Style(p.inner).None? ==> r.style == "")
            && (r.hasNonText <==> exists m :: m in MARKERS && Contains(p.inner, m)))
  {
    hide Contains, TextOf, Style;
  }

  lemma MarkersListed()
    ensures forall m :: m in MARKERS <==>
      || m == "<w:drawing" || m == "<pic:pic" || m == "<w:object" || m == "<w:pict" || m == "<w:fldChar" || m == "<w:fldSimple"
      || m == "<w:footnoteReference" || m == "<w:endnoteReference" || m == "<w:commentReference" || m == "<m:oMath"
      || m == "<w:hyperlink" || m == "<w:sdt"
  {
  }
}
