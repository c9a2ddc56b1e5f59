/** Run text of the paragraph patcher: escaping, reading runs and writing runs. */
module DocxText {
  import opened Prelude
  import opened Strings
  import opened Markup

  // ----------------------------------------------------------------- escaping

  function EscapeChar(c: char): (r: string)
    ensures |r| > 0 && forall k :: 0 <= k < |r| ==> r[k] != '<' && r[k] != '>'
  {
    if c == '&' then "&amp;" else if c == '<' then "&lt;" else if c == '>' then "&gt;" else [c]
  }

  /** A single-pass replacement of the three markup characters. */
  function Escape(s: string): (r: string)
    ensures forall k :: 0 <= k < |r| ==> r[k] != '<' && r[k] != '>'
  {
    if s == "" then "" else EscapeChar(s[0]) + Escape(s[1..])
  }

  /** The character the entity at the start of s stands for, and the entity's length. */
  function Entity(s: string): (r: (char, nat))
    requires s != ""
    ensures 0 < r.1 <= |s|
  {
    if "&lt;" <= s then ('<', 4)
    else if "&gt;" <= s then ('>', 4)
    else if "&quot;" <= s then ('"', 6)
    else if "&apos;" <= s then ('\'', 6)
    else if "&amp;" <= s then ('&', 5)
    else (s[0], 1)
  }

  /** A single-pass replacement: what an entity produces is not read again. */
  function Unescape(s: string): string {
    if s == "" then "" else [Entity(s).0] + Unescape(s[Entity(s).1..])
  }

  lemma EntityOfEscape(c: char, z: string)
    ensures Entity(EscapeChar(c) + z) == (c, |EscapeChar(c)|)
  {
    var s := EscapeChar(c) + z;
    assert s[0] == EscapeChar(c)[0];
    if c == '&' {
      assert s[1] == 'a' && s[2] == 'm';
      assert s[..5] == "&amp;";
    } else if c == '<' {
      assert s[..4] == "&lt;";
    } else if c == '>' {
      assert s[1] == 'g';
      assert s[..4] == "&gt;";
    }
  }

  /** Whatever a text spells out, tags and entities included, it comes back. */
  lemma {:induction false} UnescapeEscape(s: string)
    ensures Unescape(Escape(s)) == s
  {
    if s == "" {
    } else {
      var c, z := EscapeChar(s[0]), Escape(s[1..]);
      EntityOfEscape(s[0], z);
      assert (c + z)[|c|..] == z;
      UnescapeEscape(s[1..]);
      assert s == [s[0]] + s[1..];
    }
  }

  // ------------------------------------------------------------- reading runs

  const TEXT := "w:t"
  const TAB := "<w:tab/>"
  const BREAK := "<w:br/>"
  const RETURN := "<w:cr/>"

  /** The text token at the start of s: what it reads as, and its length. */
  function Token(s: string): (r: Option<(string, nat)>)
    ensures r.Some? ==> 0 < r.value.1 <= |s|
  {
    match ElementAt(s, TEXT)
    case Some(Whole(from, to, len)) => Some((Unescape(s[from..to]), len))
    case Some(Empty(len)) => Some(("", len))
    case None =>
      if At(s, TAB, 0) then Some(("\t", |TAB|))
      else if At(s, BREAK, 0) then Some(("\n", |BREAK|))
      else if At(s, RETURN, 0) then Some(("\n", |RETURN|))
      else None
  }

  /** The concatenated text of all tokens, leftmost first and without overlap. */
  function TextOf(s: string): string
    decreases |s|
  {
    if s == "" then ""
    else match Token(s)
      case Some(t) => t.0 + TextOf(s[t.1..])
      case None => TextOf(s[1..])
  }

  lemma TextStep(text: string, s: string)
    requires s != ""
    ensures Token(s).Some? ==> text + TextOf(s) == (text + Token(s).value.0) + TextOf(s[Token(s).value.1..])
    ensures Token(s).None? ==> TextOf(s) == TextOf(s[1..])
  {
    if Token(s).Some? {
      Assoc(text, Token(s).value.0, TextOf(s[Token(s).value.1..]));
    }
  }

  /** The reading loop: what it has produced so far followed by the text of the rest. */
  method ParaText(inner: string) returns (text: string)
    ensures text == TextOf(inner)
  {
    text := "";
    var rest := inner;
    while rest != ""
      invariant TextOf(inner) == text + TextOf(rest)
      decreases |rest|
    {
      TextStep(text, rest);
      match Token(rest)
      case Some(t) =>
        text := text + t.0;
        rest := rest[t.1..];
      case None =>
        rest := rest[1..];
    }
  }

  /** A text token may start at position i. */
  predicate TokenStart(s: string, i: int) {
    Starts(s, TEXT, i) || At(s, TAB, i) || At(s, BREAK, i) || At(s, RETURN, i)
  }

  ghost predicate TokenFree(s: string) {
    forall i: int :: !TokenStart(s, i)
  }

  lemma TokenPatterns()
    ensures NameText(TEXT)
    ensures TagPattern(TAB) && TagPattern(BREAK) && TagPattern(RETURN)
  {
  }

  lemma TokenStartSplit(x: string, z: string, i: int)
    requires TagWhole(x)
    ensures TokenStart(x + z, i) <==> TokenStart(x, i) || TokenStart(z, i - |x|)
  {
    TokenPatterns();
    NamePatterns(TEXT);
    OccurrencesSplit(x, z, Opener(TEXT), i);
    OccurrencesSplit(x, z, OpenerSpaced(TEXT), i);
    OccurrencesSplit(x, z, SelfCloser(TEXT), i);
    OccurrencesSplit(x, z, TAB, i);
    OccurrencesSplit(x, z, BREAK, i);
    OccurrencesSplit(x, z, RETURN, i);
  }

  lemma NoTokenStart(s: string)
    requires !TokenStart(s, 0)
    ensures Token(s) == None
  {
    NoStartNoElement(s, TEXT);
  }

  lemma TagWholeTail(x: string)
    requires TagWhole(x) && x != ""
    ensures TagWhole(x[1..])
  {
    forall i | 0 <= i < |x[1..]| && x[1..][i] == '<' ensures exists j :: i < j < |x[1..]| && x[1..][j] == '>' {
      var j :| i + 1 < j < |x| && x[j] == '>';
      assert x[1..][j - 1] == '>';
    }
  }

  lemma TokenStartTail(x: string, i: int)
    requires x != "" && TokenStart(x[1..], i)
    ensures TokenStart(x, i + 1)
  {
    forall p: string ensures At(x[1..], p, i) ==> At(x, p, i + 1) {
      if At(x[1..], p, i) { AtSlice(x, p, 1, i); }
    }
  }

  /** Text before the first token is read as nothing. */
  lemma {:induction false} SkipTokenFree(x: string, z: string)
    requires TagWhole(x) && TokenFree(x)
    ensures TextOf(x + z) == TextOf(z)
    decreases |x|
  {
    if x == "" {
      assert x + z == z;
    } else {
      TokenStartSplit(x, z, 0);
      assert !TokenStart(z, -|x|);
      NoTokenStart(x + z);
      assert (x + z)[1..] == x[1..] + z;
      TagWholeTail(x);
      forall i: int ensures !TokenStart(x[1..], i) {
        if TokenStart(x[1..], i) { TokenStartTail(x, i); }
      }
      SkipTokenFree(x[1..], z);
    }
  }

  // ------------------------------------------------------------- writing runs

  const OPEN_TEXT := "<w:t xml:space=\"preserve\">"
  const CLOSE_TEXT := "</w:t>"
  const OPEN_RUN := "<w:r>"
  const CLOSE_RUN := "</w:r>"

  function Flush(t: string): string {
    if t == "" then "" else OPEN_TEXT + Escape(t) + CLOSE_TEXT
  }

  /** The content written for `text` when `cur` is waiting to be flushed. */
  function Body(cur: string, text: string): string
    decreases |text|
  {
    if text == "" then Flush(cur)
    else if text[0] == '\n' then Flush(cur) + BREAK + Body("", text[1..])
    else if text[0] == '\t' then Flush(cur) + TAB + Body("", text[1..])
    else Body(cur + [text[0]], text[1..])
  }

  function Runs(text: string, rPr: string): string {
    OPEN_RUN + rPr + Body("", text) + CLOSE_RUN
  }

  lemma BodyStep(out: string, cur: string, text: string)
    requires text != ""
    ensures text[0] == '\n' ==> out + Body(cur, text) == (out + Flush(cur) + BREAK) + Body("", text[1..])
    ensures text[0] == '\t' ==> out + Body(cur, text) == (out + Flush(cur) + TAB) + Body("", text[1..])
    ensures text[0] != '\n' && text[0] != '\t' ==> Body(cur, text) == Body(cur + [text[0]], text[1..])
  {
    var f, more := Flush(cur), Body("", text[1..]);
    if text[0] == '\n' {
      Regroup(out, f, BREAK, more);
    } else if text[0] == '\t' {
      Regroup(out, f, TAB, more);
    }
  }

  lemma Regroup(a: string, b: string, c: string, d: string)
    ensures a + ((b + c) + d) == ((a + b) + c) + d
    ensures ((a + b) + c) + d == a + (b + (c + d))
  {
    Assoc(a, b, c);
    Assoc(b, c, d);
    Assoc(a, b + c, d);
  }

  method BuildRuns(text: string, rPr: string) returns (out: string)
    ensures out == Runs(text, rPr)
  {
    out := OPEN_RUN + rPr;
    var cur := "";
    for i := 0 to |text|
      invariant OPEN_RUN + rPr + Body("", text) == out + Body(cur, text[i..])
    {
      BodyStep(out, cur, text[i..]);
      DropDrop(text, i, 1);
      if text[i] == '\n' {
        out := out + Flush(cur) + BREAK;
        cur := "";
      } else if text[i] == '\t' {
        out := out + Flush(cur) + TAB;
        cur := "";
      } else {
        cur := cur + [text[i]];
      }
    }
    assert text[|text|..] == "";
    out := out + Flush(cur);
    out := out + CLOSE_RUN;
  }

  /** Words without a break or tab. */
  predicate Unbroken(words: string) {
    '\n' !in words && '\t' !in words
  }

  /** Each part is some words and the break or tab behind them. */
  predicate Parted(parts: seq<(string, char)>) {
    forall i :: 0 <= i < |parts| ==> Unbroken(parts[i].0) && (parts[i].1 == '\n' || parts[i].1 == '\t')
  }

  function Spelled(parts: seq<(string, char)>, last: string): string {
    if parts == [] then last else parts[0].0 + [parts[0].1] + Spelled(parts[1..], last)
  }

  function WordsTag(words: string): string {
    if words == "" then "" else "<w:t xml:space=\"preserve\">" + Escape(words) + "</w:t>"
  }

  function Written(parts: seq<(string, char)>, last: string): string {
    if parts == [] then WordsTag(last)
    else WordsTag(parts[0].0) + (if parts[0].1 == '\n' then "<w:br/>" else "<w:tab/>") + Written(parts[1..], last)
  }

  lemma {:induction false} BodyOfWords(cur: string, words: string, more: string)
    requires Unbroken(words)
    ensures Body(cur, words + more) == Body(cur + words, more)
    decreases |words|
  {
    hide Flush;
    if words == "" {
      assert words + more == more && cur + words == cur;
    } else {
      var c, rest := words[0], words[1..];
      assert (words + more)[0] == c && (words + more)[1..] == rest + more;
      assert cur + [c] + rest == cur + words;
      assert forall x :: x in rest ==> x in words;
      BodyOfWords(cur + [c], rest, more);
    }
  }

  lemma BodyOfPart(words: string, mark: char, more: string)
    requires Unbroken(words) && (mark == '\n' || mark == '\t')
    ensures Body("", words + [mark] + more) == Flush(words) + (if mark == '\n' then BREAK else TAB) + Body("", more)
  {
    hide Flush;
    assert words + [mark] + more == words + ([mark] + more) && "" + words == words;
    BodyOfWords("", words, [mark] + more);
    assert ([mark] + more)[1..] == more;
  }

  lemma {:induction false} BodyWritten(parts: seq<(string, char)>, last: string)
    requires Parted(parts) && Unbroken(last)
    ensures Body("", Spelled(parts, last)) == Written(parts, last)
  {
    hide Escape;
    if parts == [] {
      BodyOfWords("", last, "");
      assert last + "" == last && "" + last == last;
    } else {
      BodyWritten(parts[1..], last);
      BodyOfPart(parts[0].0, parts[0].1, Spelled(parts[1..], last));
    }
  }

  /** What is written: each stretch of words escaped in a text tag that keeps its white space, breaks and tabs between. */
  lemma RunsWritten(parts: seq<(string, char)>, last: string, rPr: string)
    requires Parted(parts) && Unbroken(last)
    ensures Runs(Spelled(parts, last), rPr) == "<w:r>" + rPr + Written(parts, last) + "</w:r>"
  {
    hide Written, Spelled, Body;
    BodyWritten(parts, last);
  }

  // --------------------------------------------------------------- round trip

  lemma OpenTextTag(z: string)
    ensures StartTag(OPEN_TEXT + z, TEXT) == Some(|OPEN_TEXT|)
  {
    var s := OPEN_TEXT + z;
    assert OPEN_TEXT[..5] == "<w:t ";
    assert s[0..5] == "<w:t ";
    assert s[4] == ' ';
    assert At(s, OpenerSpaced(TEXT), 0);
    if At(s, Opener(TEXT), 0) { AtChars(s, Opener(TEXT), 0, 4); }
    assert At(s, ">", |OPEN_TEXT| - 1);
    forall j | 5 <= j < |OPEN_TEXT| - 1 ensures !At(s, ">", j) {
      assert s[j] == OPEN_TEXT[j];
    }
    IndexOfIs(s, ">", 5, |OPEN_TEXT| - 1);
  }

  /** After a start tag, plain content ends at the closing tag. */
  lemma ContentEnd(a: string, e: string, y: string, close: string)
    requires TagPattern(close) && At(y, close, 0)
    requires forall k :: 0 <= k < |e| ==> e[k] != '<'
    ensures IndexOf(a + (e + y), close, |a|) == Some(|a| + |e|)
  {
    hide At, TagPattern, IndexOf;
    ContentOccurrences(a, e, y, close);
    IndexOfIs(a + (e + y), close, |a|, |a| + |e|);
  }

  lemma ContentOccurrences(a: string, e: string, y: string, close: string)
    requires TagPattern(close) && At(y, close, 0)
    requires forall k :: 0 <= k < |e| ==> e[k] != '<'
    ensures forall j: nat :: |a| <= j <= |a| + |e| ==> (At(a + (e + y), close, j) <==> j == |a| + |e|)
  {
    forall j: nat | |a| <= j <= |a| + |e| {
      ContentOccurrence(a, e, y, close, j);
    }
  }

  lemma ContentOccurrence(a: string, e: string, y: string, close: string, j: int)
    requires TagPattern(close) && At(y, close, 0)
    requires forall k :: 0 <= k < |e| ==> e[k] != '<'
    requires |a| <= j <= |a| + |e|
    ensures At(a + (e + y), close, j) <==> j == |a| + |e|
  {
    AtRight(a, e + y, close, j);
    PlainText(e, y, close, j - |a|);
  }

  lemma MiddleSlice(a: string, e: string, y: string)
    ensures (a + (e + y))[|a|..|a| + |e|] == e
    ensures (a + (e + y))[|a| + |e|..] == y
  {
  }

  lemma FlushedElement(e: string, y: string)
    requires At(y, CLOSE_TEXT, 0) && forall k :: 0 <= k < |e| ==> e[k] != '<'
    ensures ElementAt(OPEN_TEXT + (e + y), TEXT)
      == Some(Whole(|OPEN_TEXT|, |OPEN_TEXT| + |e|, |OPEN_TEXT| + |e| + |CLOSE_TEXT|))
  {
    OpenTextTag(e + y);
    TextCloser();
    ContentEnd(OPEN_TEXT, e, y, CLOSE_TEXT);
  }

  lemma TextCloser()
    ensures Closer(TEXT) == CLOSE_TEXT && TagPattern(CLOSE_TEXT)
  {
  }

  lemma FlushedToken(t: string, z: string)
    requires t != ""
    ensures Token(Flush(t) + z) == Some((t, |Flush(t)|))
  {
    hide At, Escape, Unescape;
    var e, y := Escape(t), CLOSE_TEXT + z;
    Assoc(OPEN_TEXT + e, CLOSE_TEXT, z);
    Assoc(OPEN_TEXT, e, y);
    AtWhole(CLOSE_TEXT, z);
    FlushedElement(e, y);
    MiddleSlice(OPEN_TEXT, e, y);
    UnescapeEscape(t);
  }

  lemma NotTextMark(mark: string, z: string, head: string)
    requires mark == TAB || mark == BREAK
    requires head == Opener(TEXT) || head == OpenerSpaced(TEXT) || head == SelfCloser(TEXT)
    ensures !At(mark + z, head, 0)
  {
    assert mark[4] == 'a' || mark[3] == 'b';
    assert head[3] == 't' && head[4] != 'a';
    if At(mark + z, head, 0) {
      AtChars(mark + z, head, 0, 3);
      AtChars(mark + z, head, 0, 4);
    }
  }

  lemma MarkToken(mark: string, z: string)
    requires mark == TAB || mark == BREAK
    ensures Token(mark + z) == Some((if mark == TAB then "\t" else "\n", |mark|))
  {
    AtLeft(mark, z, mark, 0);
    NotTextMark(mark, z, Opener(TEXT));
    NotTextMark(mark, z, OpenerSpaced(TEXT));
    NotTextMark(mark, z, SelfCloser(TEXT));
    NoStartNoElement(mark + z, TEXT);
    if mark == BREAK && At(mark + z, TAB, 0) { AtChars(mark + z, TAB, 0, 3); }
  }

  lemma ReadFlush(t: string, z: string)
    ensures TextOf(Flush(t) + z) == t + TextOf(z)
  {
    if t == "" {
      assert Flush(t) + z == z;
    } else {
      FlushedToken(t, z);
      assert (Flush(t) + z)[|Flush(t)|..] == z;
    }
  }

  lemma ReadMark(mark: string, z: string)
    requires mark == TAB || mark == BREAK
    ensures TextOf(mark + z) == (if mark == TAB then "\t" else "\n") + TextOf(z)
  {
    MarkToken(mark, z);
    assert (mark + z)[|mark|..] == z;
  }

  lemma ReadBreak(cur: string, mark: string, more: string, text: string, z: string)
    requires mark == TAB || mark == BREAK
    requires TextOf(more + z) == text + TextOf(z)
    ensures TextOf(((Flush(cur) + mark) + more) + z) == cur + ((if mark == TAB then "\t" else "\n") + (text + TextOf(z)))
  {
    Regroup(Flush(cur), mark, more, z);
    ReadFlush(cur, mark + (more + z));
    ReadMark(mark, more + z);
  }

  lemma {:induction false} ReadBody(cur: string, text: string, z: string)
    ensures TextOf(Body(cur, text) + z) == cur + (text + TextOf(z))
    decreases |text|
  {
    if text == "" {
      ReadFlush(cur, z);
      assert text + TextOf(z) == TextOf(z);
    } else if text[0] == '\n' || text[0] == '\t' {
      ReadBody("", text[1..], z);
      ReadBreak(cur, if text[0] == '\n' then BREAK else TAB, Body("", text[1..]), text[1..], z);
      ConsText(text, TextOf(z));
    } else {
      ReadBody(cur + [text[0]], text[1..], z);
      ConsText(text, TextOf(z));
      Assoc(cur, [text[0]], text[1..] + TextOf(z));
    }
  }

  lemma ConsText(text: string, z: string)
    requires text != ""
    ensures [text[0]] + (text[1..] + z) == text + z
  {
  }

  lemma RunTagsSilent()
    ensures TagWhole(OPEN_RUN) && TokenFree(OPEN_RUN)
    ensures TagWhole(CLOSE_RUN) && TokenFree(CLOSE_RUN)
  {
    EndsWithTagWhole(OPEN_RUN);
    EndsWithTagWhole(CLOSE_RUN);
    forall i: int ensures !TokenStart(OPEN_RUN, i) { ShortNoToken(OPEN_RUN, i); }
    forall i: int ensures !TokenStart(CLOSE_RUN, i) { ShortNoToken(CLOSE_RUN, i); }
  }

  lemma ShortNoToken(s: string, i: int)
    requires s == OPEN_RUN || s == CLOSE_RUN
    ensures !TokenStart(s, i)
  {
    var heads := [Opener(TEXT), OpenerSpaced(TEXT), SelfCloser(TEXT), TAB, BREAK, RETURN];
    forall k | 0 <= k < |heads| ensures !At(s, heads[k], i) {
      if At(s, heads[k], i) {
        AtChars(s, heads[k], i, 0);
        AtChars(s, heads[k], i, 3);
      }
    }
    assert heads[0] == Opener(TEXT) && heads[1] == OpenerSpaced(TEXT) && heads[2] == SelfCloser(TEXT);
    assert heads[3] == TAB && heads[4] == BREAK && heads[5] == RETURN;
  }

  /** Reading what was written gives the text back, after any properties free of text tokens. */
  lemma ReadRuns(pPr: string, text: string, rPr: string)
    requires TagWhole(pPr) && TokenFree(pPr)
    requires TagWhole(rPr) && TokenFree(rPr)
    ensures TextOf(pPr + Runs(text, rPr)) == text
  {
    RunTagsSilent();
    var tail := Body("", text) + CLOSE_RUN;
    RunsShape(text, rPr);
    SkipTokenFree(pPr, OPEN_RUN + (rPr + tail));
    SkipTokenFree(OPEN_RUN, rPr + tail);
    SkipTokenFree(rPr, tail);
    ReadBody("", text, CLOSE_RUN);
    SkipTokenFree(CLOSE_RUN, "");
    assert CLOSE_RUN + "" == CLOSE_RUN;
  }

  lemma RunsShape(text: string, rPr: string)
    ensures Runs(text, rPr) == OPEN_RUN + (rPr + (Body("", text) + CLOSE_RUN))
  {
    Assoc(OPEN_RUN + rPr, Body("", text), CLOSE_RUN);
    Assoc(OPEN_RUN, rPr, Body("", text) + CLOSE_RUN);
  }

  lemma TextRoundTrip(text: string, rPr: string)
    requires TagWhole(rPr) && TokenFree(rPr)
    ensures TextOf(Runs(text, rPr)) == text
  {
    assert TagWhole("") && TokenFree("");
    ReadRuns("", text, rPr);
    assert "" + Runs(text, rPr) == Runs(text, rPr);
  }
}
