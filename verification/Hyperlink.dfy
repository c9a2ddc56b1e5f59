/** Linking a range, and comparing links after the write. */
module Hyperlinks {
  import opened Prelude
  import opened Numerals
  import opened Strings
  import opened Utf16
  import opened RunSplit

  /** A run with its link target ("" when it has none). */
  datatype LinkRun = LinkRun(text: Option<string>, url: string, editable: bool)

  datatype Error = NotPlainText | NotEditable | SplitsPair

  type LinkText = Piece<string>

  function LinkUnits(runs: seq<LinkRun>): seq<(int, string)> {
    if runs == [] then []
    else (if runs[0].text.Some? then Paint(Encode(runs[0].text.value), runs[0].url) else []) + LinkUnits(runs[1..])
  }

  /** One run's contribution to the expected texts; the range is relative to its first unit. */
  function Linked(r: LinkRun, s: int, e: int, url: string, whole: bool): Result<seq<LinkText>, Error> {
    if r.text.None? then if whole then Failure(NotPlainText) else Success([])
    else
      var text := r.text.value;
      var from, to := Max(0, s), Min(|Encode(text)|, e);
      if to <= from then Success([Piece(text, r.url)])
      else if !r.editable then Failure(NotEditable)
      else
        var a, b := Offset(text, from), Offset(text, to);
        if a.None? || b.None? || a.value > b.value then Failure(SplitsPair)
        else Success(Three(text, a.value, b.value, r.url, url))
  }

  function LinkedAll(runs: seq<LinkRun>, s: int, e: int, url: string, whole: bool): Result<seq<LinkText>, Error> {
    if runs == [] then Success([])
    else
      match Linked(runs[0], s, e, url, whole)
      case Failure(error) => Failure(error)
      case Success(ps) =>
        var n := if runs[0].text.Some? then |Encode(runs[0].text.value)| else 0;
        match LinkedAll(runs[1..], s - n, e - n, url, whole)
        case Failure(error) => Failure(error)
        case Success(rest) => Success(ps + rest)
  }

  lemma OneLink(text: string, url: string)
    ensures Attributed([Piece(text, url)]) == Paint(Encode(text), url)
  {
    assert [Piece(text, url)][1..] == [];
    assert Paint(Encode(text), url) + [] == Paint(Encode(text), url);
  }

  lemma LinkedRepaints(r: LinkRun, s: int, e: int, url: string, whole: bool)
    requires Linked(r, s, e, url, whole).Success?
    ensures Attributed(Linked(r, s, e, url, whole).value)
      == Repaint(if r.text.Some? then Paint(Encode(r.text.value), r.url) else [], s, e, previous => url)
  {
    hide Offset, Encode, Attributed, Paint, Three;
    NoLinks();
    if r.text.Some? {
      var text := r.text.value;
      OneLink(text, r.url);
      var from, to := Max(0, s), Min(|Encode(text)|, e);
      if to > from { ThreeRepaints(text, from, to, r.url, previous => url); }
    }
  }

  lemma NoLinks()
    ensures Attributed<string>([]) == []
  {
  }

  /** The new target is expected on exactly the selected units, the old one everywhere else, over unchanged text. */
  lemma {:induction false} LinksExactly(runs: seq<LinkRun>, s: int, e: int, url: string, whole: bool)
    requires LinkedAll(runs, s, e, url, whole).Success?
    ensures Attributed(LinkedAll(runs, s, e, url, whole).value) == Repaint(LinkUnits(runs), s, e, previous => url)
  {
    hide Linked, Attributed, Repaint, Encode;
    if runs == [] {
      NoLinks();
      RepaintNone(LinkUnits(runs), s, e, previous => url);
    } else {
      var n := if runs[0].text.Some? then |Encode(runs[0].text.value)| else 0;
      LinksExactly(runs[1..], s - n, e - n, url, whole);
      LinkedRepaints(runs[0], s, e, url, whole);
      AttributedConcat(Linked(runs[0], s, e, url, whole).value, LinkedAll(runs[1..], s - n, e - n, url, whole).value);
      RepaintConcat(if runs[0].text.Some? then Paint(Encode(runs[0].text.value), runs[0].url) else [], LinkUnits(runs[1..]), s, e, previous => url);
    }
  }

  predicate LinkFits(runs: seq<LinkRun>, s: int, e: int, whole: bool) {
    runs != [] ==>
      var n := if runs[0].text.Some? then |Encode(runs[0].text.value)| else 0;
      && (runs[0].text.None? ==> !whole)
      && (runs[0].text.Some? && Max(0, s) < Min(n, e) ==> runs[0].editable)
      && LinkFits(runs[1..], s - n, e - n, whole)
  }

  lemma FirstNotLow(text: string, url: string)
    ensures !LowAt(Paint(Encode(text), url), 0)
  {
  }

  lemma LinkedSucceeds(r: LinkRun, s: int, e: int, url: string, whole: bool)
    requires s < e
    ensures var n := if r.text.Some? then |Encode(r.text.value)| else 0;
      var us := if r.text.Some? then Paint(Encode(r.text.value), r.url) else [];
      Linked(r, s, e, url, whole).Success? <==>
        && !LowAt(us, s) && !LowAt(us, e)
        && (r.text.None? ==> !whole) && (r.text.Some? && Max(0, s) < Min(n, e) ==> r.editable)
  {
    hide Offset, Encode, Three;
    if r.text.Some? {
      var text := r.text.value;
      var from, to := Max(0, s), Min(|Encode(text)|, e);
      FirstNotLow(text, r.url);
      if from < to {
        OffsetLow(text, r.url, from);
        OffsetLow(text, r.url, to);
        if Offset(text, from).Some? && Offset(text, to).Some? { OffsetsOrdered(text, from, to); }
      }
    }
  }

  /** Exactly when linking succeeds: no surrogate pair is cut, and every selected run may be linked. */
  lemma {:induction false} LinkSucceedsExactly(runs: seq<LinkRun>, s: int, e: int, url: string, whole: bool)
    requires s < e
    ensures LinkedAll(runs, s, e, url, whole).Success? <==>
              !LowAt(LinkUnits(runs), s) && !LowAt(LinkUnits(runs), e) && LinkFits(runs, s, e, whole)
  {
    hide Linked, LowAt, Encode;
    if runs == [] {
      NothingLow(LinkUnits(runs), s);
      NothingLow(LinkUnits(runs), e);
    } else {
      var n := if runs[0].text.Some? then |Encode(runs[0].text.value)| else 0;
      var us := if runs[0].text.Some? then Paint(Encode(runs[0].text.value), runs[0].url) else [];
      LinkedSucceeds(runs[0], s, e, url, whole);
      LinkSucceedsExactly(runs[1..], s - n, e - n, url, whole);
      LowConcat(us, LinkUnits(runs[1..]), s);
      LowConcat(us, LinkUnits(runs[1..]), e);
    }
  }

  lemma NothingLow(us: seq<(int, string)>, k: int)
    requires us == []
    ensures !LowAt(us, k)
  {
  }

  // --------------------------------------------------------------------- the loop

  function Continued(done: seq<LinkText>, r: Result<seq<LinkText>, Error>): Result<seq<LinkText>, Error> {
    match r
    case Failure(error) => Failure(error)
    case Success(ps) => Success(done + ps)
  }

  lemma LinkedStep(runs: seq<LinkRun>, i: nat, s: int, e: int, url: string, whole: bool, done: seq<LinkText>)
    requires i < |runs|
    ensures var n := if runs[i].text.Some? then |Encode(runs[i].text.value)| else 0;
      Continued(done, LinkedAll(runs[i..], s, e, url, whole)) ==
        match Linked(runs[i], s, e, url, whole)
        case Failure(error) => Failure(error)
        case Success(ps) => Continued(done + ps, LinkedAll(runs[i + 1..], s - n, e - n, url, whole))
  {
    hide Linked, Encode;
    assert runs[i..][0] == runs[i] && runs[i..][1..] == runs[i + 1..];
    var n := if runs[i].text.Some? then |Encode(runs[i].text.value)| else 0;
    var rest := LinkedAll(runs[i + 1..], s - n, e - n, url, whole);
    if Linked(runs[i], s, e, url, whole).Success? && rest.Success? {
      var ps := Linked(runs[i], s, e, url, whole).value;
      assert done + (ps + rest.value) == (done + ps) + rest.value;
    }
  }

  /** The segment loop: the texts and targets the write is expected to leave. */
  method ExpectedLinks(runs: seq<LinkRun>, start: int, end: int, url: string, whole: bool)
    returns (r: Result<seq<LinkText>, Error>)
    requires start < end
    ensures r == LinkedAll(runs, start, end, url, whole)
  {
    hide LinkedAll, Offset, Encode, Three;
    var expected: seq<LinkText> := [];
    var offset := 0;
    assert runs[0..] == runs;
    ContinuedNothing(LinkedAll(runs, start, end, url, whole));
    for i := 0 to |runs|
      invariant Continued(expected, LinkedAll(runs[i..], start - offset, end - offset, url, whole))
             == LinkedAll(runs, start, end, url, whole)
    {
      LinkedStep(runs, i, start - offset, end - offset, url, whole, expected);
      var run := runs[i];
      if run.text == None {
        if whole {
          return Failure(NotPlainText);
        }
        assert expected + [] == expected;
        continue;
      }
      var text := run.text.value;
      var length := CountUnits(text);
      var from, to := Max(0, start - offset), Min(length, end - offset);
      offset := offset + length;
      if to <= from {
        expected := expected + [Piece(text, run.url)];
        continue;
      }
      if !run.editable {
        return Failure(NotEditable);
      }
      var a := OffsetOf(text, from);
      var b := OffsetOf(text, to);
      if a == None || b == None {
        return Failure(SplitsPair);
      }
      OffsetsOrdered(text, from, to);
      var segments := Segments(text, a.value, b.value, run.url, url);
      expected := expected + segments;
    }
    NoLinksLeft(runs, start - offset, end - offset, url, whole, expected);
    return Success(expected);
  }

  method Segments(text: string, a: nat, b: nat, oldURL: string, newURL: string) returns (out: seq<LinkText>)
    requires a <= b <= |text|
    ensures out == Three(text, a, b, oldURL, newURL)
  {
    out := [];
    if text[..a] != "" {
      out := out + [Piece(text[..a], oldURL)];
    }
    if text[a..b] != "" {
      out := out + [Piece(text[a..b], newURL)];
    }
    if text[b..] != "" {
      out := out + [Piece(text[b..], oldURL)];
    }
  }

  lemma ContinuedNothing(r: Result<seq<LinkText>, Error>)
    ensures Continued([], r) == r
  {
    if r.Success? { assert [] + r.value == r.value; }
  }

  lemma NoLinksLeft(runs: seq<LinkRun>, s: int, e: int, url: string, whole: bool, done: seq<LinkText>)
    ensures Continued(done, LinkedAll(runs[|runs|..], s, e, url, whole)) == Success(done)
  {
    assert runs[|runs|..] == [];
    assert done + [] == done;
  }

  // --------------------------------------------------------------- the projection

  /** Length-prefixed target and text of one stretch of equal targets; an empty stretch leaves no trace. */
  function Stretch(target: string, chunk: string): string {
    if chunk == "" then ""
    else Numeral(|target|) + ":" + (target + (":" + (Numeral(|chunk|) + ":" + chunk)))
  }

  /** What the projection still writes, with `chunk` pending for `target`. */
  function Projected(target: string, chunk: string, runs: seq<LinkText>): string
    decreases |runs|
  {
    if runs == [] then Stretch(target, chunk)
    else if runs[0].attr != target then Stretch(target, chunk) + Projected(runs[0].attr, runs[0].text, runs[1..])
    else Projected(target, chunk + runs[0].text, runs[1..])
  }

  function Projection(runs: seq<LinkText>): string {
    Projected("", "", runs)
  }

  method LinkProjection(runs: seq<LinkText>) returns (out: string)
    ensures out == Projection(runs)
  {
    hide Stretch;
    out := "";
    var chunk := "";
    var target := "";
    assert runs[0..] == runs;
    assert "" + Projection(runs) == Projection(runs);
    for i := 0 to |runs|
      invariant out + Projected(target, chunk, runs[i..]) == Projection(runs)
    {
      assert runs[i..][0] == runs[i] && runs[i..][1..] == runs[i + 1..];
      if runs[i].attr != target {
        Assoc(out, Stretch(target, chunk), Projected(runs[i].attr, runs[i].text, runs[i + 1..]));
        out := out + Stretch(target, chunk);
        chunk := "";
        target := runs[i].attr;
        assert "" + runs[i].text == runs[i].text;
      }
      chunk := chunk + runs[i].text;
    }
    assert runs[|runs|..] == [];
    out := out + Stretch(target, chunk);
  }

  // ---------------------------------------------------- what the projection tells apart

  /** Every character with the target it is linked to. */
  function Characters(runs: seq<LinkText>): seq<(char, string)> {
    if runs == [] then [] else Marked(runs[0].text, runs[0].attr) + Characters(runs[1..])
  }

  function Marked(text: string, url: string): (r: seq<(char, string)>)
    ensures |r| == |text| && forall i :: 0 <= i < |r| ==> r[i] == (text[i], url)
  {
    seq(|text|, i requires 0 <= i < |text| => (text[i], url))
  }

  /** The stretches the projection writes. */
  function Stretches(target: string, chunk: string, runs: seq<LinkText>): seq<LinkText>
    decreases |runs|
  {
    if runs == [] then NonEmpty(chunk, target)
    else if runs[0].attr != target then NonEmpty(chunk, target) + Stretches(runs[0].attr, runs[0].text, runs[1..])
    else Stretches(target, chunk + runs[0].text, runs[1..])
  }

  function Written(ss: seq<LinkText>): string {
    if ss == [] then "" else Stretch(ss[0].attr, ss[0].text) + Written(ss[1..])
  }

  lemma WrittenOne(chunk: string, target: string, rest: seq<LinkText>)
    ensures Written(NonEmpty(chunk, target) + rest) == Stretch(target, chunk) + Written(rest)
  {
    hide Stretch;
    if chunk == "" {
      assert NonEmpty(chunk, target) + rest == rest;
      EmptyStretch(target);
      assert "" + Written(rest) == Written(rest);
    } else {
      var ss := [Piece(chunk, target)] + rest;
      assert ss[1..] == rest;
    }
  }

  lemma EmptyStretch(target: string)
    ensures Stretch(target, "") == ""
  {
  }

  lemma {:induction false} ProjectedIsWritten(target: string, chunk: string, runs: seq<LinkText>)
    ensures Projected(target, chunk, runs) == Written(Stretches(target, chunk, runs))
    decreases |runs|
  {
    hide Stretch, NonEmpty;
    if runs == [] {
      WrittenOne(chunk, target, []);
      assert NonEmpty(chunk, target) + [] == NonEmpty(chunk, target);
      assert Stretch(target, chunk) + "" == Stretch(target, chunk);
    } else if runs[0].attr != target {
      ProjectedIsWritten(runs[0].attr, runs[0].text, runs[1..]);
      WrittenOne(chunk, target, Stretches(runs[0].attr, runs[0].text, runs[1..]));
    } else {
      ProjectedIsWritten(target, chunk + runs[0].text, runs[1..]);
    }
  }

  lemma {:induction false} StretchesKeep(target: string, chunk: string, runs: seq<LinkText>)
    ensures Characters(Stretches(target, chunk, runs)) == Marked(chunk, target) + Characters(runs)
    ensures forall s :: s in Stretches(target, chunk, runs) ==> s.text != ""
    decreases |runs|
  {
    hide Marked;
    if runs == [] {
      MarkedOne(chunk, target, []);
      assert NonEmpty(chunk, target) + [] == NonEmpty(chunk, target);
    } else if runs[0].attr != target {
      StretchesKeep(runs[0].attr, runs[0].text, runs[1..]);
      MarkedOne(chunk, target, Stretches(runs[0].attr, runs[0].text, runs[1..]));
    } else {
      StretchesKeep(target, chunk + runs[0].text, runs[1..]);
      MarkedConcat(chunk, runs[0].text, target, Characters(runs[1..]));
    }
  }

  lemma MarkedConcat(a: string, b: string, url: string, rest: seq<(char, string)>)
    ensures Marked(a + b, url) + rest == Marked(a, url) + (Marked(b, url) + rest)
  {
  }

  lemma MarkedOne(chunk: string, target: string, rest: seq<LinkText>)
    ensures Characters(NonEmpty(chunk, target) + rest) == Marked(chunk, target) + Characters(rest)
  {
    if chunk == "" {
      assert NonEmpty(chunk, target) + rest == rest;
      assert Marked(chunk, target) == [];
    } else {
      var ss := [Piece(chunk, target)] + rest;
      assert ss[1..] == rest;
    }
  }

  /** A decimal numeral ends at its colon. */
  lemma NumeralPrefix(n: nat, x: string, m: nat, y: string)
    requires Numeral(n) + ":" + x == Numeral(m) + ":" + y
    ensures n == m && x == y
  {
    var a, b := Numeral(n), Numeral(m);
    var s, t := a + ":" + x, b + ":" + y;
    DigitsOnly(n);
    DigitsOnly(m);
    assert s[|a|] == ':' && t[|b|] == ':';
    assert forall k :: 0 <= k < |a| ==> s[k] == a[k] && s[k] != ':';
    assert forall k :: 0 <= k < |b| ==> t[k] == b[k] && t[k] != ':';
    assert a == s[..|a|] && b == t[..|b|];
    NumeralInjective(n, m);
    assert x == s[|a| + 1..] && y == t[|b| + 1..];
  }

  lemma SamePrefix(a: string, x: string, b: string, y: string)
    requires a + x == b + y && |a| == |b|
    ensures a == b && x == y
  {
    assert a == (a + x)[..|a|] && b == (b + y)[..|b|];
    assert x == (a + x)[|a|..] && y == (b + y)[|b|..];
  }

  /** A stretch is read back from the front of what was written. */
  lemma StretchPrefix(t: string, c: string, x: string, t': string, c': string, x': string)
    requires c != "" && c' != "" && Stretch(t, c) + x == Stretch(t', c') + x'
    ensures t == t' && c == c' && x == x'
  {
    hide Numeral;
    Flat(t, c, x);
    Flat(t', c', x');
    var z, z' := Numeral(|c|) + ":" + (c + x), Numeral(|c'|) + ":" + (c' + x');
    NumeralPrefix(|t|, t + (":" + z), |t'|, t' + (":" + z'));
    SamePrefix(t, ":" + z, t', ":" + z');
    SamePrefix(":", z, ":", z');
    NumeralPrefix(|c|, c + x, |c'|, c' + x');
    SamePrefix(c, x, c', x');
  }

  lemma Flat(t: string, c: string, x: string)
    requires c != ""
    ensures Stretch(t, c) + x == Numeral(|t|) + ":" + (t + (":" + (Numeral(|c|) + ":" + (c + x))))
  {
    hide Numeral;
    var n, m := Numeral(|t|) + ":", Numeral(|c|) + ":";
    Assoc(n, t + (":" + (m + c)), x);
    Assoc(t, ":" + (m + c), x);
    Assoc(":", m + c, x);
    Assoc(m, c, x);
  }

  lemma StretchNotEmpty(t: string, c: string, x: string)
    requires c != ""
    ensures Stretch(t, c) + x != ""
  {
  }

  lemma {:induction false} WrittenInjective(ss: seq<LinkText>, ts: seq<LinkText>)
    requires Written(ss) == Written(ts)
    requires (forall s :: s in ss ==> s.text != "") && forall t :: t in ts ==> t.text != ""
    ensures ss == ts
    decreases |ss|
  {
    hide Stretch;
    if ss == [] {
      if ts != [] { StretchNotEmpty(ts[0].attr, ts[0].text, Written(ts[1..])); }
    } else if ts == [] {
      StretchNotEmpty(ss[0].attr, ss[0].text, Written(ss[1..]));
    } else {
      StretchPrefix(ss[0].attr, ss[0].text, Written(ss[1..]), ts[0].attr, ts[0].text, Written(ts[1..]));
      WrittenInjective(ss[1..], ts[1..]);
      assert ss == [ss[0]] + ss[1..] && ts == [ts[0]] + ts[1..];
    }
  }

  /** Equal projections: every character has the same target on both sides. */
  lemma ProjectionTellsApart(a: seq<LinkText>, b: seq<LinkText>)
    requires Projection(a) == Projection(b)
    ensures Characters(a) == Characters(b)
  {
    hide Projected, Stretches, Written, Characters;
    ProjectedIsWritten("", "", a);
    ProjectedIsWritten("", "", b);
    StretchesKeep("", "", a);
    StretchesKeep("", "", b);
    WrittenInjective(Stretches("", "", a), Stretches("", "", b));
    assert Marked("", "") + Characters(a) == Characters(a);
    assert Marked("", "") + Characters(b) == Characters(b);
  }

  /** The maximal stretches of equal targets of a character sequence. */
  function Grouped(target: string, chunk: string, cs: seq<(char, string)>): seq<LinkText>
    decreases |cs|
  {
    if cs == [] then NonEmpty(chunk, target)
    else if cs[0].1 != target then NonEmpty(chunk, target) + Grouped(cs[0].1, [cs[0].0], cs[1..])
    else Grouped(target, chunk + [cs[0].0], cs[1..])
  }

  lemma {:induction false} GroupedMarked(target: string, chunk: string, text: string, rest: seq<(char, string)>)
    ensures Grouped(target, chunk, Marked(text, target) + rest) == Grouped(target, chunk + text, rest)
    decreases |text|
  {
    if text == "" {
      assert Marked(text, target) + rest == rest;
      assert chunk + text == chunk;
    } else {
      var cs := Marked(text, target) + rest;
      assert cs[1..] == Marked(text[1..], target) + rest;
      GroupedMarked(target, chunk + [text[0]], text[1..], rest);
      assert chunk + [text[0]] + text[1..] == chunk + text;
    }
  }

  lemma {:induction false} StretchesAreGroups(target: string, chunk: string, runs: seq<LinkText>)
    requires forall r :: r in runs ==> r.text != ""
    ensures Stretches(target, chunk, runs) == Grouped(target, chunk, Characters(runs))
    decreases |runs|
  {
    hide NonEmpty;
    if runs == [] {
    } else {
      var r, rest := runs[0], Characters(runs[1..]);
      if r.attr == target {
        GroupedMarked(target, chunk, r.text, rest);
        StretchesAreGroups(target, chunk + r.text, runs[1..]);
      } else {
        assert r in runs;
        var cs := Marked(r.text, r.attr) + rest;
        assert cs[0] == (r.text[0], r.attr) && cs[1..] == Marked(r.text[1..], r.attr) + rest;
        GroupedMarked(r.attr, [r.text[0]], r.text[1..], rest);
        assert [r.text[0]] + r.text[1..] == r.text;
        StretchesAreGroups(r.attr, r.text, runs[1..]);
      }
    }
  }

  /** Conversely, lists without empty texts that link every character alike have equal projections. */
  lemma SameCharactersSameProjection(a: seq<LinkText>, b: seq<LinkText>)
    requires (forall r :: r in a ==> r.text != "") && (forall r :: r in b ==> r.text != "")
    requires Characters(a) == Characters(b)
    ensures Projection(a) == Projection(b)
  {
    hide Projected, Stretches, Written, Characters;
    ProjectedIsWritten("", "", a);
    ProjectedIsWritten("", "", b);
    StretchesAreGroups("", "", a);
    StretchesAreGroups("", "", b);
  }

  /** An empty text with another target between two runs splits their stretch, though no character changed. */
  lemma EmptyTextSplits()
    ensures var a, b := [Piece("a", "u"), Piece("", "v"), Piece("b", "u")], [Piece("ab", "u")];
      Characters(a) == Characters(b) && Projection(a) != Projection(b)
  {
    var a, b := [Piece("a", "u"), Piece("", "v"), Piece("b", "u")], [Piece("ab", "u")];
    ProjectedIsWritten("", "", a);
    ProjectedIsWritten("", "", b);
    StretchesKeep("", "", a);
    StretchesKeep("", "", b);
    assert a[1..] == [Piece("", "v"), Piece("b", "u")] && a[1..][1..] == [Piece("b", "u")] && a[1..][1..][1..] == [];
    assert b[1..] == [];
    assert |Stretches("", "", a)| == 2 && |Stretches("", "", b)| == 1;
    if Projection(a) == Projection(b) {
      WrittenInjective(Stretches("", "", a), Stretches("", "", b));
    }
  }

  // --------------------------------------------------------- fresh ids and prefixes

  datatype Relationship = Relationship(id: string, hyperlink: bool, external: bool, target: string)

  function LinkId(n: nat): string {
    "rIdLink" + Numeral(n)
  }

  lemma LinkIdInjective(a: nat, b: nat)
    requires LinkId(a) == LinkId(b)
    ensures a == b
  {
    hide Numeral;
    SamePrefix("rIdLink", Numeral(a), "rIdLink", Numeral(b));
    NumeralInjective(a, b);
  }

  lemma {:induction false} UsedBound(used: set<string>, n: nat)
    requires forall j: nat :: 1 <= j < n ==> LinkId(j) in used
    ensures n <= |used| + 1
    decreases n
  {
    if n <= 1 {
    } else {
      var last := LinkId(n - 1);
      forall j: nat | 1 <= j < n - 1 ensures LinkId(j) in used - {last} {
        if LinkId(j) == last { LinkIdInjective(j, n - 1); }
      }
      UsedBound(used - {last}, n - 1);
    }
  }

  /** Relationship i is the first external hyperlink to the target. */
  predicate FirstTo(rels: seq<Relationship>, target: string, i: int) {
    && 0 <= i < |rels| && rels[i].external && rels[i].hyperlink && rels[i].target == target
    && forall j :: 0 <= j < i ==> !(rels[j].external && rels[j].hyperlink && rels[j].target == target)
  }

  /** The n-th generated id is the first that no relationship has. */
  ghost predicate FirstFree(rels: seq<Relationship>, n: nat) {
    && n >= 1 && !Taken(rels, "rIdLink" + Numeral(n))
    && forall m: nat :: 1 <= m < n ==> Taken(rels, "rIdLink" + Numeral(m))
  }

  predicate Taken(rels: seq<Relationship>, id: string) {
    exists i :: 0 <= i < |rels| && rels[i].id == id
  }

  /** The relationship to use: the first one that already leads to the target, else the first unused generated id. */
  method HyperlinkRelationship(rels: seq<Relationship>, target: string) returns (id: string, reused: bool)
    ensures reused ==> exists i :: FirstTo(rels, target, i) && id == rels[i].id
    ensures !reused ==> forall i :: 0 <= i < |rels| ==> !(rels[i].external && rels[i].hyperlink && rels[i].target == target)
    ensures !reused ==> exists n: nat :: FirstFree(rels, n) && id == "rIdLink" + Numeral(n)
  {
    hide Numeral;
    var used: set<string> := {};
    for i := 0 to |rels|
      invariant forall j :: 0 <= j < i ==> !(rels[j].external && rels[j].hyperlink && rels[j].target == target)
      invariant forall x :: x in used <==> exists j :: 0 <= j < i && rels[j].id == x
    {
      used := used + {rels[i].id};
      if rels[i].external && rels[i].hyperlink && rels[i].target == target {
        assert FirstTo(rels, target, i);
        return rels[i].id, true;
      }
    }
    var n := 1;
    id := LinkId(1);
    while id in used
      invariant n >= 1 && id == LinkId(n)
      invariant forall j: nat :: 1 <= j < n ==> LinkId(j) in used
      decreases |used| + 2 - n
    {
      UsedBound(used, n + 1);
      n := n + 1;
      id := LinkId(n);
    }
    forall m: nat | 1 <= m < n ensures Taken(rels, "rIdLink" + Numeral(m)) {
      assert LinkId(m) in used;
    }
    assert FirstFree(rels, n);
    reused := false;
  }

  /** The character x, n times. */
  function Xs(n: nat): string {
    if n == 0 then "" else Xs(n - 1) + "x"
  }

  /** The shortest namespace prefix, lengthened by x, that does not occur in the part. */
  method FreshPrefix(part: string) returns (prefix: string)
    ensures !Contains(part, prefix)
    ensures exists n: nat :: prefix == "injLink" + Xs(n) && forall m: nat :: m < n ==> Contains(part, "injLink" + Xs(m))
  {
    hide Contains;
    prefix := "injLink";
    ghost var n := 0;
    assert prefix == "injLink" + Xs(0);
    while Contains(part, prefix)
      invariant prefix == "injLink" + Xs(n) && |prefix| == n + 7
      invariant forall m: nat :: m < n ==> Contains(part, "injLink" + Xs(m))
      decreases |part| + 8 - |prefix|
    {
      Fits(part, prefix);
      prefix := prefix + "x";
      n := n + 1;
    }
  }

  lemma Fits(s: string, p: string)
    requires Contains(s, p)
    ensures |p| <= |s|
  {
  }
}
