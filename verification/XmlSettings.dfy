/** A settings part in which a path leads to the wrong node. */
module XmlSettings {
  import opened Prelude
  import opened Numerals
  import opened Strings
  import opened XmlTree
  import opened XmlParse
  import opened XmlWrite
  import opened XmlPaths
  import opened XmlGuard

  /** The settings that are diagnosed as repeated: those with an earlier sibling of the same expanded name. */
  predicate Repeated(root: Node, word: string, i: nat) {
    && i < |root.children|
    && (exists j :: 0 <= j < i && root.children[j].name == root.children[i].name)
    && root.children[i].name != Name(word, "activeWritingStyle")
  }

  // ------------------------------------------------------------------------- the part

  const OPENING := "<w:settings xmlns:w=\"" + WORD_TRANSITIONAL + "\" xmlns:s=\"" + WORD_STRICT + "\">"
  const OWN := "<w:zoom/>"
  const FOREIGN := "<s:zoom/>"
  const CLOSING := "</w:settings>"

  /** A zoom and its repetition in each of the two Word namespaces. */
  const PART := OPENING + (OWN + (OWN + (FOREIGN + (FOREIGN + CLOSING))))

  const DECLARED := [Attr(Name("xmlns", "w"), WORD_TRANSITIONAL), Attr(Name("xmlns", "s"), WORD_STRICT)]

  /** Where the k-th zoom starts, and where the one before it ends. */
  function Mark(k: nat): nat {
    |OPENING| + 9 * k
  }

  function ZoomEvents(space: string, k: nat): seq<Event> {
    [Event(Start(Name(space, "zoom"), []), Mark(k), Mark(k + 1)), Event(End, Mark(k + 1), Mark(k + 1))]
  }

  /** What a tokenizer reads from the part: an empty tag is a start and an end at its closing bracket. */
  function Events(): seq<Event> {
    [Event(Start(Name(WORD_TRANSITIONAL, "settings"), DECLARED), 0, |OPENING|)]
    + (ZoomEvents(WORD_TRANSITIONAL, 0) + ZoomEvents(WORD_TRANSITIONAL, 1) + ZoomEvents(WORD_STRICT, 2) + ZoomEvents(WORD_STRICT, 3))
    + [Event(End, Mark(4), |PART|)]
  }

  /** Every token has its markup in the part. */
  lemma MarkupAt()
    ensures |PART| == Mark(4) + |CLOSING| && PART[..Mark(0)] == OPENING && PART[Mark(4)..] == CLOSING
    ensures PART[Mark(0)..Mark(1)] == OWN && PART[Mark(1)..Mark(2)] == OWN
    ensures PART[Mark(2)..Mark(3)] == FOREIGN && PART[Mark(3)..Mark(4)] == FOREIGN
  {
    Pieces(OPENING, OWN, OWN, FOREIGN, FOREIGN, CLOSING);
  }

  lemma Pieces(x: string, a: string, b: string, c: string, d: string, z: string)
    requires |a| == 9 && |b| == 9 && |c| == 9 && |d| == 9
    ensures var s, n := x + (a + (b + (c + (d + z)))), |x|;
      && |s| == n + 36 + |z| && s[..n] == x && s[n..n + 9] == a && s[n + 9..n + 18] == b
      && s[n + 18..n + 27] == c && s[n + 27..n + 36] == d && s[n + 36..] == z
  {
    var s, n := x + (a + (b + (c + (d + z)))), |x|;
    Inside(s, 0, x, a + (b + (c + (d + z))));
    Inside(s, n, a, b + (c + (d + z)));
    Inside(s, n + 9, b, c + (d + z));
    Inside(s, n + 18, c, d + z);
    Inside(s, n + 27, d, z);
  }

  lemma Inside(s: string, at: nat, x: string, z: string)
    requires at <= |s| && s[at..] == x + z
    ensures at + |x| <= |s| && s[at..at + |x|] == x && s[at + |x|..] == z
  {
    var rest := s[at..];
    assert s[at..at + |x|] == rest[..|x|];
    assert s[at + |x|..] == rest[|x|..];
  }

  // ------------------------------------------------------------------------ its tree

  function Zoom(digest: string -> string, parent: string, space: string, k: nat, number: nat): Node {
    Node(Name(space, "zoom"), [], Mark(k), Mark(k + 1), PathOf(digest, parent, Name(space, "zoom"), number), "", [])
  }

  function Tree(digest: string -> string): Node {
    var name := Name(WORD_TRANSITIONAL, "settings");
    var path := PathOf(digest, "", name, 1);
    Node(name, DECLARED, 0, |PART|, path, "", [
      Zoom(digest, path, WORD_TRANSITIONAL, 0, 1), Zoom(digest, path, WORD_TRANSITIONAL, 1, 2),
      Zoom(digest, path, WORD_STRICT, 2, 1), Zoom(digest, path, WORD_STRICT, 3, 2)])
  }

  lemma TwoDialects()
    ensures WORD_TRANSITIONAL != WORD_STRICT
  {
    assert |WORD_TRANSITIONAL| != |WORD_STRICT|;
  }

  lemma ZoomPath(digest: string -> string, parent: string, space: string)
    requires IsWord(space)
    ensures PathOf(digest, parent, Name(space, "zoom"), 1) == parent + "/" + "w:zoom[1]"
    ensures PathOf(digest, parent, Name(space, "zoom"), 2) == parent + "/" + "w:zoom[2]"
  {
    assert Numeral(1) == "1" && Numeral(2) == "2";
    assert "w:" + "zoom" == "w:zoom";
  }

  lemma RootPath(digest: string -> string)
    ensures PathOf(digest, "", Name(WORD_TRANSITIONAL, "settings"), 1) == "/w:settings[1]"
  {
    NumeralOne();
    hide Numeral;
    var q := QName(digest, Name(WORD_TRANSITIONAL, "settings"));
    assert q == "w:settings";
    assert q + "[" + "1" + "]" == "w:settings[1]";
  }

  lemma NumeralOne()
    ensures Numeral(1) == "1"
  {
  }

  lemma TreePaths(digest: string -> string)
    ensures var t := Tree(digest);
      && t.path == "/w:settings[1]"
      && t.children[1].path == t.path + "/" + "w:zoom[2]" && t.children[3].path == t.children[1].path
      && t.children[0].path == t.path + "/" + "w:zoom[1]" && t.children[2].path == t.children[0].path
  {
    hide PathOf;
    RootPath(digest);
    ZoomPath(digest, Tree(digest).path, WORD_TRANSITIONAL);
    ZoomPath(digest, Tree(digest).path, WORD_STRICT);
  }

  lemma LeafPlaced(digest: string -> string, n: Node)
    requires n.children == []
    ensures Placed(digest, n)
  {
  }

  lemma TreePlaced(digest: string -> string)
    ensures Placed(digest, Tree(digest))
  {
    hide PathOf, Placed, NameCount;
    TwoDialects();
    var t := Tree(digest);
    var cs := t.children;
    LeafPlaced(digest, cs[0]);
    LeafPlaced(digest, cs[1]);
    LeafPlaced(digest, cs[2]);
    LeafPlaced(digest, cs[3]);
    FourPlaced(digest, t.path, cs[0], cs[1], cs[2], cs[3]);
    PlacedIs(digest, t);
  }

  lemma FourCounts(a: Node, b: Node, c: Node, name: Name)
    ensures NameCount([], name) == 0
    ensures NameCount([a], name) == if a.name == name then 1 else 0
    ensures NameCount([a, b], name) == NameCount([a], name) + if b.name == name then 1 else 0
    ensures NameCount([a, b, c], name) == NameCount([a, b], name) + if c.name == name then 1 else 0
  {
    hide NameCount;
    NoneCounted([], name);
    CountSnoc([], a, name);
    CountSnoc([a], b, name);
    CountSnoc([a, b], c, name);
    assert [] + [a] == [a] && [a] + [b] == [a, b] && [a, b] + [c] == [a, b, c];
  }

  lemma FourPlaced(digest: string -> string, parent: string, a: Node, b: Node, c: Node, d: Node)
    requires Placed(digest, a) && Placed(digest, b) && Placed(digest, c) && Placed(digest, d)
    requires a.name == b.name && c.name == d.name && a.name != c.name
    requires a.path == PathOf(digest, parent, a.name, 1) && b.path == PathOf(digest, parent, b.name, 2)
    requires c.path == PathOf(digest, parent, c.name, 1) && d.path == PathOf(digest, parent, d.name, 2)
    ensures PlacedUnder(digest, parent, [a, b, c, d])
  {
    hide PathOf, Placed, NameCount, PlacedUnder;
    var one, two, three := [a], [a, b], [a, b, c];
    assert NameCount([], a.name) == 0 && NameCount(one, b.name) == 1 && NameCount(two, c.name) == 0 && NameCount(three, d.name) == 1 by {
      FourCounts(a, b, c, a.name);
      FourCounts(a, b, c, c.name);
    }
    NothingPlaced(digest, parent);
    OneMorePlaced(digest, parent, [], a, one, 1);
    OneMorePlaced(digest, parent, one, b, two, 2);
    OneMorePlaced(digest, parent, two, c, three, 1);
    OneMorePlaced(digest, parent, three, d, [a, b, c, d], 2);
  }

  lemma OneMorePlaced(digest: string -> string, parent: string, cs: seq<Node>, c: Node, all: seq<Node>, number: nat)
    requires all == cs + [c] && PlacedUnder(digest, parent, cs) && Placed(digest, c)
    requires NameCount(cs, c.name) + 1 == number && c.path == PathOf(digest, parent, c.name, number)
    ensures PlacedUnder(digest, parent, all)
  {
    hide PathOf, Placed, NameCount;
    assert all[..|cs|] == cs;
  }

  lemma NothingPlaced(digest: string -> string, parent: string)
    ensures PlacedUnder(digest, parent, [])
  {
  }

  lemma PlacedIs(digest: string -> string, n: Node)
    ensures Placed(digest, n) <==> PlacedUnder(digest, n.path, n.children)
  {
  }

  lemma CountSnoc(cs: seq<Node>, c: Node, name: Name)
    ensures NameCount(cs + [c], name) == NameCount(cs, name) + if c.name == name then 1 else 0
  {
    assert (cs + [c])[..|cs|] == cs;
  }

  lemma TreeBounded(digest: string -> string)
    ensures Bounded(Tree(digest), MAX_DEPTH) && Size(Tree(digest)) == 5
  {
    hide PathOf, BoundedAll, SizeAll, NameOk, Zoom;
    RootPath(digest);
    ZoomBounded(digest, WORD_TRANSITIONAL, 0, 1);
    ZoomBounded(digest, WORD_TRANSITIONAL, 1, 2);
    ZoomBounded(digest, WORD_STRICT, 2, 1);
    ZoomBounded(digest, WORD_STRICT, 3, 2);
    var cs := Tree(digest).children;
    FourBounded(cs[0], cs[1], cs[2], cs[3], MAX_DEPTH - 1);
    DeclaredOk();
  }

  lemma ZoomBounded(digest: string -> string, space: string, k: nat, number: nat)
    requires IsWord(space) && (number == 1 || number == 2)
    ensures var n := Zoom(digest, "/w:settings[1]", space, k, number); Bounded(n, MAX_DEPTH - 1) && Size(n) == 1
  {
    hide PathOf;
    ZoomPath(digest, "/w:settings[1]", space);
    LeafBounded(Zoom(digest, "/w:settings[1]", space, k, number));
  }

  lemma FourBounded(a: Node, b: Node, c: Node, d: Node, n: int)
    requires Bounded(a, n) && Bounded(b, n) && Bounded(c, n) && Bounded(d, n)
    requires Size(a) == Size(b) == Size(c) == Size(d) == 1
    ensures BoundedAll([a, b, c, d], n) && SizeAll([a, b, c, d]) == 4
  {
    hide Bounded, BoundedAll, Size, SizeAll;
    NothingBounded(n);
    BoundedSnoc([], a, n);
    BoundedSnoc([a], b, n);
    BoundedSnoc([a, b], c, n);
    BoundedSnoc([a, b, c], d, n);
    assert [] + [a] == [a] && [a] + [b] == [a, b] && [a, b] + [c] == [a, b, c] && [a, b, c] + [d] == [a, b, c, d];
  }

  lemma NothingBounded(d: int)
    ensures BoundedAll([], d) && SizeAll([]) == 0
  {
  }

  lemma LeafBounded(n: Node)
    requires NameOk(n.name, n.attrs) && |n.path| <= MAX_PATH && n.children == []
    ensures Bounded(n, MAX_DEPTH - 1) && Size(n) == 1
  {
  }

  lemma BoundedSnoc(cs: seq<Node>, c: Node, d: int)
    ensures BoundedAll(cs + [c], d) <==> BoundedAll(cs, d) && Bounded(c, d)
    ensures SizeAll(cs + [c]) == SizeAll(cs) + Size(c)
  {
    assert (cs + [c])[..|cs|] == cs;
  }

  lemma DeclaredOk()
    ensures NameOk(Name(WORD_TRANSITIONAL, "settings"), DECLARED)
  {
    assert "w"[0] != "s"[0];
  }

  // ---------------------------------------------------------------------- its parsing

  lemma TagThere(before: nat, after: nat)
    requires before < after <= |PART| && PART[before] == '<'
    ensures TokenStart(PART, before, after) == before
  {
    var s := PART[before..after];
    assert s[0] == '<' && s[0..1] == "<";
    IndexOfIs(s, "<", 0, 0);
  }

  /** A start counts from its bracket, wherever its token ends. */
  lemma SameStep(digest: string -> string, m: Machine, name: Name, attrs: seq<Attr>, before: nat, after: nat, after': nat)
    requires before < after <= |PART| && before < after' <= |PART| && PART[before] == '<'
    ensures Step(digest, PART, m, Event(Start(name, attrs), before, after)) == Step(digest, PART, m, Event(Start(name, attrs), before, after'))
  {
    hide StartStep;
    TagThere(before, after);
    TagThere(before, after');
  }

  predicate StepsAlike(es: seq<Event>, fs: seq<Event>) {
    |es| == |fs| && forall i :: 0 <= i < |es| ==> Alike(es[i], fs[i])
  }

  /** Ends at one place, or starts of one tag at one bracket. */
  predicate Alike(e: Event, f: Event) {
    e == f || (e.token.End? && f.token.End? && e.after == f.after)
    || (e.token.Start? && e.token == f.token && e.before == f.before && 0 <= e.before < e.after <= |PART|
        && e.before < f.after <= |PART| && PART[e.before] == '<')
  }

  lemma AlikeStep(digest: string -> string, m: Machine, e: Event, f: Event)
    requires Alike(e, f)
    ensures Step(digest, PART, m, e) == Step(digest, PART, m, f)
  {
    hide StartStep, EndStep;
    if e != f && e.token.Start? { SameStep(digest, m, e.token.name, e.token.attrs, e.before, e.after, f.after); }
  }

  lemma {:induction false} AlikeRuns(digest: string -> string, m: Machine, es: seq<Event>, fs: seq<Event>)
    requires StepsAlike(es, fs)
    ensures Run(digest, PART, m, es) == Run(digest, PART, m, fs)
    decreases |es|
  {
    hide Step, Alike;
    if es == [] {
    } else {
      AlikeStep(digest, m, es[0], fs[0]);
      match Step(digest, PART, m, es[0])
      case Failure(_) =>
      case Success(m') => AlikeRuns(digest, m', es[1..], fs[1..]);
    }
  }

  lemma WriteLeaf(n: Node)
    requires n.children == [] && n.text == ""
    ensures Write(n) == [StartTag(n), Event(End, n.end, n.end)]
  {
    assert [StartTag(n)] + ([] + ([] + [Event(End, n.end, n.end)])) == [StartTag(n), Event(End, n.end, n.end)];
  }

  lemma WriteSnoc(cs: seq<Node>, c: Node)
    ensures WriteAll(cs + [c]) == WriteAll(cs) + Write(c)
  {
    hide Write;
    assert (cs + [c])[..|cs|] == cs;
  }

  lemma WriteFour(a: Node, b: Node, c: Node, d: Node)
    ensures WriteAll([a, b, c, d]) == Write(a) + Write(b) + Write(c) + Write(d)
  {
    hide Write, WriteAll;
    WriteNone();
    WriteSnoc([], a);
    WriteSnoc([a], b);
    WriteSnoc([a, b], c);
    WriteSnoc([a, b, c], d);
    assert [] + [a] == [a] && [a] + [b] == [a, b] && [a, b] + [c] == [a, b, c] && [a, b, c] + [d] == [a, b, c, d];
    assert [] + Write(a) == Write(a);
  }

  lemma WriteNone()
    ensures WriteAll([]) == []
  {
  }

  lemma OpensThere()
    ensures PART[0] == '<' && PART[Mark(0)] == '<' && PART[Mark(1)] == '<' && PART[Mark(2)] == '<' && PART[Mark(3)] == '<'
  {
    MarkupAt();
    First(0, Mark(0));
    First(Mark(0), Mark(1));
    First(Mark(1), Mark(2));
    First(Mark(2), Mark(3));
    First(Mark(3), Mark(4));
    assert OPENING[0] == '<' && OWN[0] == '<' && FOREIGN[0] == '<';
  }

  lemma First(a: nat, b: nat)
    requires a < b <= |PART|
    ensures PART[a] == PART[a..b][0]
  {
  }

  function Flat(space: string, k: nat): seq<Event> {
    [Event(Start(Name(space, "zoom"), []), Mark(k), Mark(k) + 1), Event(End, Mark(k + 1), Mark(k + 1))]
  }

  lemma WriteZoom(digest: string -> string, parent: string, space: string, k: nat, number: nat)
    ensures Write(Zoom(digest, parent, space, k, number)) == Flat(space, k)
  {
    hide PathOf, Write, Mark;
    WriteLeaf(Zoom(digest, parent, space, k, number));
  }

  lemma WriteTree(digest: string -> string)
    ensures Write(Tree(digest)) ==
      [Event(Start(Name(WORD_TRANSITIONAL, "settings"), DECLARED), 0, 1)]
      + (Flat(WORD_TRANSITIONAL, 0) + Flat(WORD_TRANSITIONAL, 1) + Flat(WORD_STRICT, 2) + Flat(WORD_STRICT, 3))
      + [Event(End, |PART|, |PART|)]
  {
    hide PathOf, WriteAll, Zoom, Flat;
    var t := Tree(digest);
    var cs := t.children;
    WriteFour(cs[0], cs[1], cs[2], cs[3]);
    WriteZoom(digest, t.path, WORD_TRANSITIONAL, 0, 1);
    WriteZoom(digest, t.path, WORD_TRANSITIONAL, 1, 2);
    WriteZoom(digest, t.path, WORD_STRICT, 2, 1);
    WriteZoom(digest, t.path, WORD_STRICT, 3, 2);
    assert cs == [cs[0], cs[1], cs[2], cs[3]];
  }

  lemma EventsAlike(digest: string -> string)
    ensures StepsAlike(Events(), Write(Tree(digest)))
  {
    hide WriteAll, Write;
    WriteTree(digest);
    MarkupAt();
    OpensThere();
    hide PART;
    Marks();
  }

  lemma Marks()
    ensures 0 < Mark(0) < Mark(1) < Mark(2) < Mark(3) < Mark(4)
  {
  }

  lemma OffsetsCons(e: Event, rest: seq<Event>, at: int)
    requires at <= e.before <= e.after && (e.token.Start? ==> TokenStart(PART, e.before, e.after) < e.after)
    requires Offsets(PART, rest, e.after)
    ensures Offsets(PART, [e] + rest, at)
  {
    hide PART;
    assert ([e] + rest)[1..] == rest;
  }

  lemma OffsetsZoom(space: string, k: nat, rest: seq<Event>)
    requires k < 4 && PART[Mark(k)] == '<' && Mark(4) <= |PART| && Offsets(PART, rest, Mark(k + 1))
    ensures Offsets(PART, ZoomEvents(space, k) + rest, Mark(k))
  {
    var es := ZoomEvents(space, k);
    TagThere(Mark(k), Mark(k + 1));
    hide PART;
    OffsetsCons(es[1], rest, Mark(k + 1));
    OffsetsCons(es[0], [es[1]] + rest, Mark(k));
    assert es + rest == [es[0]] + ([es[1]] + rest);
  }

  lemma OffsetsHold()
    ensures Offsets(PART, Events(), 0)
  {
    MarkupAt();
    OpensThere();
    TagThere(0, |OPENING|);
    hide PART;
    Marks();
    var last := [Event(End, Mark(4), |PART|)];
    var none: seq<Event> := [];
    assert Offsets(PART, none, |PART|);
    OffsetsCons(last[0], none, Mark(4));
    assert [last[0]] + none == last;
    var a, b, c, d := ZoomEvents(WORD_TRANSITIONAL, 0), ZoomEvents(WORD_TRANSITIONAL, 1), ZoomEvents(WORD_STRICT, 2), ZoomEvents(WORD_STRICT, 3);
    hide ZoomEvents;
    OffsetsZoom(WORD_STRICT, 3, last);
    OffsetsZoom(WORD_STRICT, 2, d + last);
    OffsetsZoom(WORD_TRANSITIONAL, 1, c + (d + last));
    OffsetsZoom(WORD_TRANSITIONAL, 0, b + (c + (d + last)));
    var first := Event(Start(Name(WORD_TRANSITIONAL, "settings"), DECLARED), 0, |OPENING|);
    OffsetsCons(first, a + (b + (c + (d + last))), 0);
    assert Events() == [first] + (a + (b + (c + (d + last))));
  }

  lemma TreeParsed(digest: string -> string)
    ensures Parse(digest, PART, Events()) == Success(Tree(digest))
  {
    MarkupAt();
    PartSize();
    hide PART, Run, Write, Placed, Bounded, Size, PathOf, StepsAlike, Zoom;
    var t := Tree(digest);
    TreePlaced(digest);
    TreeBounded(digest);
    ReadsBack(digest, PART, t);
    EventsAlike(digest);
    AlikeRuns(digest, IDLE, Events(), Write(t));
  }

  lemma PartSize()
    ensures 0 < |PART| <= MAX_PART
  {
  }

  lemma TreeGuarded(digest: string -> string)
    ensures Spoofed(None, Tree(digest), WORD_TRANSITIONAL, SETTINGS_GUARD) == None
  {
    hide PathOf, PART;
    var t := Tree(digest);
    NotListed();
    forall k | 0 <= k < |t.children| ensures Spoofed(Some(t.name), t.children[k], WORD_TRANSITIONAL, SETTINGS_GUARD) == None {
      var c := t.children[k];
      assert c.name.local == "zoom" && c.children == [];
      assert SpoofedChild(c, WORD_TRANSITIONAL, SETTINGS_GUARD, 0) == None;
    }
    ChildrenPass(t, WORD_TRANSITIONAL, SETTINGS_GUARD, 0);
  }

  lemma NotListed()
    ensures "zoom" !in SETTINGS_NAMES
  {
    assert forall x :: x in SETTINGS_NAMES ==> x[0] != 'z';
    assert "zoom"[0] == 'z';
  }

  lemma RepeatsDiagnosed(digest: string -> string)
    ensures var t := Tree(digest); Repeated(t, WORD_TRANSITIONAL, 1) && Repeated(t, WORD_TRANSITIONAL, 3)
  {
    hide PathOf, PART;
    var t := Tree(digest);
    assert t.children[0].name == t.children[1].name && t.children[2].name == t.children[3].name;
    assert |"zoom"| != |"activeWritingStyle"|;
  }

  lemma OwnFound(digest: string -> string)
    ensures var t := Tree(digest); NodeByPath(t, t.children[3].path) == Some(t.children[1])
  {
    hide PathOf, PART;
    var t := Tree(digest);
    TreePaths(digest);
    var p := t.children[3].path;
    assert t.path + "/" == p[..|t.path| + 1];
    assert p[|t.path| + 1..] == "w:zoom[2]" && t.children[0].path[|t.path| + 1..] == "w:zoom[1]";
    assert "w:zoom[1]"[7] == '1' && "w:zoom[2]"[7] == '2';
    assert t.children[0].path != p && !(t.children[0].path + "/" <= p);
    assert FirstChild(t, p, 1) == Some(t.children[1]);
    assert FirstChild(t, p, 0) == FirstChild(t, p, 1);
  }

  /**
   * The part is parsed to its tree and passes the guard of settings parts. The repetition in each namespace is
   * diagnosed, both at one path, and looking that path up finds Word's own.
   */
  lemma RepeatsCollide(digest: string -> string)
    ensures var t := Tree(digest);
      && Offsets(PART, Events(), 0) && Parse(digest, PART, Events()) == Success(t)
      && Spoofed(None, t, WORD_TRANSITIONAL, SETTINGS_GUARD) == None
      && Repeated(t, WORD_TRANSITIONAL, 1) && Repeated(t, WORD_TRANSITIONAL, 3)
      && t.children[1].path == t.children[3].path && t.children[1] != t.children[3]
      && NodeByPath(t, t.children[3].path) == Some(t.children[1])
  {
    OffsetsHold();
    TreeParsed(digest);
    TreeGuarded(digest);
    RepeatsDiagnosed(digest);
    OwnFound(digest);
    TreePaths(digest);
    hide PART, Parse, Spoofed, Offsets, NodeByPath, PathOf, Repeated;
    TwoDialects();
  }
}
