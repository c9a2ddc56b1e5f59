/** Completeness: the token stream of any tree within the limits is read back as that tree. */
module XmlWrite {
  import opened Prelude
  import opened XmlTree
  import opened XmlParse

  function StartTag(n: Node): Event {
    Event(Start(n.name, n.attrs), n.start, n.start + 1)
  }

  function TextEvents(n: Node): seq<Event> {
    if n.text == "" then [] else [Event(Chars(n.text), n.start + 1, n.start + 1)]
  }

  /** The tags and texts of a tree, in document order. */
  function Write(n: Node): seq<Event>
    decreases n, 1
  {
    [StartTag(n)] + (TextEvents(n) + (WriteAll(n.children) + [Event(End, n.end, n.end)]))
  }

  function WriteAll(cs: seq<Node>): seq<Event>
    decreases cs, 0
  {
    if cs == [] then [] else WriteAll(cs[..|cs| - 1]) + Write(cs[|cs| - 1])
  }

  /** The machine in which the next element is about to be read, and may be. */
  predicate Expects(digest: string -> string, m: Machine, n: Node) {
    && (m.stack == [] ==> m.root.None? && n.path == PathOf(digest, "", n.name, 1))
    && (m.stack != [] ==>
          n.path == PathOf(digest, Last(m.stack).node.path, n.name, CountOf(Last(m.stack).counts, n.name) + 1))
    && Bounded(n, MAX_DEPTH - |m.stack|) && m.nodes + Size(n) <= MAX_NODES
  }

  function Below(m: Machine, name: Name): seq<Frame> {
    if m.stack == [] then [] else Init(m.stack) + [Bump(Last(m.stack), name)]
  }

  function Opened(m: Machine, n: Node): Machine {
    Machine(m.root, Below(m, n.name) + [Frame(n.(end := 0, children := []), map[])], m.nodes + 1)
  }

  function Filled(m: Machine, cs: seq<Node>): Machine
    requires m.stack != []
  {
    Machine(m.root, Init(m.stack) + [Frame(Last(m.stack).node.(children := cs), CountsFor(cs))], m.nodes + SizeAll(cs))
  }

  function Closed(m: Machine, n: Node): Machine {
    if m.stack == [] then Machine(Some(n), [], m.nodes + Size(n))
    else Machine(m.root, Init(m.stack) + [AddChild(Bump(Last(m.stack), n.name), n)], m.nodes + Size(n))
  }

  lemma RunFirst(digest: string -> string, data: string, m: Machine, e: Event, rest: seq<Event>)
    requires Step(digest, data, m, e).Success?
    ensures Run(digest, data, m, [e] + rest) == Run(digest, data, Step(digest, data, m, e).value, rest)
  {
    hide Step;
    assert ([e] + rest)[1..] == rest;
  }

  lemma StartTagAt(data: string, n: Node)
    ensures TokenStart(data, n.start, n.start + 1) == n.start
  {
  }

  lemma {:induction false} OpenStep(digest: string -> string, data: string, m: Machine, n: Node)
    requires Expects(digest, m, n)
    ensures Step(digest, data, m, StartTag(n)) == Success(Opened(m, n.(text := "")))
  {
    hide PathOf, TokenStart, BoundedAll, SizeAll;
    StartTagAt(data, n);
  }

  lemma TextStep(digest: string -> string, data: string, m: Machine, n: Node)
    ensures Step(digest, data, Opened(m, n.(text := "")), Event(Chars(n.text), n.start + 1, n.start + 1)) == Success(Opened(m, n))
  {
    var f := Frame(n.(text := "", end := 0, children := []), map[]);
    Snoc(Below(m, n.name), f);
    assert "" + n.text == n.text;
  }

  lemma {:induction false} OpenAll(digest: string -> string, data: string, m: Machine, n: Node, rest: seq<Event>)
    requires Expects(digest, m, n)
    ensures Run(digest, data, m, [StartTag(n)] + (TextEvents(n) + rest)) == Run(digest, data, Opened(m, n), rest)
  {
    hide Step, Opened, Expects, StartTag, Run;
    OpenStep(digest, data, m, n);
    RunFirst(digest, data, m, StartTag(n), TextEvents(n) + rest);
    if n.text == "" {
      assert TextEvents(n) + rest == rest;
      assert n.(text := "") == n;
    } else {
      TextStep(digest, data, m, n);
      RunFirst(digest, data, Opened(m, n.(text := "")), Event(Chars(n.text), n.start + 1, n.start + 1), rest);
    }
  }

  lemma {:induction false} CloseStep(digest: string -> string, data: string, m: Machine, n: Node)
    ensures Step(digest, data, Filled(Opened(m, n), n.children), Event(End, n.end, n.end)) == Success(Closed(m, n))
  {
    hide CountsFor, SizeAll;
    Snoc(Below(m, n.name), Frame(n.(end := 0, children := []), map[]));
    Snoc(Below(m, n.name), Frame(n.(end := 0), CountsFor(n.children)));
    assert n.(end := 0, children := []).(children := n.children) == n.(end := 0);
    if m.stack != [] { Snoc(Init(m.stack), Bump(Last(m.stack), n.name)); }
  }

  lemma Group(a: seq<Event>, b: seq<Event>, c: seq<Event>, d: seq<Event>, rest: seq<Event>)
    ensures (a + (b + (c + d))) + rest == a + (b + (c + (d + rest)))
  {
    assert (c + d) + rest == c + (d + rest);
    assert (b + (c + d)) + rest == b + ((c + d) + rest);
  }

  /** Reading one element, whatever follows it. */
  lemma {:induction false} RunNode(digest: string -> string, data: string, m: Machine, n: Node, rest: seq<Event>)
    requires Expects(digest, m, n) && Placed(digest, n)
    ensures Run(digest, data, m, Write(n) + rest) == Run(digest, data, Closed(m, n), rest)
    decreases n, 1
  {
    hide Step, Closed, Expects, Run, StartTag, TextEvents, WriteAll;
    var end := Event(End, n.end, n.end);
    Group([StartTag(n)], TextEvents(n), WriteAll(n.children), [end], rest);
    OpenAll(digest, data, m, n, WriteAll(n.children) + ([end] + rest));
    OpenedTop(digest, m, n);
    RunAll(digest, data, Opened(m, n), n.children, [end] + rest);
    CloseStep(digest, data, m, n);
    RunFirst(digest, data, Filled(Opened(m, n), n.children), end, rest);
  }

  lemma {:induction false} OpenedTop(digest: string -> string, m: Machine, n: Node)
    requires Expects(digest, m, n) && Placed(digest, n)
    ensures var o := Opened(m, n);
      && o.stack != [] && |o.stack| == |m.stack| + 1
      && Last(o.stack).node.path == n.path && Last(o.stack).node.children == [] && Last(o.stack).counts == map[]
      && PlacedUnder(digest, n.path, n.children)
      && BoundedAll(n.children, MAX_DEPTH - |o.stack|) && o.nodes + SizeAll(n.children) <= MAX_NODES
  {
    hide PathOf, PlacedUnder, BoundedAll, SizeAll;
    Snoc(Below(m, n.name), Frame(n.(end := 0, children := []), map[]));
  }

  /** Reading the children of the element on top. */
  lemma {:induction false} RunAll(digest: string -> string, data: string, m: Machine, cs: seq<Node>, rest: seq<Event>)
    requires m.stack != [] && Last(m.stack).node.children == [] && Last(m.stack).counts == map[]
    requires PlacedUnder(digest, Last(m.stack).node.path, cs)
    requires BoundedAll(cs, MAX_DEPTH - |m.stack|) && m.nodes + SizeAll(cs) <= MAX_NODES
    ensures Run(digest, data, m, WriteAll(cs) + rest) == Run(digest, data, Filled(m, cs), rest)
    decreases cs, 0
  {
    hide Run, Write, Filled, PathOf, Expects, Closed;
    if cs == [] {
      assert WriteAll(cs) + rest == rest;
      FilledNone(m);
    } else {
      var c, before := cs[|cs| - 1], cs[..|cs| - 1];
      assert WriteAll(cs) + rest == WriteAll(before) + (Write(c) + rest);
      RunAll(digest, data, m, before, Write(c) + rest);
      FilledExpects(digest, m, cs);
      RunNode(digest, data, Filled(m, before), c, rest);
      FilledNext(m, cs);
    }
  }

  lemma FilledNone(m: Machine)
    requires m.stack != [] && Last(m.stack).node.children == [] && Last(m.stack).counts == map[]
    ensures Filled(m, []) == m
  {
  }

  lemma {:induction false} FilledExpects(digest: string -> string, m: Machine, cs: seq<Node>)
    requires m.stack != [] && cs != []
    requires PlacedUnder(digest, Last(m.stack).node.path, cs)
    requires BoundedAll(cs, MAX_DEPTH - |m.stack|) && m.nodes + SizeAll(cs) <= MAX_NODES
    ensures Expects(digest, Filled(m, cs[..|cs| - 1]), cs[|cs| - 1])
  {
    hide PathOf, CountsFor, Bounded, Size, Placed;
    var c, before := cs[|cs| - 1], cs[..|cs| - 1];
    Snoc(Init(m.stack), Frame(Last(m.stack).node.(children := before), CountsFor(before)));
    CountsForCount(before, c.name);
  }

  lemma {:induction false} FilledNext(m: Machine, cs: seq<Node>)
    requires m.stack != [] && cs != []
    ensures Closed(Filled(m, cs[..|cs| - 1]), cs[|cs| - 1]) == Filled(m, cs)
  {
    hide Size;
    var c, before := cs[|cs| - 1], cs[..|cs| - 1];
    var f := Frame(Last(m.stack).node.(children := before), CountsFor(before));
    Snoc(Init(m.stack), f);
    assert before + [c] == cs;
  }

  /** Every placed tree within the limits is the result of reading its own tags and texts. */
  lemma ReadsBack(digest: string -> string, data: string, n: Node)
    requires 0 < |data| <= 16777216
    requires RootOk(digest, n) && Size(n) <= 100000 && n.start < n.end
    ensures Parse(digest, data, Write(n)) == Success(n)
  {
    hide Run, Write, Bounded, Placed, PathOf, Size;
    RunNode(digest, data, IDLE, n, []);
    assert Write(n) + [] == Write(n);
    assert Run(digest, data, Closed(IDLE, n), []) == Success(Closed(IDLE, n)) by { RunNothing(digest, data, Closed(IDLE, n)); }
  }

  lemma RunNothing(digest: string -> string, data: string, m: Machine)
    ensures Run(digest, data, m, []) == Success(m)
  {
  }
}
