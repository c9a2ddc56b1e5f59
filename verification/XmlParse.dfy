/** What the tree built from a token stream satisfies: nesting, places, and all of its marks. */
module XmlParse {
  import opened Prelude
  import opened Numerals
  import opened XmlTree

  lemma Snoc<T>(s: seq<T>, x: T)
    ensures (s + [x])[..|s + [x]| - 1] == s && (s + [x])[|s + [x]| - 1] == x
  {
  }

  // ------------------------------------------------------- intervals of open elements

  /** The decoder's offsets never go back, and a start tag ends after its '<'. */
  predicate Offsets(data: string, events: seq<Event>, at: int) {
    events != [] ==>
      var e := events[0];
      && at <= e.before <= e.after
      && (e.token.Start? ==> TokenStart(data, e.before, e.after) < e.after)
      && Offsets(data, events[1..], e.after)
  }

  predicate Spans(stack: seq<Frame>, hi: int)
    decreases |stack|
  {
    stack != [] ==>
      var n := Last(stack).node;
      InOrder(n.children, n.start + 1, hi) && Spans(Init(stack), n.start)
  }

  predicate SpansOk(m: Machine, at: int) {
    Spans(m.stack, at) && (m.root.Some? ==> Nested(m.root.value))
  }

  lemma InOrderGrows(cs: seq<Node>, lo: int, hi: int, hi': int)
    requires InOrder(cs, lo, hi) && hi <= hi'
    ensures InOrder(cs, lo, hi')
  {
  }

  lemma {:induction false} InOrderSpan(cs: seq<Node>, lo: int, hi: int)
    requires InOrder(cs, lo, hi)
    ensures lo <= hi
  {
    if cs == [] {
    } else {
      InOrderSpan(cs[..|cs| - 1], lo, cs[|cs| - 1].start);
    }
  }

  lemma SpansGrow(stack: seq<Frame>, hi: int, hi': int)
    requires Spans(stack, hi) && hi <= hi'
    ensures Spans(stack, hi')
  {
    if stack != [] {
      InOrderGrows(Last(stack).node.children, Last(stack).node.start + 1, hi, hi');
    }
  }

  lemma SpansTop(stack: seq<Frame>, f: Frame, hi: int)
    requires stack != [] && Spans(stack, hi)
    requires f.node.children == Last(stack).node.children && f.node.start == Last(stack).node.start
    ensures Spans(Init(stack) + [f], hi)
  {
    Snoc(Init(stack), f);
  }

  lemma SpansStart(digest: string -> string, m: Machine, name: Name, attrs: seq<Attr>, start: int, at: int, after: int)
    requires SpansOk(m, at) && at <= start < after && StartStep(digest, m, name, attrs, start).Success?
    ensures SpansOk(StartStep(digest, m, name, attrs, start).value, after)
  {
    hide StartError, PathOf, InOrder, Nested;
    var below := if m.stack == [] then [] else Init(m.stack) + [Bump(Last(m.stack), name)];
    SpansGrow(m.stack, at, start);
    if m.stack != [] { SpansTop(m.stack, Bump(Last(m.stack), name), start); }
    var f := Last(StartStep(digest, m, name, attrs, start).value.stack);
    Snoc(below, f);
    EmptyInOrder(start + 1, after);
  }

  lemma EmptyInOrder(lo: int, hi: int)
    requires lo <= hi
    ensures InOrder([], lo, hi)
  {
  }

  lemma ChildSpans(below: seq<Frame>, done: Node, hi: int)
    requires below != [] && Spans(below, done.start) && Nested(done) && done.end <= hi
    ensures Spans(Init(below) + [AddChild(Last(below), done)], hi)
  {
    hide Nested;
    var f := AddChild(Last(below), done);
    Snoc(Init(below), f);
    Snoc(Last(below).node.children, done);
  }

  lemma SpansEnd(m: Machine, at: int, end: int)
    requires SpansOk(m, at) && at <= end && EndStep(m, end).Success?
    ensures SpansOk(EndStep(m, end).value, end)
  {
    hide InOrder;
    var n := Last(m.stack).node;
    InOrderGrows(n.children, n.start + 1, at, end);
    InOrderSpan(n.children, n.start + 1, end);
    if |m.stack| > 1 { ChildSpans(Init(m.stack), n.(end := end), end); }
  }

  lemma SpansStep(digest: string -> string, data: string, m: Machine, e: Event, at: int)
    requires SpansOk(m, at) && at <= e.before <= e.after
    requires e.token.Start? ==> TokenStart(data, e.before, e.after) < e.after
    requires Step(digest, data, m, e).Success?
    ensures SpansOk(Step(digest, data, m, e).value, e.after)
  {
    hide SpansOk, StartStep, EndStep, TokenStart;
    match e.token
    case Start(name, attrs) =>
      StartAfterBefore(data, e);
      SpansStart(digest, m, name, attrs, TokenStart(data, e.before, e.after), at, e.after);
    case End => SpansEnd(m, at, e.after);
    case _ => SpansOther(digest, data, m, e, at);
  }

  lemma StartAfterBefore(data: string, e: Event)
    ensures e.before <= TokenStart(data, e.before, e.after)
  {
  }

  lemma SpansOther(digest: string -> string, data: string, m: Machine, e: Event, at: int)
    requires SpansOk(m, at) && at <= e.after && !e.token.Start? && !e.token.End? && Step(digest, data, m, e).Success?
    ensures SpansOk(Step(digest, data, m, e).value, e.after)
  {
    hide Nested, InOrder;
    SpansGrow(m.stack, at, e.after);
    if e.token.Chars? && m.stack != [] {
      var f := Last(m.stack);
      SpansTop(m.stack, f.(node := f.node.(text := f.node.text + e.token.text)), e.after);
    }
  }

  lemma {:induction false} SpansRun(digest: string -> string, data: string, m: Machine, events: seq<Event>, at: int)
    requires SpansOk(m, at) && Offsets(data, events, at) && Run(digest, data, m, events).Success?
    ensures exists hi :: SpansOk(Run(digest, data, m, events).value, hi)
    decreases |events|
  {
    hide SpansOk, Step;
    if events == [] {
    } else {
      SpansStep(digest, data, m, events[0], at);
      SpansRun(digest, data, Step(digest, data, m, events[0]).value, events[1..], events[0].after);
    }
  }

  /** Every element's interval strictly contains those of its children, which are disjoint and in order. */
  lemma ParsedIsNested(digest: string -> string, data: string, events: seq<Event>)
    requires Offsets(data, events, 0) && Parse(digest, data, events).Success?
    ensures Nested(Parse(digest, data, events).value)
  {
    hide Nested, Offsets;
    SpansRun(digest, data, IDLE, events, 0);
  }

  // ---------------------------------------------------------------- paths and limits

  function BumpCount(counts: map<Name, nat>, name: Name): map<Name, nat> {
    counts[name := CountOf(counts, name) + 1]
  }

  /** The counters after starting the given children. */
  function CountsFor(cs: seq<Node>): map<Name, nat> {
    if cs == [] then map[] else BumpCount(CountsFor(cs[..|cs| - 1]), cs[|cs| - 1].name)
  }

  lemma {:induction false} CountsForCount(cs: seq<Node>, name: Name)
    ensures CountOf(CountsFor(cs), name) == NameCount(cs, name)
  {
    if cs == [] {
    } else {
      CountsForCount(cs[..|cs| - 1], name);
    }
  }

  /** The counters of an open element agree with its children, the one that is open included. */
  predicate Counted(f: Frame, open: Option<Name>) {
    f.counts == if open.Some? then BumpCount(CountsFor(f.node.children), open.value) else CountsFor(f.node.children)
  }

  function ParentPath(below: seq<Frame>): string {
    if below == [] then "" else Last(below).node.path
  }

  function Ordinal(below: seq<Frame>, name: Name): nat {
    if below == [] then 1 else NameCount(Last(below).node.children, name) + 1
  }

  predicate FrameOk(digest: string -> string, f: Frame, below: seq<Frame>, open: Option<Name>) {
    && Counted(f, open)
    && NameOk(f.node.name, f.node.attrs) && |f.node.path| <= MAX_PATH
    && f.node.path == PathOf(digest, ParentPath(below), f.node.name, Ordinal(below, f.node.name))
    && PlacedUnder(digest, f.node.path, f.node.children)
    && BoundedAll(f.node.children, MAX_DEPTH - |below| - 1)
  }

  predicate StackOk(digest: string -> string, stack: seq<Frame>, open: Option<Name>)
    decreases |stack|
  {
    && |stack| <= MAX_DEPTH
    && (stack != [] ==> FrameOk(digest, Last(stack), Init(stack), open) && StackOk(digest, Init(stack), Some(Last(stack).node.name)))
  }

  predicate RootOk(digest: string -> string, n: Node) {
    Placed(digest, n) && Bounded(n, MAX_DEPTH) && n.path == PathOf(digest, "", n.name, 1)
  }

  predicate PlacedOk(digest: string -> string, m: Machine) {
    StackOk(digest, m.stack, None) && (m.root.Some? ==> RootOk(digest, m.root.value))
  }

  lemma BumpCounted(f: Frame, name: Name)
    requires Counted(f, None)
    ensures Counted(Bump(f, name), Some(name))
  {
  }

  lemma ReplaceTop(digest: string -> string, stack: seq<Frame>, f: Frame, open: Option<Name>, open': Option<Name>)
    requires stack != [] && StackOk(digest, stack, open) && Counted(f, open')
    requires f.node.children == Last(stack).node.children && f.node.path == Last(stack).node.path
    requires f.node.name == Last(stack).node.name && f.node.attrs == Last(stack).node.attrs
    ensures StackOk(digest, Init(stack) + [f], open')
  {
    hide Counted, PlacedUnder, BoundedAll, NameOk, PathOf;
    Snoc(Init(stack), f);
  }

  lemma PushOk(digest: string -> string, below: seq<Frame>, n: Node)
    requires |below| < MAX_DEPTH && StackOk(digest, below, Some(n.name))
    requires NameOk(n.name, n.attrs) && |n.path| <= MAX_PATH && n.children == []
    requires n.path == PathOf(digest, ParentPath(below), n.name, Ordinal(below, n.name))
    ensures StackOk(digest, below + [Frame(n, map[])], None)
  {
    hide NameOk, PathOf, Ordinal;
    Snoc(below, Frame(n, map[]));
  }

  lemma PlacedStart(digest: string -> string, m: Machine, name: Name, attrs: seq<Attr>, start: int)
    requires PlacedOk(digest, m) && StartStep(digest, m, name, attrs, start).Success?
    ensures PlacedOk(digest, StartStep(digest, m, name, attrs, start).value)
  {
    hide PathOf, RootOk, FrameOk;
    var below := if m.stack == [] then [] else Init(m.stack) + [Bump(Last(m.stack), name)];
    if m.stack != [] {
      TopCounted(digest, m.stack, None);
      BumpCounted(Last(m.stack), name);
      CountsForCount(Last(m.stack).node.children, name);
      ReplaceTop(digest, m.stack, Bump(Last(m.stack), name), None, Some(name));
      Snoc(Init(m.stack), Bump(Last(m.stack), name));
    }
    PushOk(digest, below, Last(StartStep(digest, m, name, attrs, start).value.stack).node);
  }

  lemma TopCounted(digest: string -> string, stack: seq<Frame>, open: Option<Name>)
    requires stack != [] && StackOk(digest, stack, open)
    ensures Counted(Last(stack), open)
  {
  }

  lemma AddCounted(f: Frame, done: Node)
    requires Counted(f, Some(done.name))
    ensures Counted(AddChild(f, done), None)
  {
    Snoc(f.node.children, done);
  }

  lemma AddPlaced(digest: string -> string, f: Frame, done: Node, d: int)
    requires PlacedUnder(digest, f.node.path, f.node.children) && Placed(digest, done)
    requires done.path == PathOf(digest, f.node.path, done.name, NameCount(f.node.children, done.name) + 1)
    requires BoundedAll(f.node.children, d) && Bounded(done, d)
    ensures PlacedUnder(digest, f.node.path, AddChild(f, done).node.children) && BoundedAll(AddChild(f, done).node.children, d)
  {
    hide Placed, Bounded, PathOf;
    Snoc(f.node.children, done);
  }

  lemma {:induction false} AddFrameOk(digest: string -> string, f: Frame, below: seq<Frame>, done: Node)
    requires FrameOk(digest, f, below, Some(done.name)) && Placed(digest, done)
    requires done.path == PathOf(digest, f.node.path, done.name, NameCount(f.node.children, done.name) + 1)
    requires Bounded(done, MAX_DEPTH - |below| - 1)
    ensures FrameOk(digest, AddChild(f, done), below, None)
  {
    hide Placed, Bounded, PathOf, Counted, PlacedUnder, BoundedAll, NameOk, Ordinal, NameCount;
    AddCounted(f, done);
    AddPlaced(digest, f, done, MAX_DEPTH - |below| - 1);
  }

  lemma {:induction false} AddChildOk(digest: string -> string, below: seq<Frame>, done: Node)
    requires below != [] && StackOk(digest, below, Some(done.name)) && Placed(digest, done)
    requires done.path == PathOf(digest, Last(below).node.path, done.name, NameCount(Last(below).node.children, done.name) + 1)
    requires Bounded(done, MAX_DEPTH - |below|)
    ensures StackOk(digest, Init(below) + [AddChild(Last(below), done)], None)
  {
    hide Placed, Bounded, PathOf, FrameOk, NameCount;
    Snoc(Init(below), AddChild(Last(below), done));
    AddFrameOk(digest, Last(below), Init(below), done);
  }

  lemma PlacedEnd(digest: string -> string, m: Machine, end: int)
    requires PlacedOk(digest, m) && EndStep(m, end).Success?
    ensures PlacedOk(digest, EndStep(m, end).value)
  {
    hide PathOf, Counted, PlacedUnder, BoundedAll, NameOk;
    var below := Init(m.stack);
    if below != [] { AddChildOk(digest, below, Last(m.stack).node.(end := end)); }
  }

  lemma PlacedChars(digest: string -> string, m: Machine, text: string)
    requires PlacedOk(digest, m) && CharsStep(m, text).Success?
    ensures PlacedOk(digest, CharsStep(m, text).value)
  {
    hide RootOk, FrameOk, Counted;
    if m.stack != [] {
      var f := Last(m.stack);
      var f' := f.(node := f.node.(text := f.node.text + text));
      TopCounted(digest, m.stack, None);
      SameCounted(f, f', None);
      ReplaceTop(digest, m.stack, f', None, None);
    }
  }

  lemma SameCounted(f: Frame, f': Frame, open: Option<Name>)
    requires Counted(f, open) && f'.counts == f.counts && f'.node.children == f.node.children
    ensures Counted(f', open)
  {
  }

  lemma {:induction false} PlacedRun(digest: string -> string, data: string, m: Machine, events: seq<Event>)
    requires PlacedOk(digest, m) && Run(digest, data, m, events).Success?
    ensures PlacedOk(digest, Run(digest, data, m, events).value)
    decreases |events|
  {
    hide PlacedOk, StartStep, EndStep, CharsStep, TokenStart;
    if events == [] {
    } else {
      var e := events[0];
      match e.token {
        case Start(name, attrs) => PlacedStart(digest, m, name, attrs, TokenStart(data, e.before, e.after));
        case End => PlacedEnd(digest, m, e.after);
        case Chars(text) => PlacedChars(digest, m, text);
        case _ =>
      }
      PlacedRun(digest, data, Step(digest, data, m, e).value, events[1..]);
    }
  }

  /** Paths follow the tree, and every limit holds of every node. */
  lemma ParsedIsPlaced(digest: string -> string, data: string, events: seq<Event>)
    requires Parse(digest, data, events).Success?
    ensures RootOk(digest, Parse(digest, data, events).value) && 0 < |data| <= 16777216
  {
    hide RootOk, StackOk;
    IdleOk(digest);
    PlacedRun(digest, data, IDLE, events);
  }

  lemma IdleOk(digest: string -> string)
    ensures PlacedOk(digest, IDLE)
  {
  }

  // ------------------------------------------------------------- nothing is lost

  /** The marks of all that has been read into open elements. */
  function FlattenStack(stack: seq<Frame>): seq<Mark>
    decreases |stack|
  {
    if stack == [] then []
    else
      var n := Last(stack).node;
      FlattenStack(Init(stack)) + ([Open(n.name, n.attrs, n.start)] + FlattenAll(n.children))
  }

  function StackSize(stack: seq<Frame>): nat
    decreases |stack|
  {
    if stack == [] then 0 else StackSize(Init(stack)) + 1 + SizeAll(Last(stack).node.children)
  }

  function MachineMarks(m: Machine): seq<Mark> {
    (if m.root.Some? then Flatten(m.root.value) else []) + FlattenStack(m.stack)
  }

  /** A second root is refused, so marks come in order; and the node counter is the number of nodes. */
  predicate ReadOk(m: Machine) {
    && (m.root.Some? ==> m.stack == [])
    && m.nodes == (if m.root.Some? then Size(m.root.value) else 0) + StackSize(m.stack)
    && m.nodes <= MAX_NODES
  }

  lemma SameTop(stack: seq<Frame>, f: Frame)
    requires stack != [] && f.node.children == Last(stack).node.children && f.node.name == Last(stack).node.name
    requires f.node.attrs == Last(stack).node.attrs && f.node.start == Last(stack).node.start
    ensures FlattenStack(Init(stack) + [f]) == FlattenStack(stack) && StackSize(Init(stack) + [f]) == StackSize(stack)
  {
    Snoc(Init(stack), f);
  }

  lemma ReadStart(digest: string -> string, m: Machine, name: Name, attrs: seq<Attr>, start: int)
    requires ReadOk(m) && StartStep(digest, m, name, attrs, start).Success?
    ensures var m' := StartStep(digest, m, name, attrs, start).value;
      ReadOk(m') && MachineMarks(m') == MachineMarks(m) + [Open(name, attrs, start)]
  {
    hide PathOf, Flatten, Size;
    var below := if m.stack == [] then [] else Init(m.stack) + [Bump(Last(m.stack), name)];
    if m.stack != [] { SameTop(m.stack, Bump(Last(m.stack), name)); }
    var f := Last(StartStep(digest, m, name, attrs, start).value.stack);
    Snoc(below, f);
    assert [Open(name, attrs, start)] + [] == [Open(name, attrs, start)];
  }

  lemma ChildMarks(below: seq<Frame>, done: Node)
    requires below != []
    ensures FlattenStack(Init(below) + [AddChild(Last(below), done)]) == FlattenStack(below) + Flatten(done)
    ensures StackSize(Init(below) + [AddChild(Last(below), done)]) == StackSize(below) + Size(done)
  {
    hide Flatten, Size;
    var n := Last(below).node;
    Snoc(Init(below), AddChild(Last(below), done));
    Snoc(n.children, done);
    Assoc4(FlattenStack(Init(below)), [Open(n.name, n.attrs, n.start)], FlattenAll(n.children), Flatten(done));
  }

  lemma Assoc4(a: seq<Mark>, b: seq<Mark>, c: seq<Mark>, d: seq<Mark>)
    ensures a + (b + (c + d)) == (a + (b + c)) + d
  {
  }

  lemma ReadEnd(m: Machine, end: int)
    requires ReadOk(m) && EndStep(m, end).Success?
    ensures var m' := EndStep(m, end).value;
      ReadOk(m') && MachineMarks(m') == MachineMarks(m) + [Close(end)]
  {
    var done, below := Last(m.stack).node.(end := end), Init(m.stack);
    if below == [] {
    } else {
      ChildMarks(below, done);
    }
  }

  lemma ReadChars(m: Machine, text: string)
    requires ReadOk(m) && CharsStep(m, text).Success?
    ensures var m' := CharsStep(m, text).value; ReadOk(m') && MachineMarks(m') == MachineMarks(m)
  {
    hide Flatten, Size;
    if m.stack != [] {
      var f := Last(m.stack);
      SameTop(m.stack, f.(node := f.node.(text := f.node.text + text)));
    }
  }

  lemma ReadStep(digest: string -> string, data: string, m: Machine, e: Event)
    requires ReadOk(m) && Step(digest, data, m, e).Success?
    ensures var m' := Step(digest, data, m, e).value;
      ReadOk(m') && MachineMarks(m') == MachineMarks(m) + MarkOf(data, e)
  {
    hide ReadOk, MachineMarks, StartStep, EndStep, CharsStep, TokenStart;
    match e.token
    case Start(name, attrs) => ReadStart(digest, m, name, attrs, TokenStart(data, e.before, e.after));
    case End => ReadEnd(m, e.after);
    case Chars(text) => ReadChars(m, text);
    case _ =>
  }

  lemma {:induction false} ReadRun(digest: string -> string, data: string, m: Machine, events: seq<Event>)
    requires ReadOk(m) && Run(digest, data, m, events).Success?
    ensures var m' := Run(digest, data, m, events).value;
      ReadOk(m') && MachineMarks(m') == MachineMarks(m) + Marks(data, events)
    decreases |events|
  {
    hide ReadOk, MachineMarks, Step, MarkOf;
    if events == [] {
    } else {
      ReadStep(digest, data, m, events[0]);
      ReadRun(digest, data, Step(digest, data, m, events[0]).value, events[1..]);
    }
  }

  /** The tree holds every start and end of the stream, in order and with its name, attributes and offsets. */
  lemma ParsedKeepsMarks(digest: string -> string, data: string, events: seq<Event>)
    requires Parse(digest, data, events).Success?
    ensures Flatten(Parse(digest, data, events).value) == Marks(data, events)
    ensures Size(Parse(digest, data, events).value) <= MAX_NODES
  {
    hide Flatten, Marks, Size, Run;
    ReadRun(digest, data, IDLE, events);
    var root := Parse(digest, data, events).value;
    assert MachineMarks(IDLE) == [];
    assert [] + Marks(data, events) == Marks(data, events);
    assert Flatten(root) + [] == Flatten(root);
  }
}
