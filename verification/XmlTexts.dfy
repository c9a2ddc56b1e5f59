/** The text of elements. */
module XmlTexts {
  import opened Prelude
  import opened XmlTree

  /** The texts of the elements of a tree, each when its element ends. */
  function Texts(n: Node): seq<string>
    decreases n, 1
  {
    TextsAll(n.children) + [n.text]
  }

  function TextsAll(cs: seq<Node>): seq<string>
    decreases cs, 0
  {
    if cs == [] then [] else TextsAll(cs[..|cs| - 1]) + Texts(cs[|cs| - 1])
  }

  /** What stands between the tags of each element itself, when it ends; `open` holds what the open ones have so far. */
  function Between(events: seq<Event>, open: seq<string>): seq<string>
    decreases |events|
  {
    if events == [] then []
    else
      match events[0].token
      case Start(_, _) => Between(events[1..], open + [""])
      case End => if open == [] then [] else [open[|open| - 1]] + Between(events[1..], open[..|open| - 1])
      case Chars(text) =>
        Between(events[1..], if open == [] then open else open[..|open| - 1] + [open[|open| - 1] + text])
      case _ => Between(events[1..], open)
  }

  function OpenTexts(stack: seq<Frame>): seq<string> {
    if stack == [] then [] else OpenTexts(stack[..|stack| - 1]) + [stack[|stack| - 1].node.text]
  }

  /** The texts of the elements that have ended inside the open ones. */
  function Ended(stack: seq<Frame>): seq<string> {
    if stack == [] then [] else Ended(stack[..|stack| - 1]) + TextsAll(stack[|stack| - 1].node.children)
  }

  function Seen(m: Machine): seq<string> {
    (if m.root.Some? then Texts(m.root.value) else []) + Ended(m.stack)
  }

  /** The root is finished last. */
  predicate RootLast(m: Machine) {
    m.stack != [] ==> m.root.None?
  }

  lemma SnocStack(stack: seq<Frame>, f: Frame)
    ensures OpenTexts(stack + [f]) == OpenTexts(stack) + [f.node.text]
    ensures Ended(stack + [f]) == Ended(stack) + TextsAll(f.node.children)
  {
    assert (stack + [f])[..|stack|] == stack;
  }

  lemma OpensText(digest: string -> string, m: Machine, name: Name, attrs: seq<Attr>, start: int)
    requires RootLast(m) && StartStep(digest, m, name, attrs, start).Success?
    ensures var m' := StartStep(digest, m, name, attrs, start).value;
      RootLast(m') && OpenTexts(m'.stack) == OpenTexts(m.stack) + [""] && Seen(m') == Seen(m)
  {
    hide PathOf, Texts, TextsAll, StartError;
    var m' := StartStep(digest, m, name, attrs, start).value;
    var top := m'.stack[|m'.stack| - 1];
    var below := m'.stack[..|m'.stack| - 1];
    assert m'.stack == below + [top];
    NoTexts();
    SnocStack(below, top);
    if m.stack != [] {
      assert below == Init(m.stack) + [Bump(Last(m.stack), name)];
      SnocStack(Init(m.stack), Bump(Last(m.stack), name));
    }
    assert Ended(below) + [] == Ended(below);
    assert StartError(m, name, attrs).None? && m'.root.None? by { NotTwice(digest, m, name, attrs, start); }
  }

  lemma NoTexts()
    ensures TextsAll([]) == []
  {
  }

  lemma NotTwice(digest: string -> string, m: Machine, name: Name, attrs: seq<Attr>, start: int)
    requires RootLast(m) && StartStep(digest, m, name, attrs, start).Success?
    ensures StartError(m, name, attrs).None? && m.root.None?
  {
    hide PathOf;
  }

  lemma ClosesText(m: Machine, end: int)
    requires RootLast(m) && EndStep(m, end).Success?
    ensures m.stack != [] && |OpenTexts(m.stack)| == |m.stack|
    ensures var m' := EndStep(m, end).value;
      RootLast(m') && OpenTexts(m'.stack) == OpenTexts(m.stack)[..|m.stack| - 1]
      && Seen(m') == Seen(m) + [OpenTexts(m.stack)[|m.stack| - 1]]
  {
    hide Texts, TextsAll;
    var m' := EndStep(m, end).value;
    var top, below := Last(m.stack), Init(m.stack);
    var done := top.node.(end := end);
    OneOpen(m.stack);
    OneOpen(below);
    TextsOf(done);
    if below == [] {
      assert Ended(m.stack) == [] + TextsAll(top.node.children);
    } else {
      var f := AddChild(Last(below), done);
      SnocStack(Init(below), f);
      assert m'.stack == Init(below) + [f];
      ChildrenSnoc(Last(below).node.children, done);
      assert m.stack == below + [top] && below == Init(below) + [Last(below)];
      SnocStack(below, top);
      SnocStack(Init(below), Last(below));
      Regroup(Ended(Init(below)), TextsAll(Last(below).node.children), TextsAll(top.node.children), [top.node.text]);
      assert [] + Ended(m.stack) == Ended(m.stack) && [] + Ended(m'.stack) == Ended(m'.stack);
    }
  }

  lemma {:induction false} OneOpen(stack: seq<Frame>)
    ensures |OpenTexts(stack)| == |stack|
  {
    if stack == [] {
    } else {
      OneOpen(stack[..|stack| - 1]);
    }
  }

  lemma TextsOf(n: Node)
    ensures Texts(n) == TextsAll(n.children) + [n.text]
  {
  }

  lemma ChildrenSnoc(cs: seq<Node>, c: Node)
    ensures TextsAll(cs + [c]) == TextsAll(cs) + Texts(c)
  {
    hide Texts;
    assert (cs + [c])[..|cs|] == cs;
  }

  lemma Regroup(a: seq<string>, b: seq<string>, c: seq<string>, d: seq<string>)
    ensures ((a + b) + c) + d == a + (b + (c + d))
  {
  }

  lemma AddsText(m: Machine, text: string)
    requires RootLast(m) && CharsStep(m, text).Success?
    ensures var m' := CharsStep(m, text).value;
      RootLast(m') && Seen(m') == Seen(m)
      && |OpenTexts(m.stack)| == |m.stack|
      && OpenTexts(m'.stack) ==
           if m.stack == [] then [] else OpenTexts(m.stack)[..|m.stack| - 1] + [OpenTexts(m.stack)[|m.stack| - 1] + text]
  {
    hide Texts, TextsAll;
    OneOpen(m.stack);
    if m.stack != [] {
      var f := Last(m.stack);
      var g := f.(node := f.node.(text := f.node.text + text));
      OneOpen(Init(m.stack));
      SnocStack(Init(m.stack), g);
    }
  }

  lemma {:induction false} RunTexts(digest: string -> string, data: string, m: Machine, events: seq<Event>)
    requires RootLast(m) && Run(digest, data, m, events).Success?
    ensures var m' := Run(digest, data, m, events).value;
      RootLast(m') && Seen(m') == Seen(m) + Between(events, OpenTexts(m.stack))
    decreases |events|
  {
    hide StartStep, EndStep, CharsStep, TokenStart, Seen, OpenTexts, RootLast;
    if events == [] {
    } else {
      var e := events[0];
      OneOpen(m.stack);
      match e.token {
        case Start(name, attrs) => OpensText(digest, m, name, attrs, TokenStart(data, e.before, e.after));
        case End => ClosesText(m, e.after);
        case Chars(text) => AddsText(m, text);
        case _ =>
      }
      RunTexts(digest, data, Step(digest, data, m, e).value, events[1..]);
    }
  }

  /** In a parsed tree every element has exactly the text that stands between its own tags, joined in order. */
  lemma ParsedKeepsText(digest: string -> string, data: string, events: seq<Event>)
    requires Parse(digest, data, events).Success?
    ensures Texts(Parse(digest, data, events).value) == Between(events, [])
  {
    hide Run, Between, Texts;
    RunTexts(digest, data, IDLE, events);
    var root := Parse(digest, data, events).value;
    assert Texts(root) + [] == Texts(root);
    assert [] + Between(events, []) == Between(events, []);
  }
}
