/**
 The parsing loop with its stack of open elements and their counters, one token
 at a time, up to the first limit that is broken.
 */
module XmlParser {
  import opened Prelude
  import opened XmlTree

  lemma Unrolled(digest: string -> string, data: string, m: Machine, events: seq<Event>, i: nat)
    requires i < |events|
    ensures var step := Step(digest, data, m, events[i]);
      Run(digest, data, m, events[i..]) ==
        if step.Failure? then Failure(step.error) else Run(digest, data, step.value, events[i + 1..])
  {
    hide Step;
    assert events[i..][0] == events[i] && events[i..][1..] == events[i + 1..];
  }

  /** Pushes a new element, or says why it is refused. */
  method StartElement(digest: string -> string, root: Option<Node>, stack: seq<Frame>, nodes: nat,
                      name: Name, attrs: seq<Attr>, start: int)
    returns (r: Result<seq<Frame>, Error>)
    ensures var step := StartStep(digest, Machine(root, stack, nodes), name, attrs, start);
      r == if step.Failure? then Failure(step.error) else Success(step.value.stack)
    ensures r.Success? ==> StartStep(digest, Machine(root, stack, nodes), name, attrs, start).value == Machine(root, r.value, nodes + 1)
  {
    hide PathOf, DistinctAttrs;
    if name.local == "" || |name.local| > MAX_LOCAL || |name.space| > MAX_SPACE {
      return Failure(OversizedName);
    }
    if |attrs| > MAX_ATTRS {
      return Failure(TooManyAttributes);
    }
    var seenAttrs := AttrsDistinct(attrs);
    if !seenAttrs {
      return Failure(DuplicateAttribute);
    }
    if nodes + 1 > MAX_NODES {
      return Failure(TooManyNodes);
    }
    if |stack| >= MAX_DEPTH {
      return Failure(TooDeep);
    }
    var node := Node(name, attrs, start, 0, "", "", []);
    var below: seq<Frame> := stack;
    if |stack| == 0 {
      if root.Some? {
        return Failure(MultipleRoots);
      }
      node := node.(path := PathOf(digest, "", name, 1));
    } else {
      var parent := Bump(stack[|stack| - 1], name);
      below := stack[..|stack| - 1] + [parent];
      node := node.(path := PathOf(digest, parent.node.path, name, parent.counts[name]));
    }
    if |node.path| > MAX_PATH {
      return Failure(LongPath);
    }
    return Success(below + [Frame(node, map[])]);
  }

  /** The attribute loop: stops at the first name seen before. */
  method AttrsDistinct(attrs: seq<Attr>) returns (distinct: bool)
    ensures distinct == DistinctAttrs(attrs)
    ensures distinct <==> forall i, j :: 0 <= i < j < |attrs| ==> attrs[i].name != attrs[j].name
  {
    var seen: set<Name> := {};
    for i := 0 to |attrs|
      invariant DistinctAttrs(attrs[..i])
      invariant seen == set j | 0 <= j < i :: attrs[j].name
    {
      if attrs[i].name in seen {
        return false;
      }
      seen := seen + {attrs[i].name};
    }
    assert attrs[..|attrs|] == attrs;
    return true;
  }

  method ParseXml(digest: string -> string, data: string, events: seq<Event>) returns (r: Result<Node, Error>)
    ensures r == Parse(digest, data, events)
  {
    hide StartStep, PathOf, QName, TokenStart, Run, Whitespace;
    if |data| == 0 || |data| > MAX_PART {
      return Failure(BadSize);
    }
    var root: Option<Node> := None;
    var stack: seq<Frame> := [];
    var nodes := 0;
    assert events[0..] == events;
    for i := 0 to |events|
      invariant Run(digest, data, Machine(root, stack, nodes), events[i..]) == Run(digest, data, IDLE, events)
    {
      Unrolled(digest, data, Machine(root, stack, nodes), events, i);
      var e := events[i];
      match e.token
      case Start(name, attrs) =>
        var pushed := StartElement(digest, root, stack, nodes, name, attrs, TokenStart(data, e.before, e.after));
        if pushed.Failure? {
          return Failure(pushed.error);
        }
        stack := pushed.value;
        nodes := nodes + 1;
      case End =>
        if |stack| == 0 {
          return Failure(UnmatchedEnd);
        }
        var node := stack[|stack| - 1].node.(end := e.after);
        stack := stack[..|stack| - 1];
        if |stack| == 0 {
          root := Some(node);
        } else {
          stack := stack[..|stack| - 1] + [AddChild(stack[|stack| - 1], node)];
        }
      case Chars(text) =>
        if |stack| == 0 {
          if !Whitespace(text) {
            return Failure(TextOutsideRoot);
          }
        } else {
          var top := stack[|stack| - 1];
          stack := stack[..|stack| - 1] + [top.(node := top.node.(text := top.node.text + text))];
        }
      case Directive =>
        return Failure(ForbiddenDirective);
      case ProcInst(target) =>
        if !IsXml(target) || root.Some? || |stack| > 0 {
          return Failure(ForbiddenInstruction);
        }
      case Comment =>
    }
    RunEnds(digest, data, Machine(root, stack, nodes), events);
    if root.None? || |stack| != 0 || root.value.end <= root.value.start {
      return Failure(NoCompleteRoot);
    }
    return Success(root.value);
  }

  lemma RunEnds(digest: string -> string, data: string, m: Machine, events: seq<Event>)
    ensures Run(digest, data, m, events[|events|..]) == Success(m)
  {
  }
}
