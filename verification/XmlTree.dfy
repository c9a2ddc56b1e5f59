/** Anchored XML trees: nodes with byte intervals and paths, and the machine that builds them from tokens. */
module XmlTree {
  import opened Prelude
  import opened Numerals
  import opened Strings

  /** An expanded name. */
  datatype Name = Name(space: string, local: string)

  datatype Attr = Attr(name: Name, value: string)

  datatype Node = Node(name: Name, attrs: seq<Attr>, start: int, end: int, path: string, text: string, children: seq<Node>)

  datatype Token =
    | Start(name: Name, attrs: seq<Attr>)
    | End
    | Chars(text: string)
    | Directive
    | ProcInst(target: string)
    | Comment

  /** A token and the decoder's offsets before and after it. */
  datatype Event = Event(token: Token, before: int, after: int)

  datatype Error =
    | BadSize | OversizedName | TooManyAttributes | DuplicateAttribute | TooManyNodes | TooDeep | MultipleRoots
    | LongPath | UnmatchedEnd | TextOutsideRoot | ForbiddenDirective | ForbiddenInstruction | NoCompleteRoot

  const MAX_PART := 16 * 1024 * 1024
  const MAX_NODES := 100000
  const MAX_DEPTH := 64
  const MAX_PATH := 4096
  const MAX_LOCAL := 256
  const MAX_SPACE := 2048
  const MAX_ATTRS := 256

  const WORD_TRANSITIONAL := "http://schemas.openxmlformats.org/wordprocessingml/2006/main"
  const WORD_STRICT := "http://purl.oclc.org/ooxml/wordprocessingml/main"
  const REL_TRANSITIONAL := "http://schemas.openxmlformats.org/officeDocument/2006/relationships"
  const REL_STRICT := "http://purl.oclc.org/ooxml/officeDocument/relationships"
  const PACKAGE_RELS := "http://schemas.openxmlformats.org/package/2006/relationships"
  const PACKAGE_TYPES := "http://schemas.openxmlformats.org/package/2006/content-types"

  /** The qualified name used in paths; `digest` stands for the shortened hash of an unknown namespace. */
  function QName(digest: string -> string, name: Name): string {
    if name.space == WORD_TRANSITIONAL || name.space == WORD_STRICT then "w:" + name.local
    else if name.space == REL_TRANSITIONAL || name.space == REL_STRICT then "r:" + name.local
    else if name.space == PACKAGE_RELS then "pr:" + name.local
    else if name.space == PACKAGE_TYPES then "ct:" + name.local
    else "ns" + digest(name.space) + ":" + name.local
  }

  function Bracketed(q: string, k: nat): string {
    q + "[" + Numeral(k) + "]"
  }

  function Segment(digest: string -> string, name: Name, k: nat): string {
    Bracketed(QName(digest, name), k)
  }

  function PathOf(digest: string -> string, parent: string, name: Name, k: nat): string {
    parent + "/" + Segment(digest, name, k)
  }

  /** How a path is spelled in any other namespace. */
  lemma OtherPathSpelled(digest: string -> string, parent: string, name: Name, k: nat)
    requires name.space !in {
      "http://schemas.openxmlformats.org/wordprocessingml/2006/main", "http://purl.oclc.org/ooxml/wordprocessingml/main",
      "http://schemas.openxmlformats.org/officeDocument/2006/relationships", "http://purl.oclc.org/ooxml/officeDocument/relationships",
      "http://schemas.openxmlformats.org/package/2006/relationships", "http://schemas.openxmlformats.org/package/2006/content-types"
    }
    ensures PathOf(digest, parent, name, k) == parent + "/" + ("ns" + digest(name.space) + ":" + name.local + "[" + Numeral(k) + "]")
  {
    hide Numeral;
  }

  /** How a path is spelled: both Word namespaces share one prefix, both relationship namespaces another. */
  lemma PathSpelled(digest: string -> string, parent: string, local: string, k: nat)
    ensures PathOf(digest, parent, Name("http://schemas.openxmlformats.org/wordprocessingml/2006/main", local), k)
         == parent + "/" + ("w:" + local + "[" + Numeral(k) + "]")
    ensures PathOf(digest, parent, Name("http://purl.oclc.org/ooxml/wordprocessingml/main", local), k)
         == parent + "/" + ("w:" + local + "[" + Numeral(k) + "]")
    ensures PathOf(digest, parent, Name("http://schemas.openxmlformats.org/officeDocument/2006/relationships", local), k)
         == PathOf(digest, parent, Name("http://purl.oclc.org/ooxml/officeDocument/relationships", local), k)
         == parent + "/" + ("r:" + local + "[" + Numeral(k) + "]")
    ensures PathOf(digest, parent, Name("http://schemas.openxmlformats.org/package/2006/relationships", local), k)
         == parent + "/" + ("pr:" + local + "[" + Numeral(k) + "]")
    ensures PathOf(digest, parent, Name("http://schemas.openxmlformats.org/package/2006/content-types", local), k)
         == parent + "/" + ("ct:" + local + "[" + Numeral(k) + "]")
  {
    hide Numeral;
    assert |WORD_TRANSITIONAL| == 60 && |WORD_STRICT| == 48 && |REL_TRANSITIONAL| == 67 && |REL_STRICT| == 55;
    assert |PACKAGE_RELS| == 60 && |PACKAGE_TYPES| == 60;
    assert PACKAGE_RELS[34] != WORD_TRANSITIONAL[34] && PACKAGE_TYPES[34] != WORD_TRANSITIONAL[34] && PACKAGE_TYPES[47] != PACKAGE_RELS[47];
  }

  /** Where the token's markup starts: its '<', when there is one. */
  function TokenStart(data: string, before: int, after: int): (r: int)
    ensures before <= r
    ensures before <= after ==> r == before || r < after
  {
    if before < 0 || after < before || after > |data| then before
    else
      match IndexOf(data[before..after], "<", 0)
      case Some(offset) => before + offset
      case None => before
  }

  /** An element begins at the first opening bracket of its token. */
  lemma TokenStartIs(data: string, before: nat, after: nat)
    requires before <= after <= |data| && exists j :: before <= j < after && data[j] == '<'
    ensures var r := TokenStart(data, before, after);
      before <= r < after && data[r] == '<' && forall j :: before <= j < r ==> data[j] != '<'
  {
    var x := data[before..after];
    forall j | 0 <= j < |x| ensures At(x, "<", j) <==> data[before + j] == '<' {
      assert x[j..j + 1] == [x[j]];
    }
    var j :| before <= j < after && data[j] == '<';
    assert At(x, "<", j - before);
    var offset := IndexOf(x, "<", 0).value;
    forall i | before <= i < before + offset ensures data[i] != '<' {
      assert !At(x, "<", i - before) && x[i - before] == data[i];
    }
  }

  predicate Whitespace(s: string) {
    forall k :: 0 <= k < |s| ==> s[k] == ' ' || s[k] == '\t' || s[k] == '\r' || s[k] == '\n'
  }

  predicate IsXml(target: string) {
    |target| == 3 && target[0] in "xX" && target[1] in "mM" && target[2] in "lL"
  }

  predicate DistinctAttrs(attrs: seq<Attr>) {
    forall i, j :: 0 <= i < j < |attrs| ==> attrs[i].name != attrs[j].name
  }

  // ---------------------------------------------------------------- the machine

  /** An element whose end has not been seen, with the number of children started per expanded name. */
  datatype Frame = Frame(node: Node, counts: map<Name, nat>)

  datatype Machine = Machine(root: Option<Node>, stack: seq<Frame>, nodes: nat)

  const IDLE := Machine(None, [], 0)

  function CountOf(counts: map<Name, nat>, name: Name): nat {
    if name in counts then counts[name] else 0
  }

  predicate Started(m: Machine) {
    m.root.Some? || m.stack != []
  }

  function Bump(f: Frame, name: Name): Frame {
    f.(counts := f.counts[name := CountOf(f.counts, name) + 1])
  }

  function Last(stack: seq<Frame>): Frame
    requires stack != []
  {
    stack[|stack| - 1]
  }

  function Init(stack: seq<Frame>): seq<Frame>
    requires stack != []
  {
    stack[..|stack| - 1]
  }

  function StartError(m: Machine, name: Name, attrs: seq<Attr>): Option<Error> {
    if name.local == "" || |name.local| > MAX_LOCAL || |name.space| > MAX_SPACE then Some(OversizedName)
    else if |attrs| > MAX_ATTRS then Some(TooManyAttributes)
    else if !DistinctAttrs(attrs) then Some(DuplicateAttribute)
    else if m.nodes + 1 > MAX_NODES then Some(TooManyNodes)
    else if |m.stack| >= MAX_DEPTH then Some(TooDeep)
    else if m.stack == [] && m.root.Some? then Some(MultipleRoots)
    else None
  }

  function StartStep(digest: string -> string, m: Machine, name: Name, attrs: seq<Attr>, start: int): Result<Machine, Error> {
    if StartError(m, name, attrs).Some? then Failure(StartError(m, name, attrs).value)
    else
      var below := if m.stack == [] then [] else Init(m.stack) + [Bump(Last(m.stack), name)];
      var path := if m.stack == [] then PathOf(digest, "", name, 1)
                  else PathOf(digest, Last(m.stack).node.path, name, CountOf(Last(m.stack).counts, name) + 1);
      if |path| > MAX_PATH then Failure(LongPath)
      else Success(Machine(m.root, below + [Frame(Node(name, attrs, start, 0, path, "", []), map[])], m.nodes + 1))
  }

  /** Which elements are refused. */
  lemma StartRefused(digest: string -> string, m: Machine, name: Name, attrs: seq<Attr>, start: int)
    ensures var path := if m.stack == [] then PathOf(digest, "", name, 1)
                        else var f := m.stack[|m.stack| - 1]; PathOf(digest, f.node.path, name, CountOf(f.counts, name) + 1);
      StartStep(digest, m, name, attrs, start).Failure?
      <==>
      (|| name.local == "" || |name.local| > 256 || |name.space| > 2048 || |attrs| > 256
       || (exists i, j :: 0 <= i < j < |attrs| && attrs[i].name == attrs[j].name)
       || m.nodes >= 100000 || |m.stack| >= 64 || (m.stack == [] && m.root.Some?) || |path| > 4096)
  {
    hide PathOf;
  }

  function AddChild(f: Frame, child: Node): Frame {
    f.(node := f.node.(children := f.node.children + [child]))
  }

  function EndStep(m: Machine, end: int): Result<Machine, Error> {
    if m.stack == [] then Failure(UnmatchedEnd)
    else
      var done := Last(m.stack).node.(end := end);
      var below := Init(m.stack);
      if below == [] then Success(Machine(Some(done), [], m.nodes))
      else Success(Machine(m.root, Init(below) + [AddChild(Last(below), done)], m.nodes))
  }

  function CharsStep(m: Machine, text: string): Result<Machine, Error> {
    if m.stack == [] then
      if Whitespace(text) then Success(m) else Failure(TextOutsideRoot)
    else
      var f := Last(m.stack);
      Success(m.(stack := Init(m.stack) + [f.(node := f.node.(text := f.node.text + text))]))
  }

  function Step(digest: string -> string, data: string, m: Machine, e: Event): Result<Machine, Error> {
    match e.token
    case Start(name, attrs) => StartStep(digest, m, name, attrs, TokenStart(data, e.before, e.after))
    case End => EndStep(m, e.after)
    case Chars(text) => CharsStep(m, text)
    case Directive => Failure(ForbiddenDirective)
    case ProcInst(target) => if !IsXml(target) || Started(m) then Failure(ForbiddenInstruction) else Success(m)
    case Comment => Success(m)
  }

  /**
   * What is not an element: comments are passed over, declarations only before the root and in any case of letters,
   * blanks outside the root; directives, other instructions and other text outside the root are refused; text inside
   * is added to the innermost element.
   */
  lemma OtherTokens(digest: string -> string, data: string, m: Machine, text: string, before: int, after: int)
    ensures Step(digest, data, m, Event(Comment, before, after)) == Success(m)
    ensures Step(digest, data, m, Event(Directive, before, after)) == Failure(ForbiddenDirective)
    ensures Step(digest, data, m, Event(ProcInst(text), before, after))
         == if m.root.None? && m.stack == [] && text in {"xml", "xmL", "xMl", "xML", "Xml", "XmL", "XMl", "XML"} then Success(m)
            else Failure(ForbiddenInstruction)
    ensures m.stack == [] ==>
      Step(digest, data, m, Event(Chars(text), before, after))
        == if forall k :: 0 <= k < |text| ==> text[k] in " \t\r\n" then Success(m) else Failure(TextOutsideRoot)
    ensures m.stack != [] ==>
      var f := m.stack[|m.stack| - 1];
      Step(digest, data, m, Event(Chars(text), before, after))
        == Success(m.(stack := m.stack[..|m.stack| - 1] + [f.(node := f.node.(text := f.node.text + text))]))
  {
    XmlInAnyCase(text);
    assert forall c: char :: c in " \t\r\n" <==> c == ' ' || c == '\t' || c == '\r' || c == '\n';
  }

  lemma XmlInAnyCase(t: string)
    ensures IsXml(t) <==> t in {"xml", "xmL", "xMl", "xML", "Xml", "XmL", "XMl", "XML"}
  {
    assert forall c: char :: c in "xX" <==> c == 'x' || c == 'X';
    assert forall c: char :: c in "mM" <==> c == 'm' || c == 'M';
    assert forall c: char :: c in "lL" <==> c == 'l' || c == 'L';
    if |t| == 3 {
      assert t == [t[0], t[1], t[2]];
    }
  }

  function Run(digest: string -> string, data: string, m: Machine, events: seq<Event>): Result<Machine, Error>
    decreases |events|
  {
    if events == [] then Success(m)
    else
      match Step(digest, data, m, events[0])
      case Failure(e) => Failure(e)
      case Success(m') => Run(digest, data, m', events[1..])
  }

  function Finish(m: Machine): Result<Node, Error> {
    if m.root.None? || m.stack != [] || m.root.value.end <= m.root.value.start then Failure(NoCompleteRoot)
    else Success(m.root.value)
  }

  function Parse(digest: string -> string, data: string, events: seq<Event>): Result<Node, Error> {
    if data == "" || |data| > MAX_PART then Failure(BadSize)
    else
      match Run(digest, data, IDLE, events)
      case Failure(e) => Failure(e)
      case Success(m) => Finish(m)
  }

  // ----------------------------------------------------------------- trees

  datatype Mark = Open(name: Name, attrs: seq<Attr>, start: int) | Close(end: int)

  function Flatten(n: Node): seq<Mark>
    decreases n, 1
  {
    [Open(n.name, n.attrs, n.start)] + FlattenAll(n.children) + [Close(n.end)]
  }

  function FlattenAll(cs: seq<Node>): seq<Mark>
    decreases cs, 0
  {
    if cs == [] then [] else FlattenAll(cs[..|cs| - 1]) + Flatten(cs[|cs| - 1])
  }

  function MarkOf(data: string, e: Event): seq<Mark> {
    match e.token
    case Start(name, attrs) => [Open(name, attrs, TokenStart(data, e.before, e.after))]
    case End => [Close(e.after)]
    case _ => []
  }

  /** The start and end marks of a token stream. */
  function Marks(data: string, events: seq<Event>): seq<Mark> {
    if events == [] then [] else MarkOf(data, events[0]) + Marks(data, events[1..])
  }

  /** Children lie one after the other within [lo, hi), each properly nested in itself. */
  predicate InOrder(cs: seq<Node>, lo: int, hi: int)
    decreases cs, 0
  {
    if cs == [] then lo <= hi
    else
      var c := cs[|cs| - 1];
      c.end <= hi && Nested(c) && InOrder(cs[..|cs| - 1], lo, c.start)
  }

  predicate Nested(n: Node)
    decreases n, 1
  {
    n.start < n.end && InOrder(n.children, n.start + 1, n.end)
  }

  function NameCount(cs: seq<Node>, name: Name): nat {
    if cs == [] then 0
    else NameCount(cs[..|cs| - 1], name) + if cs[|cs| - 1].name == name then 1 else 0
  }

  /** Every child carries its parent's path, its own name and its number among the siblings of that name. */
  predicate Placed(digest: string -> string, n: Node)
    decreases n, 1
  {
    PlacedUnder(digest, n.path, n.children)
  }

  predicate PlacedUnder(digest: string -> string, parent: string, cs: seq<Node>)
    decreases cs, 0
  {
    cs != [] ==>
      var c, before := cs[|cs| - 1], cs[..|cs| - 1];
      && c.path == PathOf(digest, parent, c.name, NameCount(before, c.name) + 1)
      && Placed(digest, c)
      && PlacedUnder(digest, parent, before)
  }

  predicate NameOk(name: Name, attrs: seq<Attr>) {
    0 < |name.local| <= MAX_LOCAL && |name.space| <= MAX_SPACE && |attrs| <= MAX_ATTRS && DistinctAttrs(attrs)
  }

  /** At most d levels, every node within the limits on names, attributes and paths. */
  predicate Bounded(n: Node, d: int)
    decreases n, 1
  {
    d >= 1 && NameOk(n.name, n.attrs) && |n.path| <= MAX_PATH && BoundedAll(n.children, d - 1)
  }

  predicate BoundedAll(cs: seq<Node>, d: int)
    decreases cs, 0
  {
    cs == [] || (Bounded(cs[|cs| - 1], d) && BoundedAll(cs[..|cs| - 1], d))
  }

  function Size(n: Node): nat
    decreases n, 1
  {
    1 + SizeAll(n.children)
  }

  function SizeAll(cs: seq<Node>): nat
    decreases cs, 0
  {
    if cs == [] then 0 else SizeAll(cs[..|cs| - 1]) + Size(cs[|cs| - 1])
  }
}
