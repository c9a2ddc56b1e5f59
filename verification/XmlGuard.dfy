/** The guard against foreign look-alikes, and what it is worth. */
module XmlGuard {
  import opened Prelude
  import opened Numerals
  import opened XmlTree
  import opened XmlPaths

  /** Local names that only Word's own namespace may use in a story part. */
  const STORY_NAMES: set<string> := {
    "document", "body", "p", "r", "t", "tbl", "tr", "tc", "sectPr", "hdr", "ftr",
    "footnotes", "footnote", "endnotes", "endnote", "comments", "comment"
  }

  /** Local names that only Word's own namespace may use in the settings part. */
  const SETTINGS_NAMES: set<string> := {
    "settings", "defaultTabStop", "mirrorMargins", "gutterAtTop", "evenAndOddHeaders", "compat", "compatSetting",
    "noColumnBalance", "characterSpacingControl", "decimalSymbol", "listSeparator", "themeFontLang", "shapeDefaults",
    "hdrShapeDefaults", "activeWritingStyle", "stylePaneFormatFilter", "removeDateAndTime", "uiCompat97To2003",
    "bordersDoNotSurroundHeader", "bordersDoNotSurroundFooter", "doNotUseMarginsForDrawingGridOrigin",
    "displayHorizontalDrawingGridEvery", "displayVerticalDrawingGridEvery", "drawingGridHorizontalSpacing",
    "drawingGridVerticalSpacing", "drawingGridHorizontalOrigin", "drawingGridVerticalOrigin"
  }

  /** The names guarded, and whether mathematics directly in a paragraph is passed over. */
  datatype Guard = Guard(known: set<string>, skipsMath: bool)

  const STORY_GUARD := Guard(STORY_NAMES, true)
  const SETTINGS_GUARD := Guard(SETTINGS_NAMES, false)

  const MATH_TRANSITIONAL := "http://schemas.openxmlformats.org/officeDocument/2006/math"
  const MATH_STRICT := "http://purl.oclc.org/ooxml/officeDocument/math"

  predicate IsWord(space: string) {
    space == WORD_TRANSITIONAL || space == WORD_STRICT
  }

  /** Mathematics directly in a paragraph, which the guard does not look into. */
  predicate DirectMath(parent: Option<Name>, n: Node, word: string, g: Guard) {
    && g.skipsMath && parent == Some(Name(word, "p"))
    && n.name.space == (if word == WORD_STRICT then MATH_STRICT else MATH_TRANSITIONAL)
    && (n.name.local == "oMath" || n.name.local == "oMathPara")
  }

  predicate LooksAlike(n: Node, word: string, g: Guard) {
    n.name.local in g.known && n.name.space != word
  }

  /** The first node, in document order, with a known local name outside the namespace. */
  function Spoofed(parent: Option<Name>, n: Node, word: string, g: Guard): (r: Option<Node>)
    decreases n, |n.children| + 1
  {
    if DirectMath(parent, n, word, g) then None
    else if LooksAlike(n, word, g) then Some(n)
    else SpoofedChild(n, word, g, 0)
  }

  function SpoofedChild(n: Node, word: string, g: Guard, i: nat): (r: Option<Node>)
    requires i <= |n.children|
    decreases n, |n.children| - i
  {
    if i == |n.children| then None
    else
      match Spoofed(Some(n.name), n.children[i], word, g)
      case Some(x) => Some(x)
      case None => SpoofedChild(n, word, g, i + 1)
  }

  // ------------------------------------------------------------- what passing means

  /** The guard looks at the node at address a: nothing on the way to it is mathematics. */
  predicate Visited(parent: Option<Name>, n: Node, word: string, g: Guard, a: seq<nat>)
    requires IsAddress(n, a)
    decreases |a|
  {
    !DirectMath(parent, n, word, g) && (a != [] ==> Visited(Some(n.name), n.children[a[0]], word, g, a[1..]))
  }

  lemma {:induction false} ChildrenPass(n: Node, word: string, g: Guard, i: nat)
    requires i <= |n.children|
    ensures SpoofedChild(n, word, g, i) == None
       <==> forall k :: i <= k < |n.children| ==> Spoofed(Some(n.name), n.children[k], word, g) == None
    decreases |n.children| - i
  {
    hide Spoofed;
    if i == |n.children| {
    } else {
      ChildrenPass(n, word, g, i + 1);
    }
  }

  lemma {:induction false} PassingNode(parent: Option<Name>, n: Node, word: string, g: Guard, a: seq<nat>)
    requires Spoofed(parent, n, word, g) == None && IsAddress(n, a) && Visited(parent, n, word, g, a)
    ensures !LooksAlike(NodeAt(n, a), word, g)
    decreases |a|
  {
    hide DirectMath, LooksAlike;
    if a == [] {
    } else {
      ChildrenPass(n, word, g, 0);
      PassingNode(Some(n.name), n.children[a[0]], word, g, a[1..]);
    }
  }

  lemma {:induction false} SpoofFound(parent: Option<Name>, n: Node, word: string, g: Guard) returns (a: seq<nat>)
    requires Spoofed(parent, n, word, g).Some?
    ensures IsAddress(n, a) && Visited(parent, n, word, g, a) && LooksAlike(NodeAt(n, a), word, g)
    decreases n
  {
    hide DirectMath, LooksAlike;
    if LooksAlike(n, word, g) {
      a := [];
    } else {
      ChildrenPass(n, word, g, 0);
      var i :| 0 <= i < |n.children| && Spoofed(Some(n.name), n.children[i], word, g).Some?;
      var b := SpoofFound(Some(n.name), n.children[i], word, g);
      a := [i] + b;
      assert a[1..] == b;
    }
  }

  /** A part passes if and only if no node outside direct mathematics has a known name in another namespace. */
  lemma GuardExact(root: Node, word: string, g: Guard)
    ensures Spoofed(None, root, word, g) == None
       <==> forall a :: IsAddress(root, a) && Visited(None, root, word, g, a) ==> !LooksAlike(NodeAt(root, a), word, g)
  {
    hide Visited, LooksAlike, IsAddress, NodeAt;
    if Spoofed(None, root, word, g) == None {
      forall a | IsAddress(root, a) && Visited(None, root, word, g, a) ensures !LooksAlike(NodeAt(root, a), word, g) {
        PassingNode(None, root, word, g, a);
      }
    } else {
      var a := SpoofFound(None, root, word, g);
    }
  }

  /** The name of an equation that stands directly in a paragraph, and that of what it stands in. */
  predicate MathNames(parent: Name, name: Name, word: string) {
    && parent == Name(word, "p") && name.local in {"oMath", "oMathPara"}
    && name.space == if word == "http://purl.oclc.org/ooxml/wordprocessingml/main" then "http://purl.oclc.org/ooxml/officeDocument/math"
                     else "http://schemas.openxmlformats.org/officeDocument/2006/math"
  }

  /** The node at address b is such an equation. */
  predicate MathAt(root: Node, b: seq<nat>, word: string)
    requires b != [] && IsAddress(root, b)
  {
    Prefix(root, b, |b| - 1);
    MathNames(NodeAt(root, b[..|b| - 1]).name, NodeAt(root, b).name, word)
  }

  lemma {:induction false} Prefix(n: Node, a: seq<nat>, k: nat)
    requires IsAddress(n, a) && k <= |a|
    ensures IsAddress(n, a[..k])
    decreases |a|
  {
    if k > 0 {
      Prefix(n.children[a[0]], a[1..], k - 1);
      assert a[..k][1..] == a[1..][..k - 1];
    }
  }

  /** Some node on the way to address a is such an equation. */
  predicate InMath(root: Node, a: seq<nat>, word: string)
    requires IsAddress(root, a)
  {
    exists k: nat :: 1 <= k <= |a| && IsAddress(root, a[..k]) && MathAt(root, a[..k], word)
  }

  lemma DirectIs(parent: Name, n: Node, word: string)
    ensures DirectMath(Some(parent), n, word, STORY_GUARD) <==> MathNames(parent, n.name, word)
  {
  }

  lemma StepDown(n: Node, a: seq<nat>)
    requires a != [] && IsAddress(n, a)
    ensures a[0] < |n.children| && IsAddress(n.children[a[0]], a[1..])
    ensures NodeAt(n, a) == NodeAt(n.children[a[0]], a[1..])
  {
  }

  lemma FirstMath(n: Node, i: nat, word: string)
    requires IsAddress(n, [i])
    ensures i < |n.children|
    ensures MathAt(n, [i], word) <==> DirectMath(Some(n.name), n.children[i], word, STORY_GUARD)
  {
    hide MathNames, DirectMath;
    StepDown(n, [i]);
    assert [i][..|[i]| - 1] == [] && [i][1..] == [];
    assert NodeAt(n, []) == n && NodeAt(n, [i]) == n.children[i];
    DirectIs(n.name, n.children[i], word);
  }

  lemma LaterMath(n: Node, b: seq<nat>, word: string)
    requires |b| > 1 && IsAddress(n, b)
    ensures b[0] < |n.children| && IsAddress(n.children[b[0]], b[1..])
    ensures MathAt(n, b, word) <==> MathAt(n.children[b[0]], b[1..], word)
  {
    hide MathNames, NodeAt, IsAddress;
    var k := |b|;
    StepDown(n, b);
    Prefix(n, b, k - 1);
    StepDown(n, b[..k - 1]);
    assert b[..k - 1][1..] == b[1..][..k - 2];
  }

  lemma ChildMath(n: Node, a: seq<nat>, k: nat, word: string)
    requires a != [] && IsAddress(n, a) && 1 <= k <= |a| && IsAddress(n, a[..k])
    ensures a[0] < |n.children|
    ensures k == 1 ==> (MathAt(n, a[..k], word) <==> DirectMath(Some(n.name), n.children[a[0]], word, STORY_GUARD))
    ensures k > 1 ==> IsAddress(n.children[a[0]], a[1..][..k - 1]) && (MathAt(n, a[..k], word) <==> MathAt(n.children[a[0]], a[1..][..k - 1], word))
  {
    hide MathAt, DirectMath, NodeAt, IsAddress;
    assert a[..k][1..] == a[1..][..k - 1];
    if k == 1 {
      assert a[..1] == [a[0]];
      FirstMath(n, a[0], word);
    } else {
      LaterMath(n, a[..k], word);
    }
  }

  lemma {:induction false} VisitedIs(parent: Option<Name>, n: Node, word: string, a: seq<nat>)
    requires IsAddress(n, a)
    ensures Visited(parent, n, word, STORY_GUARD, a) <==> !DirectMath(parent, n, word, STORY_GUARD) && !InMath(n, a, word)
    decreases |a|
  {
    hide DirectMath, MathAt;
    if a == [] {
    } else {
      var c := n.children[a[0]];
      VisitedIs(Some(n.name), c, word, a[1..]);
      forall k: nat | 1 <= k <= |a| && IsAddress(n, a[..k]) && MathAt(n, a[..k], word)
        ensures DirectMath(Some(n.name), c, word, STORY_GUARD) || InMath(c, a[1..], word) {
        ChildMath(n, a, k, word);
      }
      if DirectMath(Some(n.name), c, word, STORY_GUARD) {
        Prefix(n, a, 1);
        ChildMath(n, a, 1, word);
      }
      if j: nat :| 1 <= j <= |a[1..]| && IsAddress(c, a[1..][..j]) && MathAt(c, a[1..][..j], word) {
        Prefix(n, a, j + 1);
        ChildMath(n, a, j + 1, word);
      }
    }
  }

  /** What the guard of a story part lets through. */
  lemma StoryPasses(root: Node, word: string)
    ensures Spoofed(None, root, word, STORY_GUARD) == None
       <==> forall a :: IsAddress(root, a) && !InMath(root, a, word)
              && NodeAt(root, a).name.local in {"document", "body", "p", "r", "t", "tbl", "tr", "tc", "sectPr", "hdr", "ftr",
                   "footnotes", "footnote", "endnotes", "endnote", "comments", "comment"}
              ==> NodeAt(root, a).name.space == word
  {
    hide Visited, IsAddress, NodeAt, Spoofed, InMath;
    GuardExact(root, word, STORY_GUARD);
    forall a | IsAddress(root, a) ensures Visited(None, root, word, STORY_GUARD, a) <==> !InMath(root, a, word) {
      VisitedIs(None, root, word, a);
    }
  }

  lemma {:induction false} AllVisited(parent: Option<Name>, n: Node, word: string, a: seq<nat>)
    requires IsAddress(n, a)
    ensures Visited(parent, n, word, SETTINGS_GUARD, a)
    decreases |a|
  {
    if a != [] { AllVisited(Some(n.name), n.children[a[0]], word, a[1..]); }
  }

  /** What the guard of the settings part lets through: it looks everywhere. */
  lemma SettingsPasses(root: Node, word: string)
    ensures Spoofed(None, root, word, SETTINGS_GUARD) == None
       <==> forall a :: IsAddress(root, a) && NodeAt(root, a).name.local in SETTINGS_NAMES ==> NodeAt(root, a).name.space == word
  {
    hide Visited, IsAddress, NodeAt, Spoofed;
    GuardExact(root, word, SETTINGS_GUARD);
    forall a | IsAddress(root, a) ensures Visited(None, root, word, SETTINGS_GUARD, a) {
      AllVisited(None, root, word, a);
    }
  }

  // ------------------------------------------------------------ what it makes unique

  /** Every node on the way below n to address a has a known local name. */
  predicate Listed(n: Node, a: seq<nat>, g: Guard)
    requires IsAddress(n, a)
    decreases |a|
  {
    a != [] ==> n.children[a[0]].name.local in g.known && Listed(n.children[a[0]], a[1..], g)
  }

  predicate NoMath(g: Guard) {
    "oMath" !in g.known && "oMathPara" !in g.known
  }

  lemma GuardsHaveNoMath()
    ensures NoMath(STORY_GUARD) && NoMath(SETTINGS_GUARD)
  {
    assert forall x :: x in STORY_NAMES ==> x[0] != 'o';
    assert forall x :: x in SETTINGS_NAMES ==> x[0] != 'o';
    assert "oMath"[0] == 'o' && "oMathPara"[0] == 'o';
  }

  /** Only the two Word namespaces are written with w: in front. */
  lemma WrittenWord(digest: string -> string, name: Name, local: string)
    requires QName(digest, name) == "w:" + local
    ensures IsWord(name.space) && name.local == local
  {
    var q := QName(digest, name);
    assert q[0] == 'w' && q[2..] == local;
    if name.space == REL_TRANSITIONAL || name.space == REL_STRICT { assert ("r:" + name.local)[0] == 'r'; }
    if IsWord(name.space) { assert ("w:" + name.local)[2..] == name.local; }
  }

  /** A sibling written like a listed child is in the namespace too. */
  lemma SameName(digest: string -> string, n: Node, word: string, g: Guard, i: nat, j: nat)
    requires IsWord(word) && NoMath(g) && SpoofedChild(n, word, g, 0) == None
    requires i < |n.children| && j < |n.children| && n.children[i].name.local in g.known
    requires QName(digest, n.children[i].name) == QName(digest, n.children[j].name)
    ensures n.children[i].name == n.children[j].name
  {
    hide QName;
    ChildrenPass(n, word, g, 0);
    ListedInside(Some(n.name), n.children[i], word, g);
    WordWritten(digest, n.children[i].name);
    WrittenWord(digest, n.children[j].name, n.children[i].name.local);
    ListedInside(Some(n.name), n.children[j], word, g);
  }

  lemma WordWritten(digest: string -> string, name: Name)
    requires IsWord(name.space)
    ensures QName(digest, name) == "w:" + name.local
  {
  }

  lemma ListedInside(parent: Option<Name>, n: Node, word: string, g: Guard)
    requires NoMath(g) && Spoofed(parent, n, word, g) == None && n.name.local in g.known
    ensures n.name.space == word && SpoofedChild(n, word, g, 0) == None
  {
  }

  lemma OtherChildApart(digest: string -> string, n: Node, word: string, g: Guard, i: nat, j: nat, p: string)
    requires Placed(digest, n) && NoSlashes(digest, n) && IsWord(word) && NoMath(g) && SpoofedChild(n, word, g, 0) == None
    requires i < |n.children| && j < |n.children| && i != j && n.children[i].name.local in g.known
    requires Under(n.children[i].path, p)
    ensures !Under(n.children[j].path, p)
  {
    hide QName, Placed, Under, Bracketed, SpoofedChild;
    ChildPath(digest, n, i);
    ChildPath(digest, n, j);
    if Under(n.children[j].path, p) {
      SegmentNoSlash(QName(digest, n.children[i].name), Ordinal(n, i));
      SegmentNoSlash(QName(digest, n.children[j].name), Ordinal(n, j));
      NotUnderBoth(n.path, SegmentOf(digest, n, i), SegmentOf(digest, n, j), p);
      SegmentInjective(QName(digest, n.children[i].name), Ordinal(n, i), QName(digest, n.children[j].name), Ordinal(n, j));
      SameName(digest, n, word, g, i, j);
      CountGrows(n.children, if i < j then i else j, if i < j then j else i);
    }
  }

  lemma {:induction false} SkipOthers(digest: string -> string, n: Node, word: string, g: Guard, i: nat, j: nat, p: string)
    requires Placed(digest, n) && NoSlashes(digest, n) && IsWord(word) && NoMath(g) && SpoofedChild(n, word, g, 0) == None
    requires j <= i < |n.children| && n.children[i].name.local in g.known && Under(n.children[i].path, p)
    ensures FirstChild(n, p, j) == FirstChild(n, p, i)
    decreases i - j
  {
    hide Placed, NoSlashes, Under, NodeByPath, SpoofedChild;
    if j == i {
    } else {
      OtherChildApart(digest, n, word, g, i, j, p);
      OutsideFindsNothing(n.children[j], p);
      SkipOthers(digest, n, word, g, i, j + 1, p);
    }
  }

  /**
   * Below a guarded node, a node whose chain of names is in the guard's list is found by its path, and no other node
   * has that path.
   */
  lemma {:induction false} ListedFound(digest: string -> string, n: Node, word: string, g: Guard, a: seq<nat>)
    requires Placed(digest, n) && NoSlashes(digest, n) && IsWord(word) && NoMath(g) && SpoofedChild(n, word, g, 0) == None
    requires IsAddress(n, a) && Listed(n, a, g)
    ensures NodeByPath(n, NodeAt(n, a).path) == Some(NodeAt(n, a))
    decreases |a|
  {
    hide Placed, QName, SpoofedChild;
    if a == [] {
    } else {
      var p, c := NodeAt(n, a).path, n.children[a[0]];
      ChildPath(digest, n, a[0]);
      DescendantUnder(digest, n, a);
      DescendantUnder(digest, c, a[1..]);
      ChildrenPass(n, word, g, 0);
      ListedInside(Some(n.name), c, word, g);
      ListedFound(digest, c, word, g, a[1..]);
      SkipOthers(digest, n, word, g, a[0], 0, p);
      LongerPath(n.path, p);
    }
  }

  lemma {:induction false} ListedAlone(digest: string -> string, n: Node, word: string, g: Guard, a: seq<nat>, b: seq<nat>)
    requires Placed(digest, n) && NoSlashes(digest, n) && IsWord(word) && NoMath(g) && SpoofedChild(n, word, g, 0) == None
    requires IsAddress(n, a) && Listed(n, a, g) && IsAddress(n, b) && NodeAt(n, a).path == NodeAt(n, b).path
    ensures a == b
    decreases |a|
  {
    hide Placed, QName, Under, SpoofedChild;
    var p := NodeAt(n, a).path;
    DescendantUnder(digest, n, a);
    DescendantUnder(digest, n, b);
    if a == [] || b == [] {
      if a != [] || b != [] { LongerPath(n.path, p); }
    } else {
      var c := n.children[a[0]];
      ChildPath(digest, n, a[0]);
      ChildPath(digest, n, b[0]);
      DescendantUnder(digest, c, a[1..]);
      DescendantUnder(digest, n.children[b[0]], b[1..]);
      if a[0] != b[0] { OtherChildApart(digest, n, word, g, a[0], b[0], p); }
      ChildrenPass(n, word, g, 0);
      ListedInside(Some(n.name), c, word, g);
      ListedAlone(digest, c, word, g, a[1..], b[1..]);
    }
  }

  /**
   * In a part that passes its guard, every node whose chain of names is in the guard's list has a path of its own and
   * is found by it, from the root and from any such node above. In a story these are its paragraphs, runs and texts.
   */
  lemma GuardedPaths(digest: string -> string, root: Node, word: string, g: Guard, top: seq<nat>, a: seq<nat>, b: seq<nat>)
    requires g == STORY_GUARD || g == SETTINGS_GUARD
    requires Placed(digest, root) && NoSlashes(digest, root) && IsWord(word) && Spoofed(None, root, word, g) == None
    requires IsAddress(root, top) && Listed(root, top, g)
    requires var n := NodeAt(root, top); IsAddress(n, a) && Listed(n, a, g) && IsAddress(n, b)
    ensures var n := NodeAt(root, top);
      && NodeByPath(n, NodeAt(n, a).path) == Some(NodeAt(n, a))
      && (NodeAt(n, a).path == NodeAt(n, b).path ==> a == b)
  {
    hide Placed, NoSlashes, QName, SpoofedChild, NodeByPath;
    GuardsHaveNoMath();
    RootInside(root, word, g);
    GuardBelow(digest, root, word, g, top);
    var n := NodeAt(root, top);
    ListedFound(digest, n, word, g, a);
    if NodeAt(n, a).path == NodeAt(n, b).path { ListedAlone(digest, n, word, g, a, b); }
  }

  lemma RootInside(root: Node, word: string, g: Guard)
    requires Spoofed(None, root, word, g) == None
    ensures SpoofedChild(root, word, g, 0) == None
  {
  }

  lemma {:induction false} GuardBelow(digest: string -> string, n: Node, word: string, g: Guard, a: seq<nat>)
    requires Placed(digest, n) && NoSlashes(digest, n) && NoMath(g) && SpoofedChild(n, word, g, 0) == None
    requires IsAddress(n, a) && Listed(n, a, g)
    ensures var x := NodeAt(n, a); Placed(digest, x) && NoSlashes(digest, x) && SpoofedChild(x, word, g, 0) == None
    decreases |a|
  {
    hide Placed, SegmentOf, QName, SpoofedChild;
    if a == [] {
    } else {
      ChildPath(digest, n, a[0]);
      ChildrenPass(n, word, g, 0);
      ListedInside(Some(n.name), n.children[a[0]], word, g);
      GuardBelow(digest, n.children[a[0]], word, g, a[1..]);
    }
  }
}
