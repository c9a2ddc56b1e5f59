/** Paths as addresses of the nodes of a tree. */
module XmlPaths {
  import opened Prelude
  import opened Numerals
  import opened XmlTree

  function NodeByPath(n: Node, path: string): (r: Option<Node>)
    decreases n, |n.children| + 1
  {
    if n.path == path then Some(n)
    else if !(n.path + "/" <= path) then None
    else FirstChild(n, path, 0)
  }

  function FirstChild(n: Node, path: string, i: nat): (r: Option<Node>)
    requires i <= |n.children|
    decreases n, |n.children| - i
  {
    if i == |n.children| then None
    else
      match NodeByPath(n.children[i], path)
      case Some(x) => Some(x)
      case None => FirstChild(n, path, i + 1)
  }

  // ------------------------------------------------------------------ addresses

  /** A position in the tree: which child to take at each level. */
  predicate IsAddress(n: Node, a: seq<nat>)
    decreases |a|
  {
    a != [] ==> a[0] < |n.children| && IsAddress(n.children[a[0]], a[1..])
  }

  function NodeAt(n: Node, a: seq<nat>): Node
    requires IsAddress(n, a)
    decreases |a|
  {
    if a == [] then n else NodeAt(n.children[a[0]], a[1..])
  }

  /** No qualified name contains a slash, as no XML name does. */
  ghost predicate NoSlashes(digest: string -> string, n: Node)
    decreases n
  {
    forall i :: 0 <= i < |n.children| ==> NoSlash(QName(digest, n.children[i].name)) && NoSlashes(digest, n.children[i])
  }

  /** Siblings i and j have different names that are written alike. */
  predicate Clash(digest: string -> string, n: Node, i: nat, j: nat) {
    && i < |n.children| && j < |n.children| && n.children[i].name != n.children[j].name
    && QName(digest, n.children[i].name) == QName(digest, n.children[j].name)
  }

  /** Different names of siblings are written differently, at every node. */
  ghost predicate Unambiguous(digest: string -> string, n: Node)
    decreases n
  {
    && (forall i: nat, j: nat :: !Clash(digest, n, i, j))
    && (forall i :: 0 <= i < |n.children| ==> Unambiguous(digest, n.children[i]))
  }

  predicate NoSlash(s: string) {
    forall k :: 0 <= k < |s| ==> s[k] != '/'
  }

  // ------------------------------------------------------------------- segments

  lemma BracketAt(q: string, k: nat)
    ensures var s := Bracketed(q, k); var p := |s| - 2 - |Numeral(k)|;
      && p == |q| && s[p] == '[' && s[..p] == q && s[p + 1..|s| - 1] == Numeral(k)
      && forall i :: p < i < |s| - 1 ==> s[i] != '['
  {
    DigitsOnly(k);
    var s := Bracketed(q, k);
    forall i | |q| < i < |s| - 1 ensures s[i] != '[' {
      assert s[i] == Numeral(k)[i - |q| - 1];
    }
  }

  /** A segment is read back into its name and number. */
  lemma SegmentInjective(q: string, k: nat, q': string, k': nat)
    ensures Bracketed(q, k) == Bracketed(q', k') <==> q == q' && k == k'
  {
    if Bracketed(q, k) == Bracketed(q', k') {
      BracketAt(q, k);
      BracketAt(q', k');
      hide Bracketed;
      NumeralInjective(k, k');
    }
  }

  lemma SegmentNoSlash(q: string, k: nat)
    requires NoSlash(q)
    ensures NoSlash(Bracketed(q, k))
  {
    DigitsOnly(k);
  }

  // ------------------------------------------------------------------- siblings

  function Ordinal(n: Node, i: nat): nat
    requires i < |n.children|
  {
    NameCount(n.children[..i], n.children[i].name) + 1
  }

  lemma {:induction false} PlacedAt(digest: string -> string, parent: string, cs: seq<Node>, i: nat)
    requires PlacedUnder(digest, parent, cs) && i < |cs|
    ensures cs[i].path == PathOf(digest, parent, cs[i].name, NameCount(cs[..i], cs[i].name) + 1)
    ensures Placed(digest, cs[i])
    decreases |cs|
  {
    hide PathOf;
    if i >= |cs| - 1 {
    } else {
      PlacedAt(digest, parent, cs[..|cs| - 1], i);
      assert cs[..|cs| - 1][..i] == cs[..i];
    }
  }

  lemma {:induction false} CountGrows(cs: seq<Node>, i: nat, j: nat)
    requires i < j <= |cs|
    ensures NameCount(cs[..i], cs[i].name) < NameCount(cs[..j], cs[i].name)
    decreases j
  {
    assert cs[..j][..j - 1] == cs[..j - 1];
    if i >= j - 1 {
    } else {
      CountGrows(cs, i, j - 1);
    }
  }

  function SegmentOf(digest: string -> string, n: Node, i: nat): string
    requires i < |n.children|
  {
    Segment(digest, n.children[i].name, Ordinal(n, i))
  }

  lemma ChildPath(digest: string -> string, n: Node, i: nat)
    requires Placed(digest, n) && i < |n.children|
    ensures n.children[i].path == n.path + "/" + SegmentOf(digest, n, i)
    ensures Placed(digest, n.children[i])
  {
    hide QName, NameCount;
    PlacedAt(digest, n.path, n.children, i);
  }

  /**
   * Siblings share a path exactly when their qualified names and their numbers coincide. Two different expanded
   * names can do so, because each is numbered by itself: both Word namespaces are written with the same prefix.
   */
  lemma SiblingCollision(digest: string -> string, n: Node, i: nat, j: nat)
    requires Placed(digest, n) && i < j < |n.children|
    ensures n.children[i].path == n.children[j].path <==>
              && n.children[i].name != n.children[j].name
              && QName(digest, n.children[i].name) == QName(digest, n.children[j].name)
              && Ordinal(n, i) == Ordinal(n, j)
  {
    hide QName, NameCount, Bracketed, Placed;
    ChildPath(digest, n, i);
    ChildPath(digest, n, j);
    SegmentInjective(QName(digest, n.children[i].name), Ordinal(n, i), QName(digest, n.children[j].name), Ordinal(n, j));
    CountGrows(n.children, i, j);
    SameTail(n.path + "/", SegmentOf(digest, n, i), SegmentOf(digest, n, j));
  }

  lemma SameTail(p: string, a: string, b: string)
    ensures p + a == p + b <==> a == b
  {
    assert (p + a)[|p|..] == a && (p + b)[|p|..] == b;
  }

  // --------------------------------------------------------------------- lookup

  /** The path x, or a path continuing it below. */
  predicate Under(x: string, p: string) {
    x == p || x + "/" <= p
  }

  lemma {:induction false} DescendantUnder(digest: string -> string, n: Node, a: seq<nat>)
    requires Placed(digest, n) && IsAddress(n, a)
    ensures Under(n.path, NodeAt(n, a).path)
    ensures a != [] ==> n.path + "/" <= NodeAt(n, a).path
    decreases |a|
  {
    hide QName, Placed, SegmentOf;
    if a == [] {
    } else {
      var c := n.children[a[0]];
      ChildPath(digest, n, a[0]);
      DescendantUnder(digest, c, a[1..]);
      PrefixChain(n.path, c.path, SegmentOf(digest, n, a[0]), NodeAt(n, a).path);
    }
  }

  lemma PrefixChain(x: string, c: string, s: string, p: string)
    requires c == x + "/" + s && Under(c, p)
    ensures x + "/" <= p
  {
    if c != p { assert c <= p; }
    assert x + "/" <= c;
  }

  /** A path is not below two siblings at once. */
  lemma NotUnderBoth(x: string, s: string, t: string, p: string)
    requires NoSlash(s) && NoSlash(t) && Under(x + "/" + s, p) && Under(x + "/" + t, p)
    ensures s == t
  {
    var n := |x| + 1;
    TailUnder(x, s, p);
    TailUnder(x, t, p);
    var q := p[n..];
    if |s| == |t| {
      assert s == q[..|s|] && t == q[..|t|];
    }
  }

  lemma TailUnder(x: string, s: string, p: string)
    requires Under(x + "/" + s, p)
    ensures |x| + 1 + |s| <= |p|
    ensures var q := p[|x| + 1..]; q[..|s|] == s && (|q| == |s| || q[|s|] == '/')
  {
    var c := x + "/" + s;
    assert c == p[..|c|];
    if c != p { assert (c + "/")[|c|] == '/'; }
    assert c[|x| + 1..] == s;
  }

  lemma OutsideFindsNothing(n: Node, path: string)
    requires !Under(n.path, path)
    ensures NodeByPath(n, path) == None
  {
  }

  lemma OtherChild(digest: string -> string, n: Node, i: nat, j: nat, p: string)
    requires Placed(digest, n) && NoSlashes(digest, n) && Unambiguous(digest, n) && i < |n.children| && j < |n.children| && i != j
    requires Under(n.children[i].path, p)
    ensures !Under(n.children[j].path, p)
  {
    hide QName, Placed, Under, Bracketed;
    assert !Clash(digest, n, i, j) && !Clash(digest, n, j, i);
    ChildPath(digest, n, i);
    ChildPath(digest, n, j);
    if Under(n.children[j].path, p) {
      SegmentNoSlash(QName(digest, n.children[i].name), Ordinal(n, i));
      SegmentNoSlash(QName(digest, n.children[j].name), Ordinal(n, j));
      NotUnderBoth(n.path, SegmentOf(digest, n, i), SegmentOf(digest, n, j), p);
      if i < j { SiblingCollision(digest, n, i, j); } else { SiblingCollision(digest, n, j, i); }
    }
  }

  lemma {:induction false} SkipChildren(digest: string -> string, n: Node, i: nat, j: nat, p: string)
    requires Placed(digest, n) && NoSlashes(digest, n) && Unambiguous(digest, n) && j <= i < |n.children| && Under(n.children[i].path, p)
    ensures FirstChild(n, p, j) == FirstChild(n, p, i)
    decreases i - j
  {
    hide Placed, NoSlashes, Unambiguous, Under, NodeByPath;
    if j >= i {
    } else {
      OtherChild(digest, n, i, j, p);
      OutsideFindsNothing(n.children[j], p);
      SkipChildren(digest, n, i, j + 1, p);
    }
  }

  /** Every node is found by its path. */
  lemma {:induction false} LookupFinds(digest: string -> string, n: Node, a: seq<nat>)
    requires Placed(digest, n) && NoSlashes(digest, n) && Unambiguous(digest, n) && IsAddress(n, a)
    ensures NodeByPath(n, NodeAt(n, a).path) == Some(NodeAt(n, a))
    decreases |a|
  {
    hide Placed, QName;
    if a == [] {
    } else {
      var p, c := NodeAt(n, a).path, n.children[a[0]];
      ChildPath(digest, n, a[0]);
      DescendantUnder(digest, n, a);
      DescendantUnder(digest, c, a[1..]);
      LookupFinds(digest, c, a[1..]);
      SkipChildren(digest, n, a[0], 0, p);
      LongerPath(n.path, p);
    }
  }

  lemma LongerPath(x: string, p: string)
    requires x + "/" <= p
    ensures x != p
  {
  }

  /** Different positions have different paths. */
  lemma {:induction false} PathsDistinct(digest: string -> string, n: Node, a: seq<nat>, b: seq<nat>)
    requires Placed(digest, n) && NoSlashes(digest, n) && Unambiguous(digest, n) && IsAddress(n, a) && IsAddress(n, b)
    requires NodeAt(n, a).path == NodeAt(n, b).path
    ensures a == b
    decreases |a|
  {
    hide Placed, QName, Under;
    var p := NodeAt(n, a).path;
    DescendantUnder(digest, n, a);
    DescendantUnder(digest, n, b);
    if a == [] || b == [] {
      if a != [] || b != [] {
        LongerPath(n.path, p);
      }
    } else {
      ChildPath(digest, n, a[0]);
      ChildPath(digest, n, b[0]);
      DescendantUnder(digest, n.children[a[0]], a[1..]);
      DescendantUnder(digest, n.children[b[0]], b[1..]);
      if a[0] != b[0] { OtherChild(digest, n, a[0], b[0], NodeAt(n, a).path); }
      PathsDistinct(digest, n.children[a[0]], a[1..], b[1..]);
    }
  }

  // ----------------------------------------------------- what ambiguous names break

  lemma {:induction false} NoneCounted(cs: seq<Node>, name: Name)
    requires forall i :: 0 <= i < |cs| ==> cs[i].name != name
    ensures NameCount(cs, name) == 0
  {
    if cs == [] {
    } else {
      NoneCounted(cs[..|cs| - 1], name);
    }
  }

  lemma {:induction false} FirstNamed(cs: seq<Node>, i: nat) returns (k: nat)
    requires i < |cs|
    ensures k < |cs| && cs[k].name == cs[i].name && NameCount(cs[..k], cs[k].name) == 0
    decreases i
  {
    hide NameCount;
    if j: nat :| j < i && cs[j].name == cs[i].name {
      k := FirstNamed(cs, j);
    } else {
      k := i;
      NoneCounted(cs[..i], cs[i].name);
    }
  }

  /** Two names written alike give two siblings with one path: the first of each name. */
  lemma SharedPath(digest: string -> string, n: Node, i: nat, j: nat) returns (k: nat, l: nat)
    requires Placed(digest, n) && Clash(digest, n, i, j)
    ensures k < |n.children| && l < |n.children|
    ensures n.children[k].name != n.children[l].name && n.children[k].path == n.children[l].path
  {
    hide QName, NameCount, Placed, Bracketed;
    k := FirstNamed(n.children, i);
    l := FirstNamed(n.children, j);
    ChildPath(digest, n, k);
    ChildPath(digest, n, l);
  }

  lemma {:induction false} ClashAt(digest: string -> string, n: Node) returns (a: seq<nat>, i: nat, j: nat)
    requires !Unambiguous(digest, n)
    ensures IsAddress(n, a) && Clash(digest, NodeAt(n, a), i, j)
    decreases n
  {
    hide Clash;
    if x: nat, y: nat :| Clash(digest, n, x, y) {
      a, i, j := [], x, y;
    } else {
      var c :| 0 <= c < |n.children| && !Unambiguous(digest, n.children[c]);
      var b, x, y := ClashAt(digest, n.children[c]);
      a, i, j := [c] + b, x, y;
      assert a[1..] == b;
    }
  }

  lemma {:induction false} PlacedBelow(digest: string -> string, n: Node, a: seq<nat>)
    requires Placed(digest, n) && IsAddress(n, a)
    ensures Placed(digest, NodeAt(n, a))
    decreases |a|
  {
    hide Placed, SegmentOf;
    if a == [] {
    } else {
      ChildPath(digest, n, a[0]);
      PlacedBelow(digest, n.children[a[0]], a[1..]);
    }
  }

  lemma {:induction false} AddressBelow(n: Node, a: seq<nat>, i: nat)
    requires IsAddress(n, a) && i < |NodeAt(n, a).children|
    ensures IsAddress(n, a + [i]) && NodeAt(n, a + [i]) == NodeAt(n, a).children[i]
    decreases |a|
  {
    if a == [] {
      assert [i][1..] == [];
    } else {
      assert (a + [i])[1..] == a[1..] + [i];
      AddressBelow(n.children[a[0]], a[1..], i);
    }
  }

  /** In a tree with an ambiguous name two different nodes have one path. */
  lemma PathShared(digest: string -> string, n: Node) returns (a: seq<nat>, b: seq<nat>)
    requires Placed(digest, n) && !Unambiguous(digest, n)
    ensures IsAddress(n, a) && IsAddress(n, b)
    ensures NodeAt(n, a).path == NodeAt(n, b).path && NodeAt(n, a).name != NodeAt(n, b).name
  {
    hide Placed, Unambiguous, IsAddress, NodeAt, Clash;
    var c, i, j := ClashAt(digest, n);
    PlacedBelow(digest, n, c);
    var k, l := SharedPath(digest, NodeAt(n, c), i, j);
    AddressBelow(n, c, k);
    AddressBelow(n, c, l);
    a, b := c + [k], c + [l];
  }

  ghost predicate AllDistinct(n: Node) {
    forall a, b :: IsAddress(n, a) && IsAddress(n, b) && NodeAt(n, a).path == NodeAt(n, b).path ==> a == b
  }

  ghost predicate AllFound(n: Node) {
    forall a :: IsAddress(n, a) ==> NodeByPath(n, NodeAt(n, a).path) == Some(NodeAt(n, a))
  }

  /** Paths tell the nodes of a tree apart if and only if different names of siblings are written differently. */
  lemma DistinctExactly(digest: string -> string, n: Node)
    requires Placed(digest, n) && NoSlashes(digest, n)
    ensures AllDistinct(n) <==> Unambiguous(digest, n)
  {
    hide Placed, NoSlashes, Unambiguous, IsAddress, NodeAt;
    if Unambiguous(digest, n) {
      forall a, b | IsAddress(n, a) && IsAddress(n, b) && NodeAt(n, a).path == NodeAt(n, b).path ensures a == b {
        PathsDistinct(digest, n, a, b);
      }
    } else {
      var a, b := PathShared(digest, n);
    }
  }

  /** Every node is found by its path if and only if different names of siblings are written differently. */
  lemma FoundExactly(digest: string -> string, n: Node)
    requires Placed(digest, n) && NoSlashes(digest, n)
    ensures AllFound(n) <==> Unambiguous(digest, n)
  {
    hide Placed, NoSlashes, Unambiguous, IsAddress, NodeAt, NodeByPath;
    if Unambiguous(digest, n) {
      forall a | IsAddress(n, a) ensures NodeByPath(n, NodeAt(n, a).path) == Some(NodeAt(n, a)) {
        LookupFinds(digest, n, a);
      }
    } else {
      var a, b := PathShared(digest, n);
      var found := NodeByPath(n, NodeAt(n, a).path);
      assert found != Some(NodeAt(n, a)) || found != Some(NodeAt(n, b));
    }
  }
}
