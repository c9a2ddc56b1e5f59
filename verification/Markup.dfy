/**
 The element patterns the patcher searches for, as matchers anchored at the
 start of a text: start tags, empty tags, and elements up to the first closing
 tag.  They stand for the regular expressions of the source, leftmost match
 first; the lemmas say that a match is unaffected by what follows it.
 */
module Markup {
  import opened Prelude
  import opened Strings

  function Opener(name: string): string { "<" + name + ">" }
  function OpenerSpaced(name: string): string { "<" + name + " " }
  function SelfCloser(name: string): string { "<" + name + "/>" }
  function Closer(name: string): string { "</" + name + ">" }

  /** Length of the start tag  <name>  or  <name ...>  at the start of s. */
  function StartTag(s: string, name: string): (r: Option<nat>)
    ensures r.Some? ==> |name| + 2 <= r.value <= |s| && s[r.value - 1] == '>'
  {
    if At(s, Opener(name), 0) then
      AtChars(s, Opener(name), 0, |name| + 1);
      Some(|name| + 2)
    else if At(s, OpenerSpaced(name), 0) then
      match IndexOf(s, ">", |name| + 2)
      case Some(g) => Some(g + 1)
      case None => None
    else None
  }

  /** Length of  <name/>  or  <name .../>  at the start of s. */
  function EmptyTag(s: string, name: string): (r: Option<nat>)
    ensures r.Some? ==> |name| + 3 <= r.value <= |s| && s[r.value - 1] == '>' && s[r.value - 2] == '/'
  {
    if At(s, SelfCloser(name), 0) then
      AtChars(s, SelfCloser(name), 0, |name| + 1);
      AtChars(s, SelfCloser(name), 0, |name| + 2);
      Some(|name| + 3)
    else if At(s, OpenerSpaced(name), 0) then
      match IndexOf(s, ">", |name| + 2)
      case Some(g) => if g - 1 >= |name| + 2 && s[g - 1] == '/' then Some(g + 1) else None
      case None => None
    else None
  }

  /** A container with its content at [from, to), or an empty tag; `len` is the extent of the whole match. */
  datatype Element = Whole(from: nat, to: nat, len: nat) | Empty(len: nat)

  /** The container up to the first closing tag is preferred; the empty tag is the alternative. */
  function ElementAt(s: string, name: string): (r: Option<Element>)
    ensures r.Some? ==> 0 < r.value.len <= |s| && s[r.value.len - 1] == '>'
    ensures r.Some? && r.value.Whole? ==> r.value.from <= r.value.to <= r.value.len
  {
    var whole :=
      match StartTag(s, name)
      case Some(o) => IndexOf(s, Closer(name), o)
      case None => None;
    if whole.Some? then
      AtChars(s, Closer(name), whole.value, |name| + 2);
      Some(Whole(StartTag(s, name).value, whole.value, whole.value + |name| + 3))
    else
      match EmptyTag(s, name)
      case Some(n) => Some(Empty(n))
      case None => None
  }

  /** A start of the element, complete or not. */
  predicate Starts(s: string, name: string, i: int) {
    At(s, Opener(name), i) || At(s, OpenerSpaced(name), i) || At(s, SelfCloser(name), i)
  }

  predicate NameText(name: string) {
    forall k :: 0 <= k < |name| ==> name[k] != '>' && name[k] != '<'
  }

  lemma NamePatterns(name: string)
    requires NameText(name)
    ensures TagPattern(Opener(name)) && TagPattern(OpenerSpaced(name)) && TagPattern(SelfCloser(name)) && TagPattern(Closer(name))
  {
  }

  lemma NoStartNoElement(s: string, name: string)
    requires !Starts(s, name, 0)
    ensures ElementAt(s, name) == None
  {
  }

  lemma StartTagKept(x: string, z: string, name: string)
    requires StartTag(x, name).Some?
    ensures StartTag(x + z, name) == StartTag(x, name)
  {
    PrefixKept(x, z, Opener(name));
    PrefixKept(x, z, OpenerSpaced(name));
    if !At(x, Opener(name), 0) {
      if At(x + z, Opener(name), 0) {
        AtChars(x + z, Opener(name), 0, |name| + 1);
        AtChars(x, OpenerSpaced(name), 0, |name| + 1);
        assert false;
      }
      FirstKept(x, z, ">", |name| + 2);
    }
  }

  lemma PrefixKept(x: string, z: string, p: string)
    ensures At(x, p, 0) ==> At(x + z, p, 0)
  {
    if At(x, p, 0) { AtLeft(x, z, p, 0); }
  }

  lemma FirstKept(x: string, z: string, p: string, from: nat)
    requires from <= |x| && IndexOf(x, p, from).Some?
    ensures IndexOf(x + z, p, from) == IndexOf(x, p, from)
  {
    var r := IndexOf(x, p, from).value;
    forall j: nat | from <= j <= r ensures At(x + z, p, j) <==> At(x, p, j) {
      AtLeft(x, z, p, j);
    }
    IndexOfIs(x + z, p, from, r);
  }
}
