/** UTF-16 offsets into text (section 2.1 of RFC 2781). */
module Utf16 {
  import opened Prelude

  /** The code units of one code point. */
  function EncodeChar(c: char): (r: seq<int>)
    ensures |r| == Width(c)
    ensures !IsLow(r[0]) && (|r| == 2 ==> IsLow(r[1]))
  {
    var u := c as int;
    if u <= 0xFFFF then [u] else [0xD800 + (u - 0x10000) / 0x400, 0xDC00 + (u - 0x10000) % 0x400]
  }

  /** The second unit of a surrogate pair. */
  predicate IsLow(unit: int) {
    0xDC00 <= unit <= 0xDFFF
  }

  function Width(c: char): (n: nat)
    ensures n == 1 || n == 2
  {
    if c as int > 0xFFFF then 2 else 1
  }

  function Encode(s: string): seq<int> {
    if s == "" then [] else EncodeChar(s[0]) + Encode(s[1..])
  }

  function Units(s: string): nat {
    if s == "" then 0 else Width(s[0]) + Units(s[1..])
  }

  lemma {:induction false} UnitsCountsEncoding(s: string)
    ensures Units(s) == |Encode(s)|
  {
    if s == "" {
    } else {
      UnitsCountsEncoding(s[1..]);
    }
  }

  lemma {:induction false} EncodeConcat(s: string, t: string)
    ensures Encode(s + t) == Encode(s) + Encode(t)
    ensures Units(s + t) == Units(s) + Units(t)
  {
    if s == "" {
      assert s + t == t;
    } else {
      assert (s + t)[1..] == s[1..] + t;
      EncodeConcat(s[1..], t);
    }
  }

  method CountUnits(s: string) returns (units: nat)
    ensures units == |Encode(s)|
  {
    units := 0;
    for i := 0 to |s|
      invariant units == Units(s[..i])
    {
      assert s[..i + 1] == s[..i] + [s[i]];
      EncodeConcat(s[..i], [s[i]]);
      units := units + 1;
      if s[i] as int > 0xFFFF {
        units := units + 1;
      }
    }
    assert s[..|s|] == s;
    UnitsCountsEncoding(s);
  }

  /** The code-point boundary at the given unit offset, if there is one. */
  function Offset(s: string, units: int): (r: Option<nat>)
    ensures r.Some? ==> r.value <= |s|
  {
    if units == 0 then Some(0)
    else if s == "" || units < Width(s[0]) then None
    else
      match Offset(s[1..], units - Width(s[0]))
      case Some(i) => Some(i + 1)
      case None => None
  }

  lemma {:induction false} OffsetUnits(s: string, units: int)
    requires Offset(s, units).Some?
    ensures Units(s[..Offset(s, units).value]) == units
  {
    if units == 0 {
      assert s[..0] == "";
    } else {
      var i := Offset(s, units).value;
      OffsetUnits(s[1..], units - Width(s[0]));
      assert s[..i][1..] == s[1..][..i - 1];
    }
  }

  /** At a boundary the encoding splits with the text. */
  lemma OffsetSplits(s: string, units: int)
    requires Offset(s, units).Some?
    ensures var i := Offset(s, units).value;
      units == |Encode(s[..i])| && Encode(s) == Encode(s[..i]) + Encode(s[i..])
  {
    hide Offset, Units, Encode;
    var i := Offset(s, units).value;
    OffsetUnits(s, units);
    UnitsCountsEncoding(s[..i]);
    assert s == s[..i] + s[i..];
    EncodeConcat(s[..i], s[i..]);
  }

  /** An offset is a boundary exactly when it lies in the text and cuts no surrogate pair. */
  lemma {:induction false} OffsetExists(s: string, units: int)
    ensures Offset(s, units).Some? <==> 0 <= units <= |Encode(s)| && (units == |Encode(s)| || !IsLow(Encode(s)[units]))
  {
    if units != 0 && s != "" && units >= Width(s[0]) {
      OffsetExists(s[1..], units - Width(s[0]));
    }
  }

  /** A prefix ends at the boundary its own length in units determines. */
  lemma {:induction false} PrefixOffset(s: string, i: nat)
    requires i <= |s|
    ensures Offset(s, |Encode(s[..i])|) == Some(i)
  {
    if i > 0 {
      assert s[..i][1..] == s[1..][..i - 1];
      PrefixOffset(s[1..], i - 1);
    } else {
      assert s[..0] == "";
    }
  }

  /** One step of the scan: i code points and `count` units are behind it. */
  lemma ScanStep(text: string, units: int, count: nat, i: nat)
    requires i < |text|
    ensures var rest, w := text[i..], Width(text[i]);
      && (units == count ==> Offset(rest, units - count) == Some(0))
      && (units != count && count + w > units ==> Offset(rest, units - count) == None)
      && (units != count && count + w <= units ==>
            Offset(rest, units - count) == match Offset(text[i + 1..], units - (count + w)) case Some(j) => Some(j + 1) case None => None)
  {
    assert text[i..][0] == text[i] && text[i..][1..] == text[i + 1..];
  }

  function Plus(r: Option<nat>, i: nat): Option<nat> {
    match r
    case Some(j) => Some(i + j)
    case None => None
  }

  /** The scan: stops at the boundary, or as soon as it has passed the offset. */
  method OffsetOf(text: string, units: int) returns (r: Option<nat>)
    ensures r == Offset(text, units)
  {
    hide Offset, Width;
    var count := 0;
    assert text[0..] == text;
    assert Plus(Offset(text, units), 0) == Offset(text, units);
    for i := 0 to |text|
      invariant Plus(Offset(text[i..], units - count), i) == Offset(text, units)
    {
      ScanStep(text, units, count, i);
      if count == units {
        return Some(i);
      }
      WidthIs(text[i]);
      count := count + 1;
      if text[i] as int > 0xFFFF {
        count := count + 1;
      }
      if count > units {
        return None;
      }
    }
    ScanEnd(text, units - count);
    if count == units {
      return Some(|text|);
    }
    return None;
  }

  lemma WidthIs(c: char)
    ensures Width(c) == if c as int > 0xFFFF then 2 else 1
  {
  }

  lemma ScanEnd(text: string, units: int)
    ensures Offset(text[|text|..], units) == if units == 0 then Some(0) else None
  {
  }

  // --------------------------------------------------------------------- decoding

  /** A first unit of a surrogate pair. */
  predicate IsHigh(unit: int) {
    0xD800 <= unit <= 0xDBFF
  }

  /** The code points that code units stand for (section 2.2 of RFC 2781); none for a stray surrogate. */
  function Decode(units: seq<int>): Option<seq<int>>
    decreases |units|
  {
    if units == [] then Some([])
    else if !IsHigh(units[0]) then
      if IsLow(units[0]) then None else Put(units[0], Decode(units[1..]))
    else if |units| >= 2 && IsLow(units[1]) then
      Put(0x10000 + (units[0] - 0xD800) * 0x400 + (units[1] - 0xDC00), Decode(units[2..]))
    else None
  }

  function Put(point: int, rest: Option<seq<int>>): Option<seq<int>> {
    match rest
    case Some(points) => Some([point] + points)
    case None => None
  }

  function Points(s: string): seq<int> {
    seq(|s|, i requires 0 <= i < |s| => s[i] as int)
  }

  /** The encoding of a text decodes to its code points, so texts with one encoding are one text. */
  lemma {:induction false} DecodeEncode(s: string)
    ensures Decode(Encode(s)) == Some(Points(s))
  {
    if s == "" {
    } else {
      var e, rest := EncodeChar(s[0]), Encode(s[1..]);
      DecodeEncode(s[1..]);
      CharDecodes(s[0]);
      assert (e + rest)[|e|..] == rest;
      assert Points(s) == [s[0] as int] + Points(s[1..]);
    }
  }

  lemma CharDecodes(c: char)
    ensures var e := EncodeChar(c);
      if |e| == 1 then e[0] == c as int && !IsHigh(e[0]) && !IsLow(e[0])
      else IsHigh(e[0]) && IsLow(e[1]) && 0x10000 + (e[0] - 0xD800) * 0x400 + (e[1] - 0xDC00) == c as int
  {
    var u := c as int;
    if u > 0xFFFF {
      var v := u - 0x10000;
      assert v == (v / 0x400) * 0x400 + v % 0x400 && v < 0x100000;
    }
  }
}
