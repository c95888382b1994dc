/**
 EscapeString (util.h) and the string syntax of section 7 of RFC 8259: escaping succeeds
 exactly on well-formed UTF-8, unescaping gives the code points back, and with arbitrary
 bytes allowed no two inputs are escaped alike.
 */
module EscapeString {
  import opened Bits
  import opened Bytes
  import opened Wrappers
  import opened Utf8

  const QUOTE: byte := 0x22
  const BACKSLASH: byte := 0x5C

  // ---------- Hexadecimal digits ----------

  function HexDigit(d: nat): (c: byte)
    requires d < 16
  {
    if d < 10 then 0x30 + d else 0x37 + d
  }

  /** Upper-case digits, most significant first. */
  function Hex(n: nat, digits: nat): (s: bytes)
    ensures |s| == digits
    decreases digits
  {
    if digits == 0 then [] else Hex(n / 16, digits - 1) + [HexDigit(n % 16)]
  }

  /** The value of a digit in either case, as the standard allows. */
  function DigitValue(c: byte): Option<nat> {
    if 0x30 <= c <= 0x39 then Some(c - 0x30)
    else if 0x41 <= c <= 0x46 then Some(c - 0x37)
    else if 0x61 <= c <= 0x66 then Some(c - 0x57)
    else None
  }

  function HexValue(s: bytes): Option<nat>
    decreases |s|
  {
    if s == [] then Some(0)
    else
      var high :- HexValue(s[..|s| - 1]);
      var low :- DigitValue(s[|s| - 1]);
      Some(16 * high + low)
  }

  function Pow16(digits: nat): (p: nat)
    ensures p >= 1
  {
    if digits == 0 then 1 else 16 * Pow16(digits - 1)
  }

  lemma {:induction false} HexReads(n: nat, digits: nat)
    requires n < Pow16(digits)
    ensures HexValue(Hex(n, digits)) == Some(n)
    decreases digits
  {
    if digits > 0 {
      HexReads(n / 16, digits - 1);
      var s := Hex(n, digits);
      assert s[..|s| - 1] == Hex(n / 16, digits - 1);
      assert DigitValue(HexDigit(n % 16)) == Some(n % 16);
    }
  }

  lemma Pow16Values()
    ensures Pow16(2) == 0x100 && Pow16(4) == 0x1_0000
  {
    assert Pow16(3) == 0x1000;
  }

  // ---------- What is escaped at a time ----------

  /** A code point, or a byte that does not begin one. */
  datatype Unit = Point(u: nat) | Raw(b: byte)
  {
    predicate Valid() { if Point? then IsScalar(u) else b >= 0x80 }

    function Bytes(): (s: bytes)
      requires Valid()
      ensures |s| >= 1
    {
      if Point? then Encoded(u) else [b]
    }
  }

  predicate AllValid(us: seq<Unit>) {
    forall i :: 0 <= i < |us| ==> us[i].Valid()
  }

  /** The unit at `i`; an ill-formed first byte stands for itself. */
  function UnitAt(s: bytes, i: nat): (r: Unit)
    requires i < |s|
    ensures r.Valid() && i + |r.Bytes()| <= |s| && s[i..i + |r.Bytes()|] == r.Bytes()
  {
    var d := DecodeAt(s, i);
    if d.None? then NoneIsHigh(s, i); Raw(s[i]) else AcceptedIsEncoded(s, i); Point(d.value.0)
  }

  lemma NoneIsHigh(s: bytes, i: nat)
    requires i < |s| && DecodeAt(s, i).None?
    ensures s[i] >= 0x80
  {
  }

  function Units(s: bytes, i: nat): (us: seq<Unit>)
    requires i <= |s|
    decreases |s| - i
  {
    if i == |s| then [] else [UnitAt(s, i)] + Units(s, i + |UnitAt(s, i).Bytes()|)
  }

  function UnitsBytes(us: seq<Unit>): bytes
    requires AllValid(us)
  {
    if us == [] then [] else us[0].Bytes() + UnitsBytes(us[1..])
  }

  /** No byte gets lost or is taken twice. */
  lemma {:induction false} UnitsCover(s: bytes, i: nat)
    requires i <= |s|
    ensures AllValid(Units(s, i)) && UnitsBytes(Units(s, i)) == s[i..]
    decreases |s| - i
  {
    if i < |s| {
      var u := UnitAt(s, i);
      hide UnitAt;
      UnitsCover(s, i + |u.Bytes()|);
      assert s[i..] == s[i..i + |u.Bytes()|] + s[i + |u.Bytes()|..];
    }
  }

  function EscapePoint(u: nat): bytes
    requires IsScalar(u)
  {
    if u == 0x0A then [BACKSLASH, 0x6E]
    else if u == 0x09 then [BACKSLASH, 0x74]
    else if u == 0x0D then [BACKSLASH, 0x72]
    else if u == 0x08 then [BACKSLASH, 0x62]
    else if u == 0x0C then [BACKSLASH, 0x66]
    else if u == 0x22 then [BACKSLASH, QUOTE]
    else if u == 0x5C then [BACKSLASH, BACKSLASH]
    else if 0x20 <= u <= 0x7E then [u]
    else if u <= 0xFFFF then [BACKSLASH, 0x75] + Hex(u, 4)
    else
      [BACKSLASH, 0x75] + Hex((u - 0x1_0000) / 0x400 + 0xD800, 4)
      + [BACKSLASH, 0x75] + Hex((u - 0x1_0000) % 0x400 + 0xDC00, 4)
  }

  function EscapeUnit(u: Unit): bytes
    requires u.Valid()
  {
    if u.Point? then EscapePoint(u.u) else [BACKSLASH, 0x78] + Hex(u.b, 2)
  }

  function EscapeUnits(us: seq<Unit>): bytes
    requires AllValid(us)
  {
    if us == [] then [] else EscapeUnit(us[0]) + EscapeUnits(us[1..])
  }

  // ---------- The form of every escape ----------

  /** Upper-case hexadecimal digits only. */
  predicate UpperHex(s: bytes) {
    forall i :: 0 <= i < |s| ==> 0x30 <= s[i] <= 0x39 || 0x41 <= s[i] <= 0x46
  }

  /** Upper-case digits are determined by their number and their value. */
  lemma {:induction false} HexUnique(s: bytes, n: nat)
    requires n < Pow16(|s|)
    ensures UpperHex(s) && HexValue(s) == Some(n) <==> s == Hex(n, |s|)
    decreases |s|
  {
    if s != [] {
      var k := |s| - 1;
      var r := Hex(n, |s|);
      assert r[..k] == Hex(n / 16, k) && r[k] == HexDigit(n % 16);
      assert s == s[..k] + [s[k]];
      assert UpperHex(s) <==> UpperHex(s[..k]) && UpperHex([s[k]]) by { UpperHexSplit(s, k); }
      DigitUnique(s[k], n % 16);
      HexUnique(s[..k], n / 16);
      HexSplit(s, n);
    }
  }

  lemma UpperHexSplit(s: bytes, k: nat)
    requires k + 1 == |s|
    ensures UpperHex(s) <==> UpperHex(s[..k]) && UpperHex([s[k]])
  {
    if UpperHex(s[..k]) && UpperHex([s[k]]) {
      forall i | 0 <= i < |s| ensures 0x30 <= s[i] <= 0x39 || 0x41 <= s[i] <= 0x46 {
        if i < k { assert s[..k][i] == s[i]; } else { assert [s[k]][0] == s[i]; }
      }
    }
  }

  lemma DigitUnique(c: byte, d: nat)
    requires d < 16
    ensures UpperHex([c]) && DigitValue(c) == Some(d) <==> c == HexDigit(d)
  {
    if UpperHex([c]) { assert [c][0] == c; }
  }

  /** A value splits into that of the front and the last digit. */
  lemma HexSplit(s: bytes, n: nat)
    requires s != [] && n < Pow16(|s|)
    ensures n / 16 < Pow16(|s| - 1)
    ensures HexValue(s) == Some(n) <==> HexValue(s[..|s| - 1]) == Some(n / 16) && DigitValue(s[|s| - 1]) == Some(n % 16)
  {
  }

  /** The characters with an escape of two, and the letter each takes. */
  const SHORT: map<nat, byte> :=
    map[0x08 := 0x62, 0x09 := 0x74, 0x0A := 0x6E, 0x0C := 0x66, 0x0D := 0x72, 0x22 := 0x22, 0x5C := 0x5C]

  predicate IsPrintable(u: nat) {
    0x20 <= u <= 0x7E && u != 0x22 && u != 0x5C
  }

  /** A backslash, a letter, and `digits` upper-case digits of the value n. */
  predicate HexForm(e: bytes, letter: byte, digits: nat, n: nat) {
    |e| == digits + 2 && e[0] == BACKSLASH && e[1] == letter && UpperHex(e[2..]) && HexValue(e[2..]) == Some(n)
  }

  /**
   What each character looks like: printable ASCII stands for itself, seven characters have
   an escape of two, every other code point a `\uXXXX` or a surrogate pair of them, and a
   stray byte a `\xXX`, all with upper-case digits.
   */
  predicate EscapedForm(u: Unit, e: bytes) {
    match u
    case Raw(b) => HexForm(e, 0x78, 2, b)
    case Point(p) =>
      if IsPrintable(p) then e == [p]
      else if p in SHORT then e == [BACKSLASH, SHORT[p]]
      else if p <= 0xFFFF then HexForm(e, 0x75, 4, p)
      else
        && |e| == 12
        && HexForm(e[..6], 0x75, 4, 0xD800 + (p - 0x1_0000) / 0x400)
        && HexForm(e[6..], 0x75, 4, 0xDC00 + (p - 0x1_0000) % 0x400)
  }

  lemma HexFormIs(e: bytes, letter: byte, digits: nat, n: nat)
    requires n < Pow16(digits)
    ensures HexForm(e, letter, digits, n) <==> e == [BACKSLASH, letter] + Hex(n, digits)
  {
    hide HexValue, UpperHex, Hex;
    if |e| == digits + 2 {
      HexUnique(e[2..], n);
      assert e == [e[0], e[1]] + e[2..];
    }
  }

  /** An escape has exactly the form its character asks for. */
  lemma EscapeUnitForm(u: Unit, e: bytes)
    requires u.Valid()
    ensures EscapedForm(u, e) <==> e == EscapeUnit(u)
  {
    hide Hex, HexForm;
    Pow16Values();
    match u
    case Raw(b) => HexFormIs(e, 0x78, 2, b);
    case Point(p) =>
      if p <= 0xFFFF {
        HexFormIs(e, 0x75, 4, p);
      } else if |e| == 12 {
        HexFormIs(e[..6], 0x75, 4, 0xD800 + (p - 0x1_0000) / 0x400);
        HexFormIs(e[6..], 0x75, 4, 0xDC00 + (p - 0x1_0000) % 0x400);
        assert e == e[..6] + e[6..];
        PairOf(e, p);
      }
  }

  /** The two halves of a surrogate pair, put together. */
  lemma PairOf(e: bytes, p: nat)
    requires |e| == 12 && 0x1_0000 <= p <= 0x10FFFF
    ensures e == EscapePoint(p) <==>
            && e[..6] == [BACKSLASH, 0x75] + Hex(0xD800 + (p - 0x1_0000) / 0x400, 4)
            && e[6..] == [BACKSLASH, 0x75] + Hex(0xDC00 + (p - 0x1_0000) % 0x400, 4)
  {
    hide Hex;
    var a := [BACKSLASH, 0x75] + Hex(0xD800 + (p - 0x1_0000) / 0x400, 4);
    var b := [BACKSLASH, 0x75] + Hex(0xDC00 + (p - 0x1_0000) % 0x400, 4);
    assert EscapePoint(p) == a + b;
    assert (a + b)[..6] == a && (a + b)[6..] == b;
    assert e == e[..6] + e[6..];
  }

  predicate AllPrintable(s: bytes) {
    forall i :: 0 <= i < |s| ==> IsPrintable(s[i])
  }

  lemma {:induction false} PrintableUnits(s: bytes, i: nat)
    requires i <= |s| && AllPrintable(s)
    ensures AllValid(Units(s, i)) && EscapeUnits(Units(s, i)) == s[i..]
    decreases |s| - i
  {
    if i < |s| {
      PrintableUnit(s, i);
      PrintableUnits(s, i + 1);
      assert s[i..] == [s[i]] + s[i + 1..];
      var us := Units(s, i);
      assert us == [Point(s[i])] + Units(s, i + 1);
      assert us[1..] == Units(s, i + 1);
      UnitsCover(s, i);
    }
  }

  lemma PrintableUnit(s: bytes, i: nat)
    requires i < |s| && IsPrintable(s[i])
    ensures UnitAt(s, i) == Point(s[i]) && |UnitAt(s, i).Bytes()| == 1 && EscapePoint(s[i]) == [s[i]]
  {
    DecodesOne(s, i);
  }

  /** Printable text is only put in quotes. */
  lemma PrintableUnchanged(s: bytes)
    requires AllPrintable(s)
    ensures Escaped(s) == [QUOTE] + s + [QUOTE]
  {
    PrintableUnits(s, 0);
    assert s[0..] == s;
  }

  // ---------- The standard's string syntax ----------

  /** Four hexadecimal digits at `i`. */
  function FourDigits(t: bytes, i: nat): Option<nat> {
    if i + 4 <= |t| then HexValue(t[i..i + 4]) else None
  }

  /** `\uXXXX` at `i`. */
  function CodeUnit(t: bytes, i: nat): Option<nat> {
    if i + 6 <= |t| && t[i] == BACKSLASH && t[i + 1] == 0x75 then FourDigits(t, i + 2) else None
  }

  /**
   One character of a string: an unescaped character, a two-character escape, `\uXXXX`, or a
   surrogate pair of those. With `extended`, also the library's own `\xXX`.
   */
  function Character(t: bytes, i: nat, extended: bool): Option<(Unit, nat)>
    requires i < |t|
  {
    if t[i] != BACKSLASH then
      if t[i] < 0x20 || t[i] == QUOTE then None
      else
        var d :- DecodeAt(t, i);
        Some((Point(d.0), d.1))
    else if i + 1 >= |t| then None
    else if t[i + 1] == 0x22 || t[i + 1] == 0x5C || t[i + 1] == 0x2F then Some((Point(t[i + 1]), 2))
    else if t[i + 1] == 0x62 then Some((Point(0x08), 2))
    else if t[i + 1] == 0x66 then Some((Point(0x0C), 2))
    else if t[i + 1] == 0x6E then Some((Point(0x0A), 2))
    else if t[i + 1] == 0x72 then Some((Point(0x0D), 2))
    else if t[i + 1] == 0x74 then Some((Point(0x09), 2))
    else if t[i + 1] == 0x75 then
      var high :- CodeUnit(t, i);
      if IsScalar(high) then Some((Point(high), 6))
      else
        var low :- CodeUnit(t, i + 6);
        if 0xD800 <= high <= 0xDBFF && 0xDC00 <= low <= 0xDFFF
        then Some((Point(0x1_0000 + 0x400 * (high - 0xD800) + (low - 0xDC00)), 12)) else None
    else if t[i + 1] == 0x78 && extended && i + 4 <= |t| then
      var b :- HexValue(t[i + 2..i + 4]);
      if 0x80 <= b < 0x100 then Some((Raw(b), 4)) else None
    else None
  }

  /** The characters from `i` up to the closing quote, which ends the text. */
  function Unescape(t: bytes, i: nat, extended: bool): Option<seq<Unit>>
    requires i <= |t|
    decreases |t| - i
  {
    if i == |t| then None
    else if t[i] == QUOTE then (if i + 1 == |t| then Some([]) else None)
    else
      var c :- Character(t, i, extended);
      if c.1 == 0 || i + c.1 > |t| then None
      else
        var rest :- Unescape(t, i + c.1, extended);
        Some([c.0] + rest)
  }

  // ---------- Unescaping undoes escaping ----------

  lemma Spliced(before: bytes, e: bytes, after: bytes, i: nat, j: nat)
    requires i <= j <= |e|
    ensures (before + e + after)[|before| + i..|before| + j] == e[i..j]
  {
  }

  lemma SplicedByte(before: bytes, e: bytes, after: bytes, i: nat)
    requires i < |e|
    ensures (before + e + after)[|before| + i] == e[i]
  {
  }

  lemma CodeUnitReads(before: bytes, n: nat, after: bytes)
    requires n < 0x1_0000
    ensures CodeUnit(before + ([BACKSLASH, 0x75] + Hex(n, 4)) + after, |before|) == Some(n)
  {
    hide Hex, HexValue;
    Pow16Values();
    HexReads(n, 4);
    var e := [BACKSLASH, 0x75] + Hex(n, 4);
    SplicedByte(before, e, after, 0);
    SplicedByte(before, e, after, 1);
    Spliced(before, e, after, 2, 6);
    assert e[2..6] == Hex(n, 4);
  }

  /** The escape of a code point reads back as that code point, and it is never a closing quote. */
  lemma PointReads(before: bytes, u: nat, after: bytes, extended: bool)
    requires IsScalar(u)
    ensures var e := EscapePoint(u);
            var t := before + e + after;
            |e| > 0 && t[|before|] != QUOTE && Character(t, |before|, extended) == Some((Point(u), |e|))
  {
    hide Hex, CodeUnit, FourDigits;
    var e := EscapePoint(u);
    var t := before + e + after;
    SplicedByte(before, e, after, 0);
    if u > 0xFFFF {
      PairReads(before, u, after, extended);
    } else if |e| == 6 {
      SplicedByte(before, e, after, 1);
      CodeUnitReads(before, u, after);
    } else if |e| == 2 {
      SplicedByte(before, e, after, 1);
    } else {
      DecodesOne(t, |before|);
    }
  }

  lemma PairReads(before: bytes, u: nat, after: bytes, extended: bool)
    requires IsScalar(u) && u > 0xFFFF
    ensures var e := EscapePoint(u);
            var t := before + e + after;
            |e| == 12 && Character(t, |before|, extended) == Some((Point(u), 12))
  {
    hide Hex, CodeUnit, FourDigits;
    var high, low := (u - 0x1_0000) / 0x400 + 0xD800, (u - 0x1_0000) % 0x400 + 0xDC00;
    var e1, e2 := [BACKSLASH, 0x75] + Hex(high, 4), [BACKSLASH, 0x75] + Hex(low, 4);
    var t := before + EscapePoint(u) + after;
    assert t == before + e1 + (e2 + after);
    assert t == (before + e1) + e2 + after;
    CodeUnitReads(before, high, e2 + after);
    CodeUnitReads(before + e1, low, after);
    SplicedByte(before, e1, e2 + after, 0);
    SplicedByte(before, e1, e2 + after, 1);
  }

  lemma UnitReads(before: bytes, u: Unit, after: bytes, extended: bool)
    requires u.Valid() && (u.Raw? ==> extended)
    ensures var e := EscapeUnit(u);
            var t := before + e + after;
            |e| > 0 && t[|before|] != QUOTE && Character(t, |before|, extended) == Some((u, |e|))
  {
    hide Hex, HexValue, CodeUnit, DecodeAt;
    if u.Point? {
      PointReads(before, u.u, after, extended);
    } else {
      var e := EscapeUnit(u);
      Pow16Values();
      HexReads(u.b, 2);
      SplicedByte(before, e, after, 0);
      SplicedByte(before, e, after, 1);
      Spliced(before, e, after, 2, 4);
      assert e[2..4] == Hex(u.b, 2);
    }
  }

  /** Reading escaped units up to the closing quote gives the units back. */
  lemma {:induction false} UnescapesEscaped(before: bytes, us: seq<Unit>, extended: bool)
    requires AllValid(us) && (extended || AllPoints(us))
    ensures Unescape(before + EscapeUnits(us) + [QUOTE], |before|, extended) == Some(us)
    decreases |us|
  {
    hide Character, EscapeUnit;
    var t := before + EscapeUnits(us) + [QUOTE];
    if us != [] {
      var e := EscapeUnit(us[0]);
      var rest := EscapeUnits(us[1..]) + [QUOTE];
      assert t == before + e + rest;
      assert t == (before + e) + EscapeUnits(us[1..]) + [QUOTE];
      UnitReads(before, us[0], rest, extended);
      UnescapesEscaped(before + e, us[1..], extended);
      assert us == [us[0]] + us[1..];
    }
  }

  // ---------- The whole string ----------

  /** What a successful call appends. */
  function Escaped(s: bytes): bytes {
    UnitsCover(s, 0);
    [QUOTE] + EscapeUnits(Units(s, 0)) + [QUOTE]
  }

  function Points(us: seq<nat>): (r: seq<Unit>)
    ensures |r| == |us|
  {
    seq(|us|, i requires 0 <= i < |us| => Point(us[i]))
  }

  ghost predicate WellFormedUtf8(s: bytes) {
    exists us :: AllScalars(us) && EncodeAll(us) == s
  }

  lemma {:induction false} UnitsAreDecoded(s: bytes, i: nat)
    requires i <= |s|
    ensures DecodeAll(s, i).Some? <==> AllPoints(Units(s, i))
    ensures DecodeAll(s, i).Some? ==> Units(s, i) == Points(DecodeAll(s, i).value)
    decreases |s| - i
  {
    hide Encoded, DecodeAt, UnitAt, AllPoints, Points;
    NoPoints();
    if i < |s| {
      var u := UnitAt(s, i);
      var rest := Units(s, i + |u.Bytes()|);
      PointsOfTail(u, rest);
      UnitDecodes(s, i);
      UnitsAreDecoded(s, i + |u.Bytes()|);
      if u.Point? && DecodeAll(s, i + |u.Bytes()|).Some? { PointsOfAll(u.u, DecodeAll(s, i + |u.Bytes()|).value); }
    }
  }

  lemma NoPoints()
    ensures AllPoints([]) && Points([]) == []
  {
  }

  lemma PointsOfTail(u: Unit, rest: seq<Unit>)
    ensures AllPoints([u] + rest) <==> u.Point? && AllPoints(rest)
  {
    var all := [u] + rest;
    if AllPoints(all) {
      assert all[0] == u;
      assert forall k :: 0 <= k < |rest| ==> rest[k] == all[k + 1];
    }
  }

  lemma PointsOfAll(u: nat, us: seq<nat>)
    ensures Points([u] + us) == [Point(u)] + Points(us)
  {
  }

  lemma UnitDecodes(s: bytes, i: nat)
    requires i < |s|
    ensures DecodeAt(s, i).Some? <==> UnitAt(s, i).Point?
    ensures DecodeAt(s, i).Some? ==> DecodeAt(s, i).value == (UnitAt(s, i).u, |UnitAt(s, i).Bytes()|)
  {
    hide Encoded;
    if DecodeAt(s, i).Some? { AcceptedIsEncoded(s, i); }
  }

  lemma WellFormedDecodes(s: bytes)
    ensures WellFormedUtf8(s) <==> DecodeAll(s, 0).Some?
  {
    hide Encoded, DecodeAll, EncodeAll;
    if WellFormedUtf8(s) {
      var us :| AllScalars(us) && EncodeAll(us) == s;
      DecodesEncoded([], us);
      assert [] + s == s;
    }
    if DecodeAll(s, 0).Some? {
      EncodesDecoded(s, 0);
      assert s[0..] == s;
    }
  }

  /** On well-formed UTF-8, the standard reads the escaped string as exactly the code points of the input. */
  lemma UnescapeEscaped(us: seq<nat>)
    requires AllScalars(us)
    ensures var t := Escaped(EncodeAll(us));
            t[0] == QUOTE && Unescape(t, 1, false) == Some(Points(us))
  {
    hide Units, Unescape, EscapeUnits, Encoded;
    var s := EncodeAll(us);
    DecodesEncoded([], us);
    assert [] + s == s;
    UnitsAreDecoded(s, 0);
    UnitsCover(s, 0);
    UnescapesEscaped([QUOTE], Units(s, 0), false);
  }

  /** With arbitrary bytes allowed, different inputs are escaped differently. */
  lemma EscapedInjective(s: bytes, r: bytes)
    requires Escaped(s) == Escaped(r)
    ensures s == r
  {
    hide Units, Unescape, EscapeUnits, UnitsBytes;
    UnitsCover(s, 0);
    UnitsCover(r, 0);
    UnescapesEscaped([QUOTE], Units(s, 0), true);
    UnescapesEscaped([QUOTE], Units(r, 0), true);
    assert s[0..] == s && r[0..] == r;
  }

  // ---------- EscapeString ----------

  lemma {:induction false} EscapeOneMore(us: seq<Unit>, u: Unit)
    requires AllValid(us) && u.Valid()
    ensures AllValid(us + [u]) && EscapeUnits(us + [u]) == EscapeUnits(us) + EscapeUnit(u)
    decreases |us|
  {
    hide EscapeUnit;
    if us == [] {
      assert [u][1..] == [];
      assert EscapeUnits([u]) == EscapeUnit(u) + EscapeUnits([]);
    } else {
      EscapeOneMore(us[1..], u);
      assert (us + [u])[1..] == us[1..] + [u];
    }
  }

  lemma {:induction false} CollectTerminated(s: bytes, i: nat, k: nat, u: nat)
    requires i <= |s|
    ensures Collect(s + [0], i, k, u) == Collect(s, i, k, u)
    decreases k
  {
    if k > 0 && i < |s| && Tail(s, i) {
      CollectTerminated(s, i + 1, k - 1, 0x40 * u + Low(s, i));
    }
  }

  /** The terminator is never part of a code point before it. */
  lemma DecodeTerminated(s: bytes, i: nat)
    requires i < |s|
    ensures DecodeAt(s + [0], i) == DecodeAt(s, i)
  {
    hide Collect;
    var len := LeadingOnes(s[i]);
    if len >= 1 { CollectTerminated(s, i + 1, len - 1, LeadBits(s[i], len)); }
  }

  /** The switch over single characters; empty for those that take a hexadecimal escape. */
  function Plain(c: byte): bytes {
    if c == 0x0A then [BACKSLASH, 0x6E]
    else if c == 0x09 then [BACKSLASH, 0x74]
    else if c == 0x0D then [BACKSLASH, 0x72]
    else if c == 0x08 then [BACKSLASH, 0x62]
    else if c == 0x0C then [BACKSLASH, 0x66]
    else if c == 0x22 then [BACKSLASH, QUOTE]
    else if c == 0x5C then [BACKSLASH, BACKSLASH]
    else if 0x20 <= c <= 0x7E then [c]
    else []
  }

  lemma PlainUnit(s: bytes, i: nat)
    requires i < |s| && Plain(s[i]) != []
    ensures UnitAt(s, i) == Point(s[i]) && EscapeUnit(UnitAt(s, i)) == Plain(s[i]) && |UnitAt(s, i).Bytes()| == 1
  {
  }

  lemma RawUnit(s: bytes, i: nat)
    requires i < |s| && DecodeAt(s, i).None?
    ensures UnitAt(s, i) == Raw(s[i]) && |UnitAt(s, i).Bytes()| == 1
    ensures EscapeUnit(UnitAt(s, i)) == [BACKSLASH, 0x78] + Hex(s[i], 2)
  {
  }

  lemma PointUnit(s: bytes, i: nat)
    requires i < |s| && Plain(s[i]) == [] && DecodeAt(s, i).Some?
    ensures var (u, n) := DecodeAt(s, i).value;
            && IsScalar(u) && UnitAt(s, i) == Point(u) && |UnitAt(s, i).Bytes()| == n
            && (u <= 0xFFFF ==> EscapeUnit(UnitAt(s, i)) == [BACKSLASH, 0x75] + Hex(u, 4))
            && (u > 0xFFFF ==>
                  EscapeUnit(UnitAt(s, i)) == [BACKSLASH, 0x75] + Hex((u - 0x1_0000) / 0x400 + 0xD800, 4)
                                              + [BACKSLASH, 0x75] + Hex((u - 0x1_0000) % 0x400 + 0xDC00, 4))
  {
    hide Encoded, Hex;
    AcceptedIsEncoded(s, i);
    SmallDecodes(s, i);
  }

  lemma SmallDecodes(s: bytes, i: nat)
    requires i < |s| && DecodeAt(s, i).Some?
    ensures DecodeAt(s, i).value.0 < 0x80 ==> DecodeAt(s, i).value.0 == s[i] as nat
  {
  }

  /** Appends the escape of one character that does not stand for itself; -1 when the input has to be given up. */
  method EscapeOther(t: bytes, i: nat, allowNonUtf8: bool) returns (more: bytes, next: int)
    requires i < |t| && Plain(t[i]) == []
    ensures next < 0 <==> !allowNonUtf8 && UnitAt(t, i).Raw?
    ensures next >= 0 ==> more == EscapeUnit(UnitAt(t, i)) && next == i + |UnitAt(t, i).Bytes()|
  {
    hide Hex, DecodeAt, And, Plain, UnitAt, EscapeUnit, Encoded;
    DecodeTerminated(t, i);
    var ucc, utf8 := FromUTF8(t + [0], i);
    if ucc < 0 {
      RawUnit(t, i);
      if !allowNonUtf8 { return [], -1; }
      return [BACKSLASH, 0x78] + Hex(t[i], 2), i + 1;
    }
    PointUnit(t, i);
    if ucc <= 0xFFFF {
      more := [BACKSLASH, 0x75] + Hex(ucc, 4);
    } else {
      var base := ucc - 0x1_0000;
      var highSurrogate := Shr(base, 10) + 0xD800;
      var lowSurrogate := And(base, 0x03FF) + 0xDC00;
      SurrogateBits(base);
      more := [BACKSLASH, 0x75] + Hex(highSurrogate, 4) + [BACKSLASH, 0x75] + Hex(lowSurrogate, 4);
    }
    next := utf8;
  }

  lemma SurrogateBits(base: nat)
    ensures Shr(base, 10) == base / 0x400 && And(base, 0x03FF) == base % 0x400
  {
    Pow2Values();
    ShrDivides(base, 10);
    AndMask(base, 10);
  }

  /** Appends the escape of the unit at `i`. */
  method EscapeNext(s: bytes, i: nat, allowNonUtf8: bool) returns (more: bytes, next: int)
    requires i < |s|
    ensures next < 0 <==> !allowNonUtf8 && UnitAt(s, i).Raw?
    ensures next >= 0 ==> more == EscapeUnit(UnitAt(s, i)) && next == i + |UnitAt(s, i).Bytes()|
  {
    hide Plain, UnitAt, EscapeUnit, Encoded;
    if Plain(s[i]) != [] {
      PlainUnit(s, i);
      return Plain(s[i]), i + 1;
    }
    more, next := EscapeOther(s, i, allowNonUtf8);
  }

  lemma UnitsFrom(s: bytes, i: nat)
    requires i < |s|
    ensures Units(s, i) == [UnitAt(s, i)] + Units(s, i + |UnitAt(s, i).Bytes()|)
  {
  }

  /** `us` are the characters in front of the first byte that does not begin one. */
  ghost predicate GivenUp(s: bytes, us: seq<Unit>) {
    && AllValid(us) && AllPoints(us)
    && us < Units(s, 0) && Units(s, 0)[|us|].Raw?
  }

  lemma GivenUpAt(s: bytes, us: seq<Unit>, i: nat)
    requires i < |s| && AllValid(us) && AllPoints(us) && us + Units(s, i) == Units(s, 0)
    requires Units(s, i) != [] && Units(s, i)[0].Raw?
    ensures GivenUp(s, us)
  {
    hide Units;
  }

  /**
   EscapeString with natural_utf8 off. It fails exactly when the input is not well-formed
   UTF-8 and other bytes are not allowed.
   */
  method EscapeString(s: bytes, text0: bytes, allowNonUtf8: bool) returns (ok: bool, text: bytes)
    requires |s| < 0x1_0000_0000
    ensures ok <==> allowNonUtf8 || WellFormedUtf8(s)
    ensures ok ==> text == text0 + Escaped(s)
    ensures !ok ==> exists us :: GivenUp(s, us) && text == text0 + [QUOTE] + EscapeUnits(us)
  {
    hide WellFormedUtf8, Units, UnitAt, EscapeUnit, EscapeUnits, Encoded, AllPoints, AllValid;
    WellFormedDecodes(s);
    UnitsAreDecoded(s, 0);
    UnitsCover(s, 0);
    text := text0 + [QUOTE];
    var i := 0;
    ghost var us: seq<Unit> := [];
    NoUnits();
    assert us + Units(s, 0) == Units(s, 0);
    while i < |s|
      invariant i <= |s| && AllValid(us) && us + Units(s, i) == Units(s, 0)
      invariant text == text0 + [QUOTE] + EscapeUnits(us)
      invariant allowNonUtf8 || AllPoints(us)
      decreases |s| - i
    {
      var more, next := EscapeNext(s, i, allowNonUtf8);
      NextUnit(s, us, i);
      if next < 0 {
        UnitsFrom(s, i);
        GivenUpAt(s, us, i);
        return false, text;
      }
      text := text + more;
      us := us + [UnitAt(s, i)];
      i := next;
    }
    AllUnits(s, us);
    text := text + [QUOTE];
    ok := true;
  }

  lemma NoUnits()
    ensures EscapeUnits([]) == [] && AllValid([]) && AllPoints([])
  {
  }

  lemma AllUnits(s: bytes, us: seq<Unit>)
    requires us + Units(s, |s|) == Units(s, 0)
    ensures us == Units(s, 0)
  {
  }

  predicate AllPoints(us: seq<Unit>) {
    forall k :: 0 <= k < |us| ==> us[k].Point?
  }

  /** One more unit done; a raw byte among the units shows up in the whole. */
  lemma NextUnit(s: bytes, us: seq<Unit>, i: nat)
    requires i < |s| && AllValid(us) && us + Units(s, i) == Units(s, 0)
    ensures var u := UnitAt(s, i);
            && AllValid(us + [u]) && us + [u] + Units(s, i + |u.Bytes()|) == Units(s, 0)
            && EscapeUnits(us + [u]) == EscapeUnits(us) + EscapeUnit(u)
            && (u.Raw? ==> !AllPoints(Units(s, 0)))
            && (AllPoints(us) && u.Point? ==> AllPoints(us + [u]))
  {
    hide UnitAt, EscapeUnit, EscapeUnits, Units;
    var u := UnitAt(s, i);
    UnitsFrom(s, i);
    EscapeOneMore(us, u);
    assert us + ([u] + Units(s, i + |u.Bytes()|)) == us + [u] + Units(s, i + |u.Bytes()|);
    assert (us + Units(s, i))[|us|] == u;
  }
}
