/**
 Content addresses and the retrieval marker codec (internal/ccr/marker.go).
 The printer is canonical; the parser is more liberal (extra white space, a sign,
 leading zeros). The theorems say that printing is inverted by parsing and that
 parsing followed by printing picks a shortest spelling of the same address.
 */
module Marker {
  import opened Outcome
  import opened Text

  datatype MarkerError = InvalidAddress | InvalidMarker

  const MaxInt64 := 0x7FFF_FFFF_FFFF_FFFF

  /** Go's int on the supported 64-bit platforms. */
  type Int64 = x: int | -MaxInt64 - 1 <= x <= MaxInt64

  datatype Address = Address(algorithm: string, hex: string, bytes: Int64)

  const AlgorithmSHA256 := "sha256"
  const MarkerVersion := "v1"
  const SHA256HexLength := 64
  const MaxMarkerLength := 128
  const Open := "[[cachy-ccr:"
  const Close := "]]"

  // ----- Byte lengths -----

  /** Bytes a code point takes in UTF-8. */
  function RuneBytes(c: char): (n: nat)
    ensures 1 <= n <= 4
  {
    var v := c as int;
    if v < 0x80 then 1 else if v < 0x800 then 2 else if v < 0x10000 then 3 else 4
  }

  /** len(text) in Go. */
  function ByteLen(s: string): (n: nat)
    ensures n >= |s|
  {
    if s == [] then 0 else RuneBytes(s[0]) + ByteLen(s[1..])
  }

  predicate Ascii(s: string) {
    forall i :: 0 <= i < |s| ==> s[i] as int < 0x80
  }

  lemma {:induction false} AsciiByteLen(s: string)
    requires Ascii(s)
    ensures ByteLen(s) == |s|
  {
    if s != [] { AsciiByteLen(s[1..]); }
  }

  // ----- Validation, rendering and parsing -----

  predicate IsHexDigit(c: char) {
    '0' <= c <= '9' || 'a' <= c <= 'f' || 'A' <= c <= 'F'
  }

  predicate IsHex(s: string) {
    forall i :: 0 <= i < |s| ==> IsHexDigit(s[i])
  }

  predicate ValidAddress(a: Address) {
    a.algorithm == AlgorithmSHA256 && a.bytes >= 0 && ByteLen(a.hex) == SHA256HexLength && IsHex(a.hex)
  }

  /** The text between the brackets. */
  function Inner(a: Address): string
    requires a.bytes >= 0
  {
    MarkerVersion + " " + (a.algorithm + ":" + a.hex + " " + ("bytes" + ":" + Dec(a.bytes)))
  }

  function RenderMarker(a: Address): Result<string, MarkerError> {
    if !ValidAddress(a) then Err(InvalidAddress)
    else
      var marker := Open + Inner(a) + Close;
      if ByteLen(marker) > MaxMarkerLength then Err(InvalidMarker) else Ok(marker)
  }

  /** strconv.Atoi. */
  function Atoi(s: string): Option<Int64> {
    var negative := s != [] && s[0] == '-';
    var digits := if s != [] && (s[0] == '-' || s[0] == '+') then s[1..] else s;
    if digits == [] || !AllDigits(digits) then None
    else
      var n: int := Val(digits);
      if negative then (if n <= MaxInt64 + 1 then Some(-n) else None)
      else (if n <= MaxInt64 then Some(n) else None)
  }

  /** strings.Cut around the first colon. */
  function CutColon(s: string): Option<(string, string)> {
    var k := Index(s, ":");
    if k < 0 then None else Some((s[..k], s[k + 1..]))
  }

  function ParseMarker(text: string): Result<Address, MarkerError> {
    var p, q := |Open|, |text| - |Close|;
    if ByteLen(text) == 0 || ByteLen(text) > MaxMarkerLength then Err(InvalidMarker)
    else if !(p <= q && text[..p] == Open && text[q..] == Close) then Err(InvalidMarker)
    else ParseInner(text[p..q])
  }

  function ParseInner(inner: string): Result<Address, MarkerError> {
    var parts := Fields(inner);
    if |parts| != 3 || parts[0] != MarkerVersion then Err(InvalidMarker)
    else
      var digest, size := CutColon(parts[1]), CutColon(parts[2]);
      if digest.None? || size.None? || size.value.0 != "bytes" then Err(InvalidMarker)
      else
        var bytes := Atoi(size.value.1);
        if bytes.None? then Err(InvalidMarker)
        else
          var a := Address(digest.value.0, digest.value.1, bytes.value);
          if ValidAddress(a) then Ok(a) else Err(InvalidAddress)
  }

  // ----- Printing then parsing -----

  lemma CutColonOf(a: string, b: string)
    requires ':' !in a
    ensures CutColon(a + ":" + b) == Some((a, b))
  {
    CleanPart(a, ":");
    IndexAfterPart(a, ":", b);
    var s := a + ":" + b;
    assert s[..|a|] == a && s[|a| + 1..] == b;
  }

  lemma AtoiDec(n: nat)
    requires n <= MaxInt64
    ensures Atoi(Dec(n)) == Some(n)
  {
    var d := Dec(n);
    assert IsDigit(d[0]);
    ValDec(n);
  }

  lemma NoSpaceConcat(a: string, b: string)
    requires NoSpace(a) && NoSpace(b)
    ensures NoSpace(a + b)
  {
  }

  lemma FieldsThree(v: string, x: string, y: string)
    requires v != [] && x != [] && y != [] && NoSpace(v) && NoSpace(x) && NoSpace(y)
    ensures Fields(v + " " + (x + " " + y)) == [v, x, y]
  {
    FieldsOne(y);
    FieldsCons(x, y);
    FieldsCons(v, x + " " + y);
  }

  lemma SolidParts(a: Address)
    requires ValidAddress(a)
    ensures NoSpace(a.algorithm + ":" + a.hex) && NoSpace("bytes" + ":" + Dec(a.bytes))
    ensures NoSpace(MarkerVersion) && ':' !in a.algorithm && ':' !in "bytes"
    ensures |a.hex| == SHA256HexLength
  {
    assert Ascii(a.hex);
    AsciiByteLen(a.hex);
    assert forall i :: 0 <= i < |Dec(a.bytes)| ==> IsDigit(Dec(a.bytes)[i]);
    NoSpaceConcat(a.algorithm + ":", a.hex);
    NoSpaceConcat("bytes" + ":", Dec(a.bytes));
  }

  lemma ParseInnerOf(a: Address)
    requires ValidAddress(a)
    ensures ParseInner(Inner(a)) == Ok(a)
  {
    SolidParts(a);
    var x, y := a.algorithm + ":" + a.hex, "bytes" + ":" + Dec(a.bytes);
    FieldsThree(MarkerVersion, x, y);
    CutColonOf(a.algorithm, a.hex);
    CutColonOf("bytes", Dec(a.bytes));
    AtoiDec(a.bytes);
  }

  lemma DecFitsInt64(n: nat)
    requires n <= MaxInt64
    ensures |Dec(n)| <= 19
  {
    assert Pow10(10) == 10000000000;
    assert Pow10(15) == 100000 * Pow10(10);
    assert Pow10(19) == 10000 * Pow10(15);
    DecLength(n, 19);
  }

  lemma InnerShape(a: Address)
    requires ValidAddress(a)
    ensures var m := Open + Inner(a) + Close; Ascii(m) && |m| == 95 + |Dec(a.bytes)|
  {
    SolidParts(a);
    var d := Dec(a.bytes);
    assert forall i :: 0 <= i < |d| ==> IsDigit(d[i]);
    assert Ascii(d) && Ascii(a.hex) && Ascii(a.algorithm);
    assert Ascii(MarkerVersion) && Ascii(Open) && Ascii(Close) && Ascii("bytes") && Ascii(":") && Ascii(" ");
    AsciiConcat("bytes" + ":", d);
    AsciiConcat(a.algorithm + ":", a.hex);
    AsciiConcat(a.algorithm + ":" + a.hex + " ", "bytes" + ":" + d);
    AsciiConcat(MarkerVersion + " ", a.algorithm + ":" + a.hex + " " + ("bytes" + ":" + d));
    AsciiConcat(Open, Inner(a));
    AsciiConcat(Open + Inner(a), Close);
  }

  lemma AsciiConcat(a: string, b: string)
    requires Ascii(a) && Ascii(b)
    ensures Ascii(a + b)
  {
  }

  /** Every valid address renders, within the length limit by a wide margin, to a
      marker that parses back to the same address. */
  lemma RenderParse(a: Address)
    requires ValidAddress(a)
    ensures RenderMarker(a).Ok?
    ensures ByteLen(RenderMarker(a).value) == |RenderMarker(a).value| == 95 + |Dec(a.bytes)| <= 114
    ensures ParseMarker(RenderMarker(a).value) == Ok(a)
  {
    var m := Open + Inner(a) + Close;
    InnerShape(a);
    AsciiByteLen(m);
    DecFitsInt64(a.bytes);
    var p, q := |Open|, |m| - |Close|;
    assert m[..p] == Open && m[q..] == Close && m[p..q] == Inner(a);
    ParseInnerOf(a);
  }

  // ----- Parsing then printing -----

  /** Total length of the fields, counting one separator after each. */
  function Spread(fs: seq<string>): nat {
    if fs == [] then 0 else |fs[0]| + 1 + Spread(fs[1..])
  }

  lemma FieldsSkip(s: string)
    requires s != [] && IsSpace(s[0])
    ensures Fields(s) == Fields(s[1..])
  {
  }

  lemma {:induction false} FieldsFit(s: string)
    ensures Spread(Fields(s)) <= |s| + 1
    decreases |s|
  {
    var t := TrimLeft(s, Space);
    if t != [] {
      var n := WordLen(t);
      var rest := t[n..];
      ConsDrop(t[..n], Fields(rest));
      if rest != [] {
        FieldsSkip(rest);
        FieldsFit(rest[1..]);
      }
    }
  }

  lemma AtoiShorter(s: string)
    requires Atoi(s).Some? && Atoi(s).value >= 0
    ensures |Dec(Atoi(s).value)| <= |s|
  {
    var digits := if s != [] && (s[0] == '-' || s[0] == '+') then s[1..] else s;
    DecValShorter(digits);
  }

  /** What the parser accepts is at least as long as the canonical inner text. */
  lemma ParseInnerLength(inner: string)
    requires ParseInner(inner).Ok?
    ensures var a := ParseInner(inner).value; ValidAddress(a) && |Inner(a)| <= |inner|
  {
    var parts := Fields(inner);
    var a := ParseInner(inner).value;
    FieldsFit(inner);
    assert Spread(parts[2..]) == |parts[2]| + 1 by { assert parts[2..][1..] == []; }
    assert parts[1..][1..] == parts[2..];
    assert Spread(parts) == |parts[0]| + 1 + |parts[1]| + 1 + |parts[2]| + 1;
    AtoiShorter(CutColon(parts[2]).value.1);
    assert |parts[1]| == |a.algorithm| + 1 + |a.hex|;
  }

  /** Every accepted text canonicalises: its address renders to a marker that is no
      longer and means the same address. */
  lemma ParseRender(text: string)
    requires ParseMarker(text).Ok?
    ensures var a := ParseMarker(text).value;
            && RenderMarker(a).Ok?
            && ByteLen(RenderMarker(a).value) <= ByteLen(text)
            && ParseMarker(RenderMarker(a).value) == Ok(a)
  {
    var p, q := |Open|, |text| - |Close|;
    ParseInnerLength(text[p..q]);
    RenderParse(ParseMarker(text).value);
  }

  /** The marker form is one-to-one: different addresses never share a marker. */
  lemma RenderInjective(a: Address, b: Address)
    requires ValidAddress(a) && ValidAddress(b) && RenderMarker(a) == RenderMarker(b)
    ensures a == b
  {
    RenderParse(a);
    RenderParse(b);
  }

  // ----- What is accepted -----

  /** Addresses that are valid, in full. */
  lemma ValidAddressIff(a: Address)
    ensures ValidAddress(a) <==>
      && a.algorithm == "sha256" && a.bytes >= 0 && |a.hex| == 64
      && forall i :: 0 <= i < 64 ==> '0' <= a.hex[i] <= '9' || 'a' <= a.hex[i] <= 'f' || 'A' <= a.hex[i] <= 'F'
  {
    if IsHex(a.hex) {
      assert Ascii(a.hex);
      AsciiByteLen(a.hex);
    }
    if |a.hex| == 64 && !IsHex(a.hex) {
      var i :| 0 <= i < |a.hex| && !IsHexDigit(a.hex[i]);
    }
  }

  lemma Regroup(o: string, v: string, sp: string, alg: string, colon: string, hex: string, b: string, d: string,
                c: string)
    ensures o + (v + sp + (alg + colon + hex + sp + (b + colon + d))) + c ==
            (o + v + sp + alg + colon) + hex + (sp + b + colon) + d + c
  {
  }

  lemma MarkerWords()
    ensures Open + MarkerVersion + " " + AlgorithmSHA256 + ":" == "[[cachy-ccr:v1 sha256:"
    ensures " " + "bytes" + ":" == " bytes:" && Close == "]]"
  {
  }

  /** The marker of a valid address, spelt out. */
  lemma MarkerText(a: Address)
    requires ValidAddress(a)
    ensures RenderMarker(a) == Ok("[[cachy-ccr:v1 sha256:" + a.hex + " bytes:" + Dec(a.bytes) + "]]")
  {
    RenderParse(a);
    Regroup(Open, MarkerVersion, " ", a.algorithm, ":", a.hex, "bytes", Dec(a.bytes), Close);
    MarkerWords();
  }

  /** A size as the parser reads it: decimal digits, leading zeros and a sign allowed. */
  predicate SpellsSize(s: string, n: int) {
    || (s != [] && AllDigits(s) && Val(s) == n)
    || (|s| > 1 && s[0] == '+' && AllDigits(s[1..]) && Val(s[1..]) == n)
    || (|s| > 1 && s[0] == '-' && AllDigits(s[1..]) && Val(s[1..]) == n == 0)
  }

  lemma AtoiIff(s: string, n: nat)
    requires n <= MaxInt64
    ensures Atoi(s) == Some(n) <==> SpellsSize(s, n)
  {
    if s != [] { assert s[0] == '-' || s[0] == '+' ==> !IsDigit(s[0]); }
  }

  /** A word that a colon divides in two. */
  lemma CutColonIff(s: string, a: string, b: string)
    ensures CutColon(s) == Some((a, b)) <==> s == a + ":" + b && ':' !in a
  {
    if s == a + ":" + b && ':' !in a { CutColonOf(a, b); }
    if CutColon(s) == Some((a, b)) {
      var k := Index(s, ":");
      assert s[k..k + 1] == ":" && s == s[..k] + s[k..k + 1] + s[k + 1..];
      forall i | 0 <= i < k ensures s[i] != ':' {
        assert !Occurs(s, ":", i) && s[i..i + 1] == [s[i]];
      }
    }
  }

  /** The three words of a marker that stands for this address. */
  predicate Words(fs: seq<string>, a: Address, size: string) {
    && |fs| == 3 && fs[0] == "v1"
    && fs[1] == "sha256" + ":" + a.hex
    && fs[2] == "bytes" + ":" + size
  }

  lemma ParseInnerIff(inner: string, a: Address)
    ensures ParseInner(inner) == Ok(a) <==>
      ValidAddress(a) && exists size :: Words(Fields(inner), a, size) && SpellsSize(size, a.bytes)
  {
    var fs := Fields(inner);
    if ParseInner(inner) == Ok(a) {
      var size := CutColon(fs[2]).value.1;
      CutColonIff(fs[1], a.algorithm, a.hex);
      CutColonIff(fs[2], "bytes", size);
      AtoiIff(size, a.bytes);
      assert Words(fs, a, size);
    }
    if ValidAddress(a) && exists size :: Words(fs, a, size) && SpellsSize(size, a.bytes) {
      var size :| Words(fs, a, size) && SpellsSize(size, a.bytes);
      SolidParts(a);
      CutColonIff(fs[1], a.algorithm, a.hex);
      CutColonIff(fs[2], "bytes", size);
      AtoiIff(size, a.bytes);
    }
  }

  /** The text is the brackets around this one. */
  predicate Brackets(text: string, inner: string) {
    text == "[[cachy-ccr:" + inner + "]]"
  }

  lemma BracketsIff(text: string, inner: string)
    ensures var p, q := |Open|, |text| - |Close|;
            Brackets(text, inner) <==> p <= q && text[..p] == Open && text[q..] == Close && text[p..q] == inner
  {
    Surrounds(text, Open, inner, Close);
  }

  lemma Surrounds(text: string, a: string, inner: string, b: string)
    ensures var p, q := |a|, |text| - |b|;
            text == a + inner + b <==> p <= q && text[..p] == a && text[q..] == b && text[p..q] == inner
  {
    var p, q := |a|, |text| - |b|;
    if text == a + inner + b {
      assert text[..p] == a && text[q..] == b && text[p..q] == inner;
    }
    if p <= q && text[..p] == a && text[q..] == b && text[p..q] == inner {
      assert text == text[..p] + text[p..q] + text[q..];
    }
  }

  /** Some brackets and three words spell the address. */
  ghost predicate Spells(text: string, a: Address) {
    exists inner, size :: Brackets(text, inner) && Words(Fields(inner), a, size) && SpellsSize(size, a.bytes)
  }

  lemma ParsedSpells(text: string, a: Address)
    requires ParseMarker(text) == Ok(a)
    ensures Spells(text, a) && ValidAddress(a)
  {
    var inner := text[|Open|..|text| - |Close|];
    BracketsIff(text, inner);
    ParseInnerIff(inner, a);
    var size :| Words(Fields(inner), a, size) && SpellsSize(size, a.bytes);
  }

  lemma SpeltParses(text: string, a: Address)
    requires Spells(text, a) && ValidAddress(a) && ByteLen(text) <= MaxMarkerLength
    ensures ParseMarker(text) == Ok(a)
  {
    var inner, size :| Brackets(text, inner) && Words(Fields(inner), a, size) && SpellsSize(size, a.bytes);
    BracketsIff(text, inner);
    ParseInnerIff(inner, a);
  }

  /** Exactly these texts are accepted, and for this address: at most 128 bytes, the
      brackets, and between them, with any white space around, the version, the digest
      and the size. */
  lemma ParseMarkerIff(text: string, a: Address)
    ensures ParseMarker(text) == Ok(a) <==> ValidAddress(a) && ByteLen(text) <= 128 && Spells(text, a)
  {
    if ParseMarker(text) == Ok(a) { ParsedSpells(text, a); }
    if ValidAddress(a) && ByteLen(text) <= 128 && Spells(text, a) { SpeltParses(text, a); }
  }
}
