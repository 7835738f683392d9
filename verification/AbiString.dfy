/**
 Decoding of a contract's string variable from the hex text an `eth_call` returns, against
 the `string` encoding of the Solidity Contract ABI Specification, section "Formal
 Specification of the Encoding". Strings are their UTF-8 bytes.
 */
module AbiString {
  import opened Prelude

  type Byte = b: int | 0 <= b < 256
  type Nibble = n: int | 0 <= n < 16
  type Bytes = seq<Byte>

  const UNPARSABLE: Error := YumError("Couldn't parse string")

  // ------------------------------------------------------------ hexadecimal

  function NibbleOf(c: Byte): Option<Nibble> {
    if 'A' as int <= c <= 'F' as int then Some(c - 'A' as int + 10)
    else if 'a' as int <= c <= 'f' as int then Some(c - 'a' as int + 10)
    else if '0' as int <= c <= '9' as int then Some(c - '0' as int)
    else None
  }

  predicate IsBlank(c: Byte) { c in {32, 13, 10, 9} }

  datatype Hex = Hex(bytes: Bytes, half: Option<Nibble>) | Bad

  /** Digits pair up into bytes; blanks are skipped; anything else is an error. */
  function HexFold(text: Bytes): Hex {
    if text == [] then Hex([], None)
    else
      var c := text[|text| - 1];
      match HexFold(text[..|text| - 1])
      case Bad => Bad
      case Hex(bytes, half) =>
        if IsBlank(c) then Hex(bytes, half)
        else match NibbleOf(c)
          case None => Bad
          case Some(n) =>
            if half.None? then Hex(bytes, Some(n))
            else Hex(bytes + [16 * half.value + n], None)
  }

  function HexDecode(text: Bytes): Option<Bytes> {
    match HexFold(text)
    case Hex(bytes, None) => Some(bytes)
    case _ => None
  }

  lemma {:induction false} BadStaysBad(text: Bytes, i: nat)
    requires i <= |text| && HexFold(text[..i]) == Bad
    ensures HexFold(text) == Bad
    decreases |text|
  {
    if i < |text| {
      assert text[..|text| - 1][..i] == text[..i];
      BadStaysBad(text[..|text| - 1], i);
    } else {
      assert text[..i] == text;
    }
  }

  lemma Shift(buf: Byte, n: Nibble)
    ensures (buf * 16) % 256 == 16 * (buf % 16)
    ensures (16 * (buf % 16) + n) % 16 == n
    ensures 16 * (buf % 16) / 16 % 16 == buf % 16
  {
    assert buf == 16 * (buf / 16) + buf % 16;
    assert buf * 16 == 256 * (buf / 16) + 16 * (buf % 16);
  }

  lemma FoldStep(text: Bytes, i: nat)
    requires i < |text|
    ensures HexFold(text[..i + 1]) ==
              match HexFold(text[..i])
              case Bad => Bad
              case Hex(bytes, half) =>
                if IsBlank(text[i]) then Hex(bytes, half)
                else match NibbleOf(text[i])
                  case None => Bad
                  case Some(n) =>
                    if half.None? then Hex(bytes, Some(n)) else Hex(bytes + [16 * half.value + n], None)
  {
    assert text[..i + 1][..i] == text[..i];
  }

  /** The loop of the hex parser, with its eight-bit shift register. */
  method FromHex(text: Bytes) returns (r: Option<Bytes>)
    ensures r == HexDecode(text)
  {
    var bytes: Bytes, modulus, buf: Byte := [], 0, 0;
    for i := 0 to |text|
      invariant modulus == 0 || modulus == 1
      invariant HexFold(text[..i]) == Hex(bytes, if modulus == 0 then None else Some(buf % 16))
    {
      FoldStep(text, i);
      var nibble := NibbleOf(text[i]);
      Shift(buf, if nibble.Some? then nibble.value else 0);
      buf := (buf * 16) % 256;
      if IsBlank(text[i]) {
        buf := buf / 16;
      } else if nibble.None? {
        BadStaysBad(text, i + 1);
        return None;
      } else {
        buf := buf + nibble.value;
        if modulus == 1 {
          bytes := bytes + [buf];
        }
        modulus := 1 - modulus;
      }
    }
    assert text[..|text|] == text;
    r := if modulus == 0 then Some(bytes) else None;
  }

  function Digit(n: Nibble): Byte {
    if n < 10 then '0' as int + n else 'a' as int + (n - 10)
  }

  function HexEncode(bytes: Bytes): (text: Bytes)
    ensures |text| == 2 * |bytes|
  {
    if bytes == [] then []
    else
      var b := bytes[|bytes| - 1];
      HexEncode(bytes[..|bytes| - 1]) + [Digit(b / 16), Digit(b % 16)]
  }

  lemma DigitRoundTrip(n: Nibble)
    ensures NibbleOf(Digit(n)) == Some(n) && !IsBlank(Digit(n))
  {
  }

  lemma FoldTwoDigits(text: Bytes, bytes: Bytes, high: Nibble, low: Nibble)
    requires HexFold(text) == Hex(bytes, None)
    ensures HexFold(text + [Digit(high), Digit(low)]) == Hex(bytes + [16 * high + low], None)
  {
    var whole := text + [Digit(high), Digit(low)];
    assert whole[..|text|] == text;
    DigitRoundTrip(high);
    DigitRoundTrip(low);
    FoldStep(whole, |text|);
    FoldStep(whole, |text| + 1);
    assert whole[..|text| + 2] == whole;
  }

  lemma FoldOneByte(text: Bytes, bytes: Bytes, b: Byte)
    requires HexFold(text) == Hex(bytes, None)
    ensures HexFold(text + [Digit(b / 16), Digit(b % 16)]) == Hex(bytes + [b], None)
  {
    FoldTwoDigits(text, bytes, b / 16, b % 16);
    assert 16 * (b / 16) + b % 16 == b;
  }

  lemma {:induction false} HexRoundTrip(bytes: Bytes)
    ensures HexFold(HexEncode(bytes)) == Hex(bytes, None)
  {
    if bytes == [] {
    } else {
      var init, b := bytes[..|bytes| - 1], bytes[|bytes| - 1];
      HexRoundTrip(init);
      FoldOneByte(HexEncode(init), init, b);
      assert bytes == init + [b];
    }
  }

  lemma {:induction false} HexDecodeOfEncode(bytes: Bytes)
    ensures HexDecode(HexEncode(bytes)) == Some(bytes)
  {
    HexRoundTrip(bytes);
  }

  lemma {:induction false} HexOfConcat(a: Bytes, b: Bytes)
    ensures HexEncode(a + b) == HexEncode(a) + HexEncode(b)
    decreases |b|
  {
    if b == [] {
      assert a + b == a;
    } else {
      assert (a + b)[..|a + b| - 1] == a + b[..|b| - 1];
      HexOfConcat(a, b[..|b| - 1]);
    }
  }

  lemma {:induction false} HexIsDigits(bytes: Bytes)
    ensures forall c :: c in HexEncode(bytes) ==> NibbleOf(c).Some? && IsDigit(c)
  {
    if bytes == [] {
    } else {
      HexIsDigits(bytes[..|bytes| - 1]);
    }
  }

  /** What is left of a character without blanks and in lower case. */
  function Plain(c: Byte): Bytes {
    if c in {' ' as int, '\t' as int, '\r' as int, '\n' as int} then []
    else if 'A' as int <= c <= 'F' as int then [c + 32]
    else [c]
  }

  function Canonical(text: Bytes): Bytes {
    if text == [] then [] else Canonical(text[..|text| - 1]) + Plain(text[|text| - 1])
  }

  /** A lower-case digit. */
  predicate IsDigit(c: Byte) { '0' as int <= c <= '9' as int || 'a' as int <= c <= 'f' as int }

  lemma PlainDigit(c: Byte)
    ensures IsBlank(c) ==> Plain(c) == []
    ensures !IsBlank(c) && NibbleOf(c).Some? ==> Plain(c) == [Digit(NibbleOf(c).value)]
    ensures !IsBlank(c) && NibbleOf(c).None? ==> |Plain(c)| == 1 && !IsDigit(Plain(c)[0])
  {
  }

  /** What has been folded is what the canonical text spells. */
  ghost predicate Spells(canonical: Bytes, h: Hex) {
    match h
    case Bad => exists c :: c in canonical && !IsDigit(c)
    case Hex(bytes, half) => canonical == HexEncode(bytes) + if half.Some? then [Digit(half.value)] else []
  }

  lemma SpellsOneMore(text: Bytes, init: Bytes, c: Byte)
    requires text == init + [c] && Spells(Canonical(init), HexFold(init))
    ensures Spells(Canonical(text), HexFold(text))
  {
    PlainDigit(c);
    assert text[..|text| - 1] == init;
    var before, after := Canonical(init), Canonical(text);
    assert after == before + Plain(c);
    if HexFold(init).Bad? {
      var d :| d in before && !IsDigit(d);
      assert d in after;
    } else if HexFold(text).Bad? {
      assert Plain(c)[0] in after;
    } else if !IsBlank(c) && HexFold(init).half.Some? {
      PairSpells(HexFold(init).bytes, HexFold(init).half.value, NibbleOf(c).value);
    }
  }

  lemma {:induction false} FoldSpells(text: Bytes)
    ensures Spells(Canonical(text), HexFold(text))
  {
    if text == [] {
    } else {
      FoldSpells(text[..|text| - 1]);
      SpellsOneMore(text, text[..|text| - 1], text[|text| - 1]);
    }
  }

  lemma PairSpells(bytes: Bytes, high: Nibble, low: Nibble)
    ensures HexEncode(bytes + [16 * high + low]) == HexEncode(bytes) + [Digit(high), Digit(low)]
  {
    var b := 16 * high + low;
    assert (bytes + [b])[..|bytes|] == bytes;
    assert b / 16 == high && b % 16 == low;
  }

  /** A text decodes to exactly the bytes whose encoding it is, up to blanks and case. */
  lemma {:induction false} HexDecodesExactly(text: Bytes, bytes: Bytes)
    ensures HexDecode(text) == Some(bytes) <==> Canonical(text) == HexEncode(bytes)
  {
    FoldSpells(text);
    HexIsDigits(bytes);
    if Canonical(text) == HexEncode(bytes) {
      assert !HexFold(text).Bad?;
      var h := HexFold(text);
      assert |Canonical(text)| == 2 * |h.bytes| + if h.half.Some? then 1 else 0;
      assert h.half.None? && HexEncode(h.bytes) + [] == HexEncode(h.bytes);
      HexRoundTrip(bytes);
      HexRoundTrip(h.bytes);
    }
  }

  // ------------------------------------------------------------ the decoder

  const PREFIX: Bytes := ['0' as int, 'x' as int]

  function Clean0x(text: Bytes): Bytes {
    if PREFIX <= text then text[2..] else text
  }

  /** The last of the 64-character chunks. */
  function LastChunk(text: Bytes): Option<Bytes> {
    if text == [] then None else Some(text[64 * ((|text| - 1) / 64)..])
  }

  function NonZero(bytes: Bytes): Bytes {
    if bytes == [] then []
    else NonZero(bytes[..|bytes| - 1]) + if bytes[|bytes| - 1] != 0 then [bytes[|bytes| - 1]] else []
  }

  predicate Continuation(b: Byte) { 0x80 <= b <= 0xBF }

  /** The well-formed byte sequences of the Unicode Standard, table 3-7. */
  predicate ValidUtf8(s: Bytes) {
    if s == [] then true
    else if s[0] <= 0x7F then ValidUtf8(s[1..])
    else if 0xC2 <= s[0] <= 0xDF then |s| >= 2 && Continuation(s[1]) && ValidUtf8(s[2..])
    else if 0xE0 <= s[0] <= 0xEF then
      && |s| >= 3 && Continuation(s[1]) && Continuation(s[2])
      && (s[0] == 0xE0 ==> s[1] >= 0xA0) && (s[0] == 0xED ==> s[1] <= 0x9F)
      && ValidUtf8(s[3..])
    else if 0xF0 <= s[0] <= 0xF4 then
      && |s| >= 4 && Continuation(s[1]) && Continuation(s[2]) && Continuation(s[3])
      && (s[0] == 0xF0 ==> s[1] >= 0x90) && (s[0] == 0xF4 ==> s[1] <= 0x8F)
      && ValidUtf8(s[4..])
    else false
  }

  /** A Unicode scalar value: any code point but the surrogates. */
  type Scalar = c: int | 0 <= c <= 0x10FFFF && !(0xD800 <= c <= 0xDFFF)

  /** The encoding of one scalar value in one to four bytes. */
  function EncodeScalar(c: Scalar): (s: Bytes)
    ensures 1 <= |s| <= 4
  {
    if c < 0x80 then [c]
    else if c < 0x800 then [0xC0 + c / 64, 0x80 + c % 64]
    else if c < 0x10000 then [0xE0 + c / 4096, 0x80 + c / 64 % 64, 0x80 + c % 64]
    else [0xF0 + c / 262144, 0x80 + c / 4096 % 64, 0x80 + c / 64 % 64, 0x80 + c % 64]
  }

  function Utf8(cs: seq<Scalar>): Bytes {
    if cs == [] then [] else EncodeScalar(cs[0]) + Utf8(cs[1..])
  }

  /** The bytes of some text. */
  ghost predicate IsUtf8(s: Bytes) { exists cs :: s == Utf8(cs) }

  lemma SixBits(high: nat, x: nat)
    requires x < 64
    ensures (64 * high + x) / 64 == high && (64 * high + x) % 64 == x
  {
  }

  lemma Bits3(a: nat, b: nat, c: nat)
    requires b < 64 && c < 64
    ensures var n := 4096 * a + 64 * b + c;
            n / 64 == 64 * a + b && n / 4096 == a && n / 64 % 64 == b && n % 64 == c
  {
    SixBits(64 * a + b, c);
    SixBits(a, b);
  }

  lemma Bits4(a: nat, b: nat, c: nat, d: nat)
    requires b < 64 && c < 64 && d < 64
    ensures var n := 262144 * a + 4096 * b + 64 * c + d;
            n / 262144 == a && n / 4096 % 64 == b && n / 64 % 64 == c && n % 64 == d
  {
    Bits3(64 * a + b, c, d);
    SixBits(a, b);
  }

  /** The scalar value a well-formed sequence begins with. */
  lemma FirstScalar(s: Bytes) returns (c: Scalar)
    requires s != [] && ValidUtf8(s)
    ensures EncodeScalar(c) <= s && ValidUtf8(s[|EncodeScalar(c)|..])
  {
    if s[0] <= 0x7F {
      c := s[0];
    } else if s[0] <= 0xDF {
      c := TwoBytes(s[0], s[1]);
    } else if s[0] <= 0xEF {
      c := ThreeBytes(s[0], s[1], s[2]);
    } else {
      c := FourBytes(s[0], s[1], s[2], s[3]);
    }
  }

  lemma TwoBytes(a: Byte, b: Byte) returns (n: Scalar)
    requires 0xC2 <= a <= 0xDF && Continuation(b)
    ensures EncodeScalar(n) == [a, b]
  {
    var high: int, low: int := a - 0xC0, b - 0x80;
    SixBits(high, low);
    n := 64 * high + low;
  }

  lemma ThreeBytes(a: Byte, b: Byte, c: Byte) returns (n: Scalar)
    requires 0xE0 <= a <= 0xEF && Continuation(b) && Continuation(c)
    requires (a == 0xE0 ==> b >= 0xA0) && (a == 0xED ==> b <= 0x9F)
    ensures EncodeScalar(n) == [a, b, c]
  {
    Bits3(a - 0xE0, b - 0x80, c - 0x80);
    n := 4096 * (a - 0xE0) + 64 * (b - 0x80) + (c - 0x80);
  }

  lemma FourBytes(a: Byte, b: Byte, c: Byte, d: Byte) returns (n: Scalar)
    requires 0xF0 <= a <= 0xF4 && Continuation(b) && Continuation(c) && Continuation(d)
    requires (a == 0xF0 ==> b >= 0x90) && (a == 0xF4 ==> b <= 0x8F)
    ensures EncodeScalar(n) == [a, b, c, d]
  {
    Bits4(a - 0xF0, b - 0x80, c - 0x80, d - 0x80);
    n := 262144 * (a - 0xF0) + 4096 * (b - 0x80) + 64 * (c - 0x80) + (d - 0x80);
  }

  lemma ScalarIsValid(c: Scalar, rest: Bytes)
    requires ValidUtf8(rest)
    ensures ValidUtf8(EncodeScalar(c) + rest)
  {
    var e := EncodeScalar(c);
    assert (e + rest)[|e|..] == rest;
  }

  lemma {:induction false} TextIsValid(cs: seq<Scalar>)
    ensures ValidUtf8(Utf8(cs))
  {
    if cs == [] {
    } else {
      TextIsValid(cs[1..]);
      ScalarIsValid(cs[0], Utf8(cs[1..]));
    }
  }

  lemma {:induction false} ValidIsText(s: Bytes) returns (cs: seq<Scalar>)
    requires ValidUtf8(s)
    ensures s == Utf8(cs)
  {
    if s == [] {
      cs := [];
    } else {
      var c := FirstScalar(s);
      var e := EncodeScalar(c);
      assert s == e + s[|e|..];
      var rest := ValidIsText(s[|e|..]);
      cs := [c] + rest;
      assert cs[1..] == rest;
    }
  }

  /** The validity test accepts exactly the encodings of sequences of scalar values. */
  lemma {:induction false} ValidExactly(s: Bytes)
    ensures ValidUtf8(s) <==> IsUtf8(s)
  {
    if ValidUtf8(s) {
      var cs := ValidIsText(s);
    }
    if cs :| s == Utf8(cs) {
      TextIsValid(cs);
    }
  }

  /** Only the scalar value zero has a zero byte in its encoding. */
  lemma {:induction false} NulIsZero(cs: seq<Scalar>)
    ensures 0 in Utf8(cs) <==> 0 in cs
  {
    if cs == [] {
    } else {
      NulIsZero(cs[1..]);
      assert cs == [cs[0]] + cs[1..];
    }
  }

  function AsString(bytes: Bytes): Result<Bytes> {
    if ValidUtf8(bytes) then Ok(bytes) else Err(UNPARSABLE)
  }

  function Decode(text: Bytes): Result<Bytes> {
    match LastChunk(Clean0x(text))
    case None => Err(UNPARSABLE)
    case Some(chunk) =>
      match HexDecode(chunk)
      case None => Err(UNPARSABLE)
      case Some(bytes) => AsString(NonZero(bytes))
  }

  method Retain(bytes: Bytes) returns (kept: Bytes)
    ensures kept == NonZero(bytes)
  {
    kept := [];
    for i := 0 to |bytes|
      invariant kept == NonZero(bytes[..i])
    {
      assert bytes[..i + 1][..i] == bytes[..i];
      if bytes[i] != 0 {
        kept := kept + [bytes[i]];
      }
    }
    assert bytes[..|bytes|] == bytes;
  }

  method ContractString(text: Bytes) returns (r: Result<Bytes>)
    ensures r == Decode(text)
  {
    var chunk := LastChunk(Clean0x(text));
    if chunk.None? { return Err(UNPARSABLE); }
    var bytes := FromHex(chunk.value);
    if bytes.None? { return Err(UNPARSABLE); }
    var kept := Retain(bytes.value);
    r := AsString(kept);
  }

  // ------------------------------------------------------------ the encoding

  function Pow256(n: nat): (p: nat)
    ensures p > 0
  {
    if n == 0 then 1 else 256 * Pow256(n - 1)
  }

  function BigEndian(n: nat, width: nat): (bytes: Bytes)
    ensures |bytes| == width
  {
    if width == 0 then [] else BigEndian(n / 256, width - 1) + [n % 256]
  }

  const WORD: nat := 32

  /** A 256-bit big-endian word. */
  function Word(n: nat): (w: Bytes)
    ensures |w| == 32
  {
    BigEndian(n, WORD)
  }

  function Zeros(n: nat): (z: Bytes)
    ensures |z| == n && forall i :: 0 <= i < n ==> z[i] == 0
  {
    seq(n, i => 0)
  }

  /** Zero bytes up to a multiple of 32. */
  function Padded(s: Bytes): Bytes { s + Zeros((32 - |s| % 32) % 32) }

  /** A single dynamic argument: its offset, its length, its padded bytes. */
  function AbiEncode(s: Bytes): Bytes {
    Word(WORD) + Word(|s|) + Padded(s)
  }

  /** The number a sequence of bytes spells, most significant byte first. */
  function Value(bytes: Bytes): nat {
    if bytes == [] then 0 else 256 * Value(bytes[..|bytes| - 1]) + bytes[|bytes| - 1]
  }

  lemma {:induction false} HoldsItsNumber(n: nat, width: nat)
    requires n < Pow256(width)
    ensures Value(BigEndian(n, width)) == n
    decreases width
  {
    if width == 0 {
    } else {
      var init := BigEndian(n / 256, width - 1);
      HoldsItsNumber(n / 256, width - 1);
      assert (init + [n % 256])[..width - 1] == init;
    }
  }

  lemma {:induction false} ZeroWord(width: nat)
    ensures forall i :: 0 <= i < width ==> BigEndian(0, width)[i] == 0
  {
    if width == 0 {
    } else {
      ZeroWord(width - 1);
    }
  }

  ghost predicate Layout(e: Bytes, offset: Bytes, length: Bytes, s: Bytes) {
    && |e| % 32 == 0 && 64 + |s| <= |e| < 64 + |s| + 32
    && e[..32] == offset && e[32..64] == length && e[64..64 + |s|] == s
    && forall i :: 64 + |s| <= i < |e| ==> e[i] == 0
  }

  lemma LaidOut(offset: Bytes, length: Bytes, s: Bytes)
    requires |offset| == 32 && |length| == 32
    ensures Layout(offset + length + Padded(s), offset, length, s)
  {
    PadLength(|s|);
  }

  /** What an encoding looks like: the number 32, the length, the bytes, and zeros up to a
      whole number of words. */
  lemma {:induction false} EncodingShape(s: Bytes) returns (offset: Bytes, length: Bytes)
    requires |s| < Pow256(WORD)
    ensures Layout(AbiEncode(s), offset, length, s) && Value(offset) == 32 && Value(length) == |s|
  {
    offset, length := Word(WORD), Word(|s|);
    assert Layout(AbiEncode(s), offset, length, s) by {
      LaidOut(offset, length, s);
    }
    assert Value(offset) == 32 && Value(length) == |s| by {
      WordsHold(|s|);
    }
  }

  lemma WordsHold(n: nat)
    requires n < Pow256(WORD)
    ensures Value(Word(WORD)) == 32 && Value(Word(n)) == n
  {
    assert WORD < Pow256(WORD) by {
      assert Pow256(WORD) == 256 * Pow256(WORD - 1);
    }
    HoldsItsNumber(WORD, WORD);
    HoldsItsNumber(n, WORD);
  }

  lemma PadLength(n: nat)
    ensures (n + (32 - n % 32) % 32) % 32 == 0
  {
    if n % 32 != 0 {
      assert n + (32 - n % 32) == 32 * (n / 32 + 1);
    }
  }

  /** Hex text, with or without the customary prefix. */
  function HexText(bytes: Bytes, prefixed: bool): Bytes {
    (if prefixed then PREFIX else []) + HexEncode(bytes)
  }

  /** The part of a string that lands in the last word of its encoding. */
  function Tail(s: Bytes): (t: Bytes)
    ensures |s| <= 32 ==> t == s
    ensures |s| > 32 ==> |t| == (|s| - 1) % 32 + 1 && t == s[|s| - |t|..]
  {
    if s == [] then [] else s[|s| - ((|s| - 1) % 32 + 1)..]
  }

  lemma CleanText(bytes: Bytes, prefixed: bool)
    ensures Clean0x(HexText(bytes, prefixed)) == HexEncode(bytes)
  {
    var text := HexEncode(bytes);
    if prefixed {
      assert (PREFIX + text)[2..] == text;
    } else {
      HexIsDigits(bytes);
      assert [] + text == text;
      assert |text| >= 2 ==> text[1] in text;
    }
  }

  lemma {:induction false} NonZeroOfConcat(a: Bytes, b: Bytes)
    ensures NonZero(a + b) == NonZero(a) + NonZero(b)
    decreases |b|
  {
    if b == [] {
      assert a + b == a;
    } else {
      assert (a + b)[..|a + b| - 1] == a + b[..|b| - 1];
      NonZeroOfConcat(a, b[..|b| - 1]);
    }
  }

  lemma {:induction false} NonZeroBasics(s: Bytes)
    ensures 0 !in NonZero(s) && |NonZero(s)| <= |s|
    ensures 0 !in s ==> NonZero(s) == s
    ensures (forall i :: 0 <= i < |s| ==> s[i] == 0) ==> NonZero(s) == []
  {
    if s == [] {
    } else {
      NonZeroBasics(s[..|s| - 1]);
      assert s == s[..|s| - 1] + [s[|s| - 1]];
    }
  }

  lemma NonZeroPadding(s: Bytes, n: nat)
    ensures NonZero(s + Zeros(n)) == NonZero(s)
  {
    NonZeroOfConcat(s, Zeros(n));
    NonZeroBasics(Zeros(n));
  }

  /** The last chunk is what follows the whole chunks before it, however short it is. */
  lemma LastChunkOfConcat(a: Bytes, b: Bytes, k: nat)
    requires |a| == 64 * k && 1 <= |b| <= 64
    ensures LastChunk(a + b) == Some(b)
  {
    assert (|a| + |b| - 1) / 64 == k;
    assert (a + b)[|a|..] == b;
  }

  /** What the decoder makes of any text whatever: it takes the last chunk of up to 64
      characters after an optional prefix, and gives the bytes that chunk is the
      hexadecimal text of, less the NULs, if they are the bytes of some text. */
  lemma {:induction false} DecodesAnyText(front: Bytes, chunk: Bytes, k: nat, prefixed: bool)
    requires |front| == 64 * k && 1 <= |chunk| <= 64 && (prefixed || !(PREFIX <= front + chunk))
    ensures var r := Decode((if prefixed then PREFIX else []) + (front + chunk));
            && (forall bytes :: Canonical(chunk) == HexEncode(bytes) ==>
                  r == if IsUtf8(NonZero(bytes)) then Ok(NonZero(bytes)) else Err(UNPARSABLE))
            && ((forall bytes :: Canonical(chunk) != HexEncode(bytes)) ==> r == Err(UNPARSABLE))
  {
    var text := (if prefixed then PREFIX else []) + (front + chunk);
    assert LastChunk(Clean0x(text)) == Some(chunk) by {
      LastChunkOfConcat(front, chunk, k);
      assert Clean0x(text) == front + chunk;
    }
    forall bytes | Canonical(chunk) == HexEncode(bytes)
      ensures Decode(text) == if IsUtf8(NonZero(bytes)) then Ok(NonZero(bytes)) else Err(UNPARSABLE)
    {
      HexDecodesExactly(chunk, bytes);
      DecodeChunk(text, chunk, bytes);
      ValidExactly(NonZero(bytes));
    }
    if HexDecode(chunk).Some? {
      HexDecodesExactly(chunk, HexDecode(chunk).value);
    }
  }

  /** There is no chunk in an empty text, with or without the prefix. */
  lemma NothingToDecode()
    ensures Decode([]) == Err(UNPARSABLE) && Decode(PREFIX) == Err(UNPARSABLE)
  {
    assert Clean0x(PREFIX) == [];
  }

  lemma ChunkOfWords(front: Bytes, word: Bytes, k: nat, prefixed: bool)
    requires |front| == 32 * k && |word| == 32
    ensures LastChunk(Clean0x(HexText(front + word, prefixed))) == Some(HexEncode(word))
  {
    CleanText(front + word, prefixed);
    HexOfConcat(front, word);
    LastChunkOfConcat(HexEncode(front), HexEncode(word), k);
  }

  lemma DecodeChunk(text: Bytes, chunk: Bytes, bytes: Bytes)
    requires LastChunk(Clean0x(text)) == Some(chunk) && HexDecode(chunk) == Some(bytes)
    ensures Decode(text) == AsString(NonZero(bytes))
  {
  }

  /** Only the last 32-byte word of whole-word data is ever looked at. */
  lemma {:induction false} DecodesLastWord(front: Bytes, word: Bytes, k: nat, prefixed: bool)
    requires |front| == 32 * k && |word| == 32
    ensures Decode(HexText(front + word, prefixed)) == AsString(NonZero(word))
  {
    ChunkOfWords(front, word, k, prefixed);
    HexDecodeOfEncode(word);
    DecodeChunk(HexText(front + word, prefixed), HexEncode(word), word);
  }

  lemma {:induction false} DecodesPadded(front: Bytes, tail: Bytes, pad: nat, k: nat, text: Bytes, prefixed: bool)
    requires |front| == 32 * k && |tail| + pad == 32
    requires text == HexText(front + (tail + Zeros(pad)), prefixed)
    ensures Decode(text) == AsString(NonZero(tail))
  {
    var word := tail + Zeros(pad);
    assert Decode(text) == AsString(NonZero(word)) by {
      DecodesLastWord(front, word, k, prefixed);
    }
    assert NonZero(word) == NonZero(tail) by {
      NonZeroPadding(tail, pad);
    }
  }

  lemma TailLength(n: nat)
    requires n > 0
    ensures var t := (n - 1) % 32 + 1;
            t <= n && n - t == 32 * ((n - 1) / 32) && (32 - n % 32) % 32 == 32 - t
  {
    var q, r := (n - 1) / 32, (n - 1) % 32;
    assert n == 32 * q + r + 1;
    if r == 31 {
      assert n == 32 * (q + 1);
    } else {
      assert n % 32 == r + 1;
    }
  }

  lemma PaddedSplits(head: Bytes, s: Bytes, t: nat)
    requires s != [] && t == (|s| - 1) % 32 + 1
    ensures t <= |s| && |s| - t == 32 * ((|s| - 1) / 32) && |Tail(s)| == t
    ensures head + Padded(s) == (head + s[..|s| - t]) + (Tail(s) + Zeros(32 - t))
  {
    TailLength(|s|);
    assert Tail(s) == s[|s| - t..];
    assert s == s[..|s| - t] + Tail(s);
  }

  /** A padded string after any whole words decodes to its own last word. */
  lemma {:induction false} DecodesTail(head: Bytes, s: Bytes, k: nat, prefixed: bool)
    requires |head| == 32 * k && s != []
    ensures Decode(HexText(head + Padded(s), prefixed)) == AsString(NonZero(Tail(s)))
  {
    var t := (|s| - 1) % 32 + 1;
    PaddedSplits(head, s, t);
    DecodesPadded(head + s[..|s| - t], Tail(s), 32 - t, k + (|s| - 1) / 32,
                  HexText(head + Padded(s), prefixed), prefixed);
  }

  /** What the decoder makes of any encoded string at all: the bytes of its last word,
      less the NULs, if those are the bytes of some text. */
  lemma {:induction false} DecodeOfEncode(s: Bytes, prefixed: bool)
    ensures Decode(HexText(AbiEncode(s), prefixed)) ==
              if IsUtf8(NonZero(Tail(s))) then Ok(NonZero(Tail(s))) else Err(UNPARSABLE)
  {
    ValidExactly(NonZero(Tail(s)));
    if s == [] {
      assert AbiEncode(s) == Word(WORD) + Word(0);
      assert NonZero(Word(0)) == [] by {
        ZeroWord(WORD);
        NonZeroBasics(Word(0));
      }
      DecodesLastWord(Word(WORD), Word(0), 1, prefixed);
    } else {
      DecodesTail(Word(WORD) + Word(|s|), s, 2, prefixed);
    }
  }

  /** Decoding inverts encoding exactly on the texts of at most 32 bytes without NUL. */
  lemma {:induction false} DecodeInvertsEncodeExactly(cs: seq<Scalar>, prefixed: bool)
    ensures var s := Utf8(cs);
            Decode(HexText(AbiEncode(s), prefixed)) == Ok(s) <==> |s| <= 32 && 0 !in cs
  {
    var s := Utf8(cs);
    DecodeOfEncode(s, prefixed);
    NonZeroBasics(Tail(s));
    NulIsZero(cs);
    assert |s| <= 32 ==> Tail(s) == s;
  }

  /** A longer string without NUL loses everything but its last word. */
  lemma {:induction false} LongStringsLoseTheirFront(s: Bytes, prefixed: bool)
    requires |s| > 32 && 0 !in s
    ensures var tail := s[|s| - ((|s| - 1) % 32 + 1)..];
            Decode(HexText(AbiEncode(s), prefixed)) == if IsUtf8(tail) then Ok(tail) else Err(UNPARSABLE)
  {
    DecodeOfEncode(s, prefixed);
    NonZeroBasics(Tail(s));
  }

  /** A fixed-width, right-padded 32-byte word decodes to the same texts. */
  lemma {:induction false} DecodeOfBytes32(cs: seq<Scalar>, prefixed: bool)
    requires |Utf8(cs)| <= 32 && 0 !in cs
    ensures Decode(HexText(Utf8(cs) + Zeros(32 - |Utf8(cs)|), prefixed)) == Ok(Utf8(cs))
  {
    var s := Utf8(cs);
    var text := HexText(s + Zeros(32 - |s|), prefixed);
    assert Decode(text) == AsString(NonZero(s)) by {
      assert [] + (s + Zeros(32 - |s|)) == s + Zeros(32 - |s|);
      DecodesPadded([], s, 32 - |s|, 0, text, prefixed);
    }
    assert NonZero(s) == s by {
      NulIsZero(cs);
      NonZeroBasics(s);
    }
    TextIsValid(cs);
  }
}
