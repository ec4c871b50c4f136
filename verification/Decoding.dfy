/**
 The decoding of a byte stream, as a function of the whole stream: byte order mark, UTF-8 and
 UTF-16, and the characters that YAML allows.
 */
module Decoding {
  import opened Wrappers
  import opened Utf8

  datatype Encoding = UTF8 | UTF16LE | UTF16BE

  /** The encoding that the first bytes of a stream announce, and the length of the mark. */
  function Detect(s: seq<Byte>): (r: (Encoding, nat))
    ensures r.1 <= |s|
  {
    if |s| >= 2 && s[0] == 0xFF && s[1] == 0xFE then (UTF16LE, 2)
    else if |s| >= 2 && s[0] == 0xFE && s[1] == 0xFF then (UTF16BE, 2)
    else if |s| >= 3 && s[0] == 0xEF && s[1] == 0xBB && s[2] == 0xBF then (UTF8, 3)
    else (UTF8, 0)
  }

  /** The characters that may stand in a stream. */
  predicate Allowed(c: int) {
    || c == 0x09 || c == 0x0A || c == 0x0D || 0x20 <= c <= 0x7E || c == 0x85
    || 0xA0 <= c <= 0xD7FF || 0xE000 <= c <= 0xFFFD || 0x10000 <= c <= 0x10FFFF
  }

  /** One character in front of a part of a stream: none that can be, one that goes on, or one with its width. */
  datatype Step = Bad | Incomplete | Char(c: CodePoint, width: nat)

  function AllowedStep(c: int, width: nat): Step {
    if Allowed(c) then Char(c, width) else Bad
  }

  function Next8(s: seq<Byte>): Step
    requires s != []
  {
    var w := Width(s[0]);
    if w == 0 then Bad
    else if w > |s| then Incomplete
    else match DecodeOne(s) case None => Bad case Some(c) => AllowedStep(c, w)
  }

  /** A unit of two bytes. */
  function Unit(low: Byte, high: Byte): (u: nat)
    ensures u < 0x10000
  {
    low + high * 0x100
  }

  function Next16(s: seq<Byte>, low: nat): Step
    requires s != [] && low <= 1
  {
    if |s| < 2 then Incomplete
    else
      var u := Unit(s[low], s[1 - low]);
      if u / 0x400 == 0x37 then Bad                    // a low surrogate on its own
      else if u / 0x400 == 0x36 then
        if |s| < 4 then Incomplete
        else
          var u2 := Unit(s[2 + low], s[3 - low]);
          if u2 / 0x400 != 0x37 then Bad
          else AllowedStep(0x10000 + u % 0x400 * 0x400 + u2 % 0x400, 4)
      else AllowedStep(u, 2)
  }

  function Next(e: Encoding, s: seq<Byte>): (r: Step)
    requires s != []
    ensures r.Char? ==> 1 <= r.width <= |s| && Allowed(r.c) && 2 * |Encode(r.c)| <= 3 * r.width
    ensures r.Incomplete? ==> |s| < 4
  {
    match e
    case UTF8 => NextWidth(s); Next8(s)
    case UTF16LE => Next16(s, 0)
    case UTF16BE => Next16(s, 1)
  }

  lemma NextWidth(s: seq<Byte>)
    requires s != []
    ensures Next8(s).Char? ==> Next8(s).width == |Encode(Next8(s).c)|
  {
  }

  /** The characters of a whole stream behind its mark, or nothing if some part of it is wrong. */
  function Decode(e: Encoding, s: seq<Byte>): Option<seq<CodePoint>>
    decreases |s|
  {
    if s == [] then Some([])
    else
      match Next(e, s)
      case Bad => None
      case Incomplete => None
      case Char(c, w) => Ahead([c], Decode(e, s[w..]))
  }

  function Ahead(a: seq<CodePoint>, r: Option<seq<CodePoint>>): Option<seq<CodePoint>> {
    match r case None => None case Some(b) => Some(a + b)
  }

  lemma AheadTwice(a: seq<CodePoint>, b: seq<CodePoint>, r: Option<seq<CodePoint>>)
    ensures Ahead(a, Ahead(b, r)) == Ahead(a + b, r)
  {
    if r.Some? { assert a + (b + r.value) == (a + b) + r.value; }
  }

  /** What a stream comes to. */
  function Transcode(s: seq<Byte>): Option<seq<CodePoint>> {
    var (e, mark) := Detect(s);
    Decode(e, s[mark..])
  }

  /** More bytes do not change what is decided. */
  lemma NextStable(e: Encoding, s: seq<Byte>, more: seq<Byte>)
    requires s != [] && !Next(e, s).Incomplete?
    ensures Next(e, s + more) == Next(e, s)
  {
    hide Next8, Next16;
    match e
    case UTF8 => Stable8(s, more);
    case UTF16LE => Stable16(s, 0, more);
    case UTF16BE => Stable16(s, 1, more);
  }

  lemma Stable8(s: seq<Byte>, more: seq<Byte>)
    requires s != [] && !Next8(s).Incomplete?
    ensures Next8(s + more) == Next8(s)
  {
    hide Accumulate, AllowedStep;
    var w := Width(s[0]);
    if w > 0 {
      assert (s + more)[1..w] == s[1..w];
      assert forall k | 1 <= k < w :: (s + more)[k] == s[k];
    }
  }

  lemma Stable16(s: seq<Byte>, low: nat, more: seq<Byte>)
    requires s != [] && low <= 1 && !Next16(s, low).Incomplete?
    ensures Next16(s + more, low) == Next16(s, low)
  {
    hide Unit, AllowedStep;
  }

  lemma DetectStable(s: seq<Byte>, more: seq<Byte>)
    requires |s| >= 3 || more == []
    ensures Detect(s + more) == Detect(s)
  {
  }

  // ---------------------------------------------------------------- round trips

  /** Allowed characters in UTF-8 pass unchanged. */
  lemma {:induction false} Utf8Passes(cs: seq<CodePoint>)
    requires forall c | c in cs :: Allowed(c)
    ensures Decode(UTF8, EncodeAll(cs)) == Some(cs)
  {
    if cs != [] {
      var e, rest := Encode(cs[0]), EncodeAll(cs[1..]);
      DecodeEncode(cs[0], rest);
      EncodeParts(cs[0]);
      assert (e + rest)[0] == e[0];
      assert (e + rest)[|e|..] == rest;
      Utf8Passes(cs[1..]);
      assert [cs[0]] + cs[1..] == cs;
    }
  }

  /** UTF-16 as RFC 2781 has it. */
  function Encode16(c: CodePoint, low: nat): seq<Byte>
    requires low <= 1
  {
    if c < 0x10000 then Bytes(c, low)
    else Bytes(0xD800 + (c - 0x10000) / 0x400, low) + Bytes(0xDC00 + (c - 0x10000) % 0x400, low)
  }

  function Bytes(u: nat, low: nat): (s: seq<Byte>)
    requires u < 0x10000 && low <= 1
    ensures |s| == 2
  {
    if low == 0 then [u % 0x100, u / 0x100] else [u / 0x100, u % 0x100]
  }

  function EncodeAll16(cs: seq<CodePoint>, low: nat): seq<Byte>
    requires low <= 1
  {
    if cs == [] then [] else Encode16(cs[0], low) + EncodeAll16(cs[1..], low)
  }

  lemma UnitOfBytes(u: nat)
    requires u < 0x10000
    ensures Unit(u % 0x100, u / 0x100) == u
  {
  }

  lemma NextOf16(c: CodePoint, low: nat, rest: seq<Byte>)
    requires low <= 1 && Allowed(c)
    ensures Next16(Encode16(c, low) + rest, low) == Char(c, |Encode16(c, low)|)
  {
    if c < 0x10000 {
      UnitOfBytes(c);
      assert !IsSurrogate(c);
      var s := Encode16(c, low) + rest;
      assert s[0] == Bytes(c, low)[0] && s[1] == Bytes(c, low)[1];
    } else {
      var d := c - 0x10000;
      var a, b := 0xD800 + d / 0x400, 0xDC00 + d % 0x400;
      UnitOfBytes(a);
      UnitOfBytes(b);
      Surrogates(d);
      var s := Encode16(c, low) + rest;
      assert s[0] == Bytes(a, low)[0] && s[1] == Bytes(a, low)[1] && s[2] == Bytes(b, low)[0] &&
             s[3] == Bytes(b, low)[1];
    }
  }

  lemma Surrogates(d: nat)
    requires d < 0x100000
    ensures (0xD800 + d / 0x400) / 0x400 == 0x36 && (0xDC00 + d % 0x400) / 0x400 == 0x37
    ensures (0xD800 + d / 0x400) % 0x400 * 0x400 + (0xDC00 + d % 0x400) % 0x400 == d
  {
  }

  /** Allowed characters in UTF-16 are read as what they are, in both byte orders. */
  lemma {:induction false} Utf16Passes(cs: seq<CodePoint>, low: nat)
    requires low <= 1 && forall c | c in cs :: Allowed(c)
    ensures Decode(if low == 0 then UTF16LE else UTF16BE, EncodeAll16(cs, low)) == Some(cs)
  {
    if cs != [] {
      var e, rest := Encode16(cs[0], low), EncodeAll16(cs[1..], low);
      NextOf16(cs[0], low, rest);
      assert (e + rest)[|e|..] == rest;
      Utf16Passes(cs[1..], low);
      assert [cs[0]] + cs[1..] == cs;
    }
  }

  // ---------------------------------------------------------------- nothing else decodes

  predicate AllAllowed(cs: seq<CodePoint>) {
    forall c | c in cs :: Allowed(c)
  }

  function EncodeAs(e: Encoding, cs: seq<CodePoint>): seq<Byte> {
    match e
    case UTF8 => EncodeAll(cs)
    case UTF16LE => EncodeAll16(cs, 0)
    case UTF16BE => EncodeAll16(cs, 1)
  }

  function EncodeOne(e: Encoding, c: CodePoint): seq<Byte> {
    match e
    case UTF8 => Encode(c)
    case UTF16LE => Encode16(c, 0)
    case UTF16BE => Encode16(c, 1)
  }

  lemma EncodeAsStep(e: Encoding, c: CodePoint, cs: seq<CodePoint>)
    ensures EncodeAs(e, [c] + cs) == EncodeOne(e, c) + EncodeAs(e, cs)
  {
    hide Encode, Encode16;
    assert ([c] + cs)[1..] == cs && ([c] + cs)[0] == c;
  }

  /** The bytes of a unit, put back. */
  lemma BytesOfUnit(a: Byte, b: Byte, low: nat)
    requires low <= 1
    ensures Bytes(Unit(if low == 0 then a else b, if low == 0 then b else a), low) == [a, b]
  {
  }

  lemma PairOfUnits(u: nat, v: nat)
    requires u / 0x400 == 0x36 && v / 0x400 == 0x37
    ensures var d := u % 0x400 * 0x400 + v % 0x400;
            d < 0x100000 && 0xD800 + d / 0x400 == u && 0xDC00 + d % 0x400 == v
  {
  }

  lemma Read16(s: seq<Byte>, low: nat)
    requires s != [] && low <= 1 && Next16(s, low).Char?
    ensures var r := Next16(s, low); r.width <= |s| && Encode16(r.c, low) == s[..r.width]
  {
    hide Bytes, Unit;
    var u := Unit(s[low], s[1 - low]);
    BytesOfUnit(s[0], s[1], low);
    if u / 0x400 == 0x36 {
      var v := Unit(s[2 + low], s[3 - low]);
      BytesOfUnit(s[2], s[3], low);
      PairOfUnits(u, v);
      assert s[..4] == [s[0], s[1]] + [s[2], s[3]];
    } else {
      assert s[..2] == [s[0], s[1]];
    }
  }

  /** A character that is read stands there as it is encoded. */
  lemma ReadIsWritten(e: Encoding, s: seq<Byte>)
    requires s != [] && Next(e, s).Char?
    ensures var r := Next(e, s); r.width <= |s| && EncodeOne(e, r.c) == s[..r.width]
  {
    NextWidth(s);
    if e != UTF8 { Read16(s, if e == UTF16LE then 0 else 1); }
  }

  lemma {:induction false} DecodeOnly(e: Encoding, s: seq<Byte>)
    requires Decode(e, s).Some?
    ensures EncodeAs(e, Decode(e, s).value) == s && AllAllowed(Decode(e, s).value)
    decreases |s|
  {
    hide Next, EncodeAs, EncodeOne;
    if s == [] {
      EncodeNothing(e);
    } else {
      var r := Next(e, s);
      ReadIsWritten(e, s);
      DecodeOnly(e, s[r.width..]);
      EncodeAsStep(e, r.c, Decode(e, s[r.width..]).value);
    }
  }

  lemma EncodeNothing(e: Encoding)
    ensures EncodeAs(e, []) == []
  {
  }

  /**
   Behind the mark, a stream comes to these characters exactly if it is their encoding and all of them are allowed.
   */
  lemma DecodeExact(e: Encoding, s: seq<Byte>, cs: seq<CodePoint>)
    ensures Decode(e, s) == Some(cs) <==> EncodeAs(e, cs) == s && AllAllowed(cs)
  {
    hide Decode;
    if Decode(e, s) == Some(cs) { DecodeOnly(e, s); }
    if EncodeAs(e, cs) == s && AllAllowed(cs) {
      match e
      case UTF8 => Utf8Passes(cs);
      case UTF16LE => Utf16Passes(cs, 0);
      case UTF16BE => Utf16Passes(cs, 1);
    }
  }

  function MarkOf(e: Encoding): seq<Byte> {
    match e
    case UTF8 => [0xEF, 0xBB, 0xBF]
    case UTF16LE => [0xFF, 0xFE]
    case UTF16BE => [0xFE, 0xFF]
  }

  /** With its mark, every encoding of allowed characters comes to these characters. */
  lemma MarkedPasses(e: Encoding, cs: seq<CodePoint>)
    ensures Transcode(MarkOf(e) + EncodeAs(e, cs)) == Some(cs) <==> AllAllowed(cs)
  {
    hide Decode, EncodeAs;
    var s := MarkOf(e) + EncodeAs(e, cs);
    assert Detect(s) == (e, |MarkOf(e)|);
    assert s[|MarkOf(e)|..] == EncodeAs(e, cs);
    DecodeExact(e, EncodeAs(e, cs), cs);
  }

  const BYTE_ORDER_MARK: CodePoint := 0xFEFF

  /** Without a mark UTF-8 is taken for granted; but a leading byte order mark is then taken for one. */
  lemma UnmarkedPasses(cs: seq<CodePoint>)
    requires AllAllowed(cs)
    ensures Transcode(EncodeAll(cs)) == Some(cs) <==> cs == [] || cs[0] != BYTE_ORDER_MARK
    ensures cs != [] && cs[0] == BYTE_ORDER_MARK ==> Transcode(EncodeAll(cs)) == Some(cs[1..])
  {
    hide Decode, Encode, Detect;
    if cs == [] {
      UnmarkedEmpty();
    } else if cs[0] == BYTE_ORDER_MARK {
      MarkEncodes();
      MarkedPasses(UTF8, cs[1..]);
    } else {
      var s := EncodeAll(cs);
      NotAMark(cs[0], EncodeAll(cs[1..]));
      assert s[0..] == s;
      DecodeExact(UTF8, s, cs);
    }
  }

  lemma UnmarkedEmpty()
    ensures Transcode(EncodeAll([])) == Some([])
  {
  }

  lemma MarkEncodes()
    ensures Encode(BYTE_ORDER_MARK) == MarkOf(UTF8)
  {
  }

  lemma NotAMark(c: CodePoint, rest: seq<Byte>)
    requires c != BYTE_ORDER_MARK && Allowed(c)
    ensures Detect(Encode(c) + rest) == (UTF8, 0)
  {
    var s := Encode(c) + rest;
    EncodeParts(c);
    assert s[0] == Encode(c)[0];
  }
}
