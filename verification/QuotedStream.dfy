/**
 From the emitter's bytes back to the value, through the reader: a written scalar is a stream
 that decodes, to the very same text. Also the recoding to UTF-16 that the emitter does when
 it flushes, and where that departs from UTF-16.
 */
module QuotedStream {
  import opened Wrappers
  import opened Utf8
  import opened QuotedText
  import opened Decoding

  /** The octets are UTF-8 of allowed characters. */
  ghost predicate Passes(t: seq<Byte>) {
    exists cs: seq<CodePoint> :: EncodeAll(cs) == t && forall c | c in cs :: Allowed(c)
  }

  lemma PassesAppend(a: seq<Byte>, b: seq<Byte>)
    requires Passes(a) && Passes(b)
    ensures Passes(a + b)
  {
    var x: seq<CodePoint> :| EncodeAll(x) == a && forall c | c in x :: Allowed(c);
    var y: seq<CodePoint> :| EncodeAll(y) == b && forall c | c in y :: Allowed(c);
    EncodeAppend(x, y);
    assert forall c | c in x + y :: Allowed(c);
  }

  lemma PassesPoint(c: CodePoint)
    requires Allowed(c)
    ensures Passes(Encode(c))
  {
    assert EncodeAll([c]) == Encode(c) + [] == Encode(c);
  }

  predicate AllowedAscii(b: Byte) {
    b == LF || b == CR || 0x20 <= b <= 0x7E
  }

  lemma {:induction false} PassesAscii(t: seq<Byte>)
    requires forall b | b in t :: AllowedAscii(b)
    ensures Passes(t)
  {
    if t == [] {
      assert EncodeAll([]) == [];
    } else {
      assert AllowedAscii(t[0]);
      PassesPoint(t[0]);
      assert Encode(t[0]) == [t[0]];
      PassesAscii(t[1..]);
      PassesAppend([t[0]], t[1..]);
      assert [t[0]] + t[1..] == t;
    }
  }

  lemma {:induction false} HexIsAscii(v: nat, n: nat)
    ensures forall b | b in Hex(v, n) :: AllowedAscii(b)
  {
    if n > 0 { HexIsAscii(v / 16, n - 1); }
  }

  lemma EscapePasses(c: CodePoint)
    ensures Passes([BACKSLASH] + EscapeOf(c))
  {
    HexIsAscii(c, 2);
    HexIsAscii(c, 4);
    HexIsAscii(c, 8);
    PassesAscii([BACKSLASH] + EscapeOf(c));
  }

  lemma PlainPasses(st: Style, bom: bool, c: CodePoint, tail: seq<Byte>)
    requires !Escaped(st, bom, Encode(c) + tail)
    ensures Passes(Encode(c))
  {
    PrintableIsPoint(c, tail);
    PassesPoint(c);
  }

  lemma FoldPasses(st: Style, next: CodePoint)
    ensures Passes(FoldOf(st, next))
  {
    PassesAscii(FoldOf(st, next));
  }

  lemma {:induction false} WrittenPasses(st: Style, bom: bool, cs: seq<CodePoint>, first: bool, spaces: bool, col: int)
    ensures Passes(Written(st, bom, cs, first, spaces, col))
    decreases |cs|
  {
    hide Encode, EscapeOf, Escaped, FoldOf, Passes;
    if cs == [] {
      PassesAscii([]);
    } else if Escaped(st, bom, EncodeAll(cs)) {
      EscapePasses(cs[0]);
      var col' := col + 1 + |EscapeOf(cs[0])|;
      WrittenPasses(st, bom, cs[1..], false, false, col');
      PassesAppend([BACKSLASH] + EscapeOf(cs[0]), Written(st, bom, cs[1..], false, false, col'));
    } else if cs[0] != SPACE {
      PlainPasses(st, bom, cs[0], EncodeAll(cs[1..]));
      WrittenPasses(st, bom, cs[1..], false, false, col + 1);
      PassesAppend(Encode(cs[0]), Written(st, bom, cs[1..], false, false, col + 1));
    } else if Folds(st, cs, first, spaces, col) {
      FoldPasses(st, cs[1]);
      var col' := st.indent + if cs[1] == SPACE then 1 else 0;
      WrittenPasses(st, bom, cs[1..], false, true, col');
      PassesAppend(FoldOf(st, cs[1]), Written(st, bom, cs[1..], false, true, col'));
    } else {
      PassesAscii([SPACE]);
      WrittenPasses(st, bom, cs[1..], false, true, col + 1);
      PassesAppend([SPACE], Written(st, bom, cs[1..], false, true, col + 1));
    }
  }

  lemma QuotedPasses(st: Style, cs: seq<CodePoint>, col: int)
    ensures Passes(Quoted(st, cs, col))
  {
    hide Passes, Written;
    var body := Written(st, IsBom(EncodeAll(cs)), cs, true, false, col);
    PassesAscii([QUOTE]);
    WrittenPasses(st, IsBom(EncodeAll(cs)), cs, true, false, col);
    PassesAppend([QUOTE], body);
    PassesAppend([QUOTE] + body, [QUOTE]);
  }

  /** A value written, decoded by the reader, and scanned up to the reader's NUL, is the value again. */
  lemma StreamRoundTrip(st: Style, v: seq<Byte>, cs: seq<CodePoint>, col: int)
    requires DecodeAll(v) == Some(cs) && st.indent >= 1
    ensures var stream := Quoted(st, cs, col);
            && Transcode(stream).Some? && EncodeAll(Transcode(stream).value) == stream
            && Text((EncodeAll(Transcode(stream).value) + [NUL])[1..], 1) == Scanned(v, [NUL])
  {
    hide Written, Text, Decode;
    var stream := Quoted(st, cs, col);
    QuotedPasses(st, cs, col);
    var ps: seq<CodePoint> :| EncodeAll(ps) == stream && forall c | c in ps :: Allowed(c);
    Utf8Passes(ps);
    assert Detect(stream) == (UTF8, 0) && stream[0..] == stream;
    QuotedRoundTrip(st, v, cs, col, [NUL], 1);
  }

  // ---------------------------------------------------------------- recoding to UTF-16

  /** What a flush puts out for a character, whichever UTF-16 is asked for. */
  function Recode(c: CodePoint): seq<Byte> {
    if c < 0x10000 then [c % 0x100, c / 0x100]
    else
      var d := c - 0x10000;
      [d / 0x400 % 0x100, (0xD8 + d / 0x40000) % 0x100, d % 0x100, (0xDC + d / 0x100 % 0x100) % 0x100]
  }

  /** It is little-endian UTF-16 in the basic plane and, beyond it, in one block of 1024 out of 64. */
  lemma RecodeExact(c: CodePoint)
    ensures Recode(c) == Encode16(c, 0) <==> c < 0x10000 || (c - 0x10000) / 0x400 % 0x40 == 0
  {
    if c >= 0x10000 {
      var d := c - 0x10000;
      var a, b := 0xD800 + d / 0x400, 0xDC00 + d % 0x400;
      HighUnit(d);
      LowUnit(d);
      assert Encode16(c, 0) == [a % 0x100, a / 0x100, b % 0x100, b / 0x100];
      assert Recode(c)[3] == b / 0x100 <==> d / 0x400 % 0x40 == 0;
    }
  }

  lemma HighUnit(d: nat)
    requires d < 0x100000
    ensures (0xD800 + d / 0x400) % 0x100 == d / 0x400 % 0x100
    ensures (0xD800 + d / 0x400) / 0x100 == 0xD8 + d / 0x40000 < 0x100
  {
  }

  lemma LowUnit(d: nat)
    requires d < 0x100000
    ensures (0xDC00 + d % 0x400) % 0x100 == d % 0x100
    ensures (0xDC00 + d % 0x400) / 0x100 == (0xDC + d / 0x100 % 0x100) % 0x100 <==> d / 0x400 % 0x40 == 0
  {
    var q := d / 0x100;
    assert d % 0x400 / 0x100 == q % 4 && d / 0x400 == q / 4;
    assert (0xDC00 + d % 0x400) / 0x100 == 0xDC + q % 4;
    assert q % 0x100 == q / 4 % 0x40 * 4 + q % 4;
  }

  /** And it is big-endian UTF-16 only where the two octets of a character in the basic plane are the same. */
  lemma RecodeBigExact(c: CodePoint)
    ensures Recode(c) == Encode16(c, 1) <==> c < 0x10000 && c / 0x100 == c % 0x100
  {
    if c >= 0x10000 {
      var d := c - 0x10000;
      var a, b := 0xD800 + d / 0x400, 0xDC00 + d % 0x400;
      HighUnit(d);
      LowUnit(d);
      assert Encode16(c, 1) == [a / 0x100, a % 0x100, b / 0x100, b % 0x100];
      SwappedUnits(d);
    } else {
      assert Encode16(c, 1) == [c / 0x100, c % 0x100];
    }
  }

  /** The high unit can be read either way only if its low octet is one of four, and then the low unit cannot. */
  lemma SwappedUnits(d: nat)
    requires d < 0x100000
    ensures !(d / 0x400 % 0x100 == 0xD8 + d / 0x40000
              && d % 0x100 == (0xDC00 + d % 0x400) / 0x100
              && (0xDC + d / 0x100 % 0x100) % 0x100 == d % 0x100)
  {
    var h, u := d / 0x400, d / 0x100 % 4;
    Octets(d);
    if h % 0x100 == 0xD8 + h / 0x100 { NoSwap(h, u); }
  }

  lemma Octets(d: nat)
    requires d < 0x100000
    ensures d / 0x40000 == d / 0x400 / 0x100
    ensures (0xDC00 + d % 0x400) / 0x100 == 0xDC + d / 0x100 % 4
    ensures d / 0x100 % 0x100 == d / 0x400 % 0x40 * 4 + d / 0x100 % 4
  {
    var h, l := d / 0x400, d % 0x400;
    assert d == 0x400 * h + l;
    var u := l / 0x100;
    assert d / 0x100 == 4 * h + u && d / 0x40000 == h / 0x100;
    Quarter(h, u);
  }

  lemma Quarter(h: nat, u: nat)
    requires u < 4
    ensures (4 * h + u) % 4 == u && (4 * h + u) % 0x100 == h % 0x40 * 4 + u
  {
    var q, r := h / 0x40, h % 0x40;
    assert 4 * h + u == 0x100 * q + (4 * r + u);
  }

  lemma NoSwap(h: nat, u: nat)
    requires h < 0x400 && u < 4 && h % 0x100 == 0xD8 + h / 0x100
    ensures (0xDC + (h % 0x40 * 4 + u)) % 0x100 != 0xDC + u
  {
    var q := h / 0x100;
    assert h == 0x101 * q + 0xD8;
    assert h == 0xD8 || h == 0x1D9 || h == 0x2DA || h == 0x3DB;
  }

  /** An emoji, which is outside that block; and big-endian output is little-endian all the same. */
  lemma RecodeCounterexamples()
    ensures Recode(0x1F600) != Encode16(0x1F600, 0)
    ensures Recode(0x61) == Encode16(0x61, 0) != Encode16(0x61, 1)
  {
    RecodeExact(0x1F600);
    assert (0x1F600 - 0x10000) / 0x400 % 0x40 == 61;
  }
}
