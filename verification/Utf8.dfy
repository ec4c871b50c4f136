/**
 UTF-8 as the reader, the scanner and the emitter use it. Masks and shifts are written as
 remainders and quotients.
 */
module Utf8 {
  import opened Wrappers

  type Byte = b: int | 0 <= b < 0x100

  predicate IsSurrogate(c: int) {
    0xD800 <= c <= 0xDFFF
  }

  /** A Unicode scalar value. */
  type CodePoint = c: int | 0 <= c <= 0x10FFFF && !IsSurrogate(c)

  function Encode(c: CodePoint): (s: seq<Byte>)
    ensures 1 <= |s| <= 4
  {
    if c <= 0x7F then [c]
    else if c <= 0x7FF then [0xC0 + c / 0x40, 0x80 + c % 0x40]
    else if c <= 0xFFFF then [0xE0 + c / 0x1000, 0x80 + c / 0x40 % 0x40, 0x80 + c % 0x40]
    else [0xF0 + c / 0x40000, 0x80 + c / 0x1000 % 0x40, 0x80 + c / 0x40 % 0x40, 0x80 + c % 0x40]
  }

  function EncodeAll(cs: seq<CodePoint>): seq<Byte> {
    if cs == [] then [] else Encode(cs[0]) + EncodeAll(cs[1..])
  }

  /** The number of octets that a leading octet announces, or 0. */
  function Width(b: Byte): (w: nat)
    ensures w <= 4
  {
    if b < 0x80 then 1
    else if 0xC0 <= b < 0xE0 then 2
    else if 0xE0 <= b < 0xF0 then 3
    else if 0xF0 <= b < 0xF8 then 4
    else 0
  }

  /** The part of the value that is in the leading octet. */
  function LeadBits(b: Byte): nat {
    match Width(b)
    case 1 => b
    case 2 => b % 0x20
    case 3 => b % 0x10
    case 4 => b % 0x08
    case _ => 0
  }

  /** The value built up from the leading octet and the low six bits of the following ones. */
  function Accumulate(value: nat, tail: seq<Byte>): nat
    decreases |tail|
  {
    if tail == [] then value else Accumulate(value * 0x40 + tail[0] % 0x40, tail[1..])
  }

  /** One character in front of `s`, with every check that the reader makes. */
  function DecodeOne(s: seq<Byte>): (r: Option<CodePoint>)
    requires s != []
    ensures r.Some? ==> |Encode(r.value)| <= |s| && s[..|Encode(r.value)|] == Encode(r.value)
  {
    var w := Width(s[0]);
    if w == 0 || w > |s| || exists k | 1 <= k < w :: s[k] / 0x40 != 2 then None
    else
      var v := Accumulate(LeadBits(s[0]), s[1..w]);
      if (w == 2 && v < 0x80) || (w == 3 && v < 0x800) || (w == 4 && v < 0x10000) then None
      else if IsSurrogate(v) || v > 0x10FFFF then None
      else
        Decoded(s, w, v);
        Some(v)
  }

  lemma AccumulateShort(value: nat, t: seq<Byte>)
    requires |t| <= 3
    ensures |t| == 0 ==> Accumulate(value, t) == value
    ensures |t| == 1 ==> Accumulate(value, t) == value * 0x40 + t[0] % 0x40
    ensures |t| == 2 ==> Accumulate(value, t) == (value * 0x40 + t[0] % 0x40) * 0x40 + t[1] % 0x40
    ensures |t| == 3 ==>
              Accumulate(value, t) == ((value * 0x40 + t[0] % 0x40) * 0x40 + t[1] % 0x40) * 0x40 + t[2] % 0x40
  {
    if |t| >= 1 {
      var v := value * 0x40 + t[0] % 0x40;
      if |t| >= 2 {
        var v' := v * 0x40 + t[1..][0] % 0x40;
        if |t| == 3 {
          assert Accumulate(v', t[1..][1..]) == v' * 0x40 + t[1..][1..][0] % 0x40;
        }
      }
    }
  }

  lemma Sextets(v: nat)
    ensures v / 0x1000 == v / 0x40 / 0x40 && v / 0x40000 == v / 0x40 / 0x40 / 0x40
    ensures v == v / 0x40 * 0x40 + v % 0x40
  {
  }

  lemma Sextet(x: nat, d: nat)
    requires d < 0x40
    ensures (x * 0x40 + d) / 0x40 == x && (x * 0x40 + d) % 0x40 == d
  {
  }

  /** What the checks leave is the encoding of the value. */
  lemma Decoded(s: seq<Byte>, w: nat, v: nat)
    requires s != [] && w == Width(s[0]) && 1 <= w <= |s| && (forall k | 1 <= k < w :: s[k] / 0x40 == 2)
    requires v == Accumulate(LeadBits(s[0]), s[1..w]) && !IsSurrogate(v) && v <= 0x10FFFF
    requires (w == 2 ==> v >= 0x80) && (w == 3 ==> v >= 0x800) && (w == 4 ==> v >= 0x10000)
    ensures |Encode(v)| == w && s[..w] == Encode(v)
  {
    hide Accumulate;
    AccumulateShort(LeadBits(s[0]), s[1..w]);
    if w == 2 {
      Decoded2(s[0], s[1]);
    } else if w == 3 {
      Decoded3(s[0], s[1], s[2]);
    } else if w == 4 {
      Decoded4(s[0], s[1], s[2], s[3]);
    }
  }

  lemma Decoded2(a: Byte, b: Byte)
    requires Width(a) == 2 && b / 0x40 == 2
    ensures var v := LeadBits(a) * 0x40 + b % 0x40;
            0 <= v <= 0x7FF && (v >= 0x80 ==> Encode(v) == [a, b])
  {
  }

  lemma Decoded3(a: Byte, b: Byte, c: Byte)
    requires Width(a) == 3 && b / 0x40 == 2 && c / 0x40 == 2
    ensures var v := (LeadBits(a) * 0x40 + b % 0x40) * 0x40 + c % 0x40;
            0 <= v <= 0xFFFF && (v >= 0x800 && !IsSurrogate(v) ==> Encode(v) == [a, b, c])
  {
    ThreeSextets(LeadBits(a), b % 0x40, c % 0x40);
  }

  lemma ThreeSextets(l: nat, p: nat, q: nat)
    requires p < 0x40 && q < 0x40
    ensures var v := (l * 0x40 + p) * 0x40 + q; v / 0x1000 == l && v / 0x40 % 0x40 == p && v % 0x40 == q
  {
    var x := l * 0x40 + p;
    Sextet(l, p);
    Sextet(x, q);
    Sextets(x * 0x40 + q);
  }

  lemma Decoded4(a: Byte, b: Byte, c: Byte, d: Byte)
    requires Width(a) == 4 && b / 0x40 == 2 && c / 0x40 == 2 && d / 0x40 == 2
    ensures var v := ((LeadBits(a) * 0x40 + b % 0x40) * 0x40 + c % 0x40) * 0x40 + d % 0x40;
            0 <= v && (0x10000 <= v <= 0x10FFFF ==> Encode(v) == [a, b, c, d])
  {
    FourSextets(LeadBits(a), b % 0x40, c % 0x40, d % 0x40);
  }

  lemma FourSextets(l: nat, p: nat, q: nat, r: nat)
    requires p < 0x40 && q < 0x40 && r < 0x40
    ensures var v := ((l * 0x40 + p) * 0x40 + q) * 0x40 + r;
            v / 0x40000 == l && v / 0x1000 % 0x40 == p && v / 0x40 % 0x40 == q && v % 0x40 == r
  {
    var x := l * 0x40 + p;
    var y := x * 0x40 + q;
    Sextet(l, p);
    Sextet(x, q);
    Sextet(y, r);
    Sextets(y * 0x40 + r);
  }

  /** The octets of an encoded character, taken apart again. */
  lemma EncodeParts(c: CodePoint)
    ensures var e := Encode(c);
            && Width(e[0]) == |e| && Accumulate(LeadBits(e[0]), e[1..]) == c
            && (forall k | 1 <= k < |e| :: e[k] / 0x40 == 2)
  {
    hide Accumulate, Encode;
    Octets(c);
    var e := Encode(c);
    if c > 0xFFFF {
      Parts4(c, e);
    } else if c > 0x7FF {
      Parts3(c, e);
    } else {
      AccumulateShort(LeadBits(e[0]), e[1..]);
      if c > 0x7F { Lead2(c); }
    }
  }

  lemma Parts3(c: CodePoint, e: seq<Byte>)
    requires 0x7FF < c <= 0xFFFF && |e| == 3
    requires e[0] == 0xE0 + c / 0x1000 && e[1] == 0x80 + c / 0x40 % 0x40 && e[2] == 0x80 + c % 0x40
    ensures Width(e[0]) == 3 && Accumulate(LeadBits(e[0]), e[1..]) == c && e[1] / 0x40 == 2 && e[2] / 0x40 == 2
  {
    hide Accumulate, LeadBits;
    Lead3(c);
    AccumulateShort(LeadBits(e[0]), e[1..]);
  }

  lemma Parts4(c: CodePoint, e: seq<Byte>)
    requires 0xFFFF < c && |e| == 4 && e[0] == 0xF0 + c / 0x40000 && e[1] == 0x80 + c / 0x1000 % 0x40
    requires e[2] == 0x80 + c / 0x40 % 0x40 && e[3] == 0x80 + c % 0x40
    ensures Width(e[0]) == 4 && Accumulate(LeadBits(e[0]), e[1..]) == c
    ensures e[1] / 0x40 == 2 && e[2] / 0x40 == 2 && e[3] / 0x40 == 2
  {
    hide Accumulate, LeadBits;
    Lead4(c);
    AccumulateShort(LeadBits(e[0]), e[1..]);
  }

  lemma Octets(c: CodePoint)
    ensures var e := Encode(c);
            && |e| == (if c <= 0x7F then 1 else if c <= 0x7FF then 2 else if c <= 0xFFFF then 3 else 4)
            && (|e| == 1 ==> e[0] == c)
            && (|e| == 2 ==> e[0] == 0xC0 + c / 0x40 && e[1] == 0x80 + c % 0x40)
            && (|e| == 3 ==> e[0] == 0xE0 + c / 0x1000 && e[1] == 0x80 + c / 0x40 % 0x40 && e[2] == 0x80 + c % 0x40)
            && (|e| == 4 ==> e[0] == 0xF0 + c / 0x40000 && e[1] == 0x80 + c / 0x1000 % 0x40)
            && (|e| == 4 ==> e[2] == 0x80 + c / 0x40 % 0x40 && e[3] == 0x80 + c % 0x40)
  {
  }

  lemma Tail(x: nat)
    ensures var b := 0x80 + x % 0x40; b / 0x40 == 2 && b % 0x40 == x % 0x40
  {
  }

  lemma Lead2(c: CodePoint)
    requires 0x7F < c <= 0x7FF
    ensures var b := 0xC0 + c / 0x40; b < 0xE0 && LeadBits(b) * 0x40 + c % 0x40 == c
    ensures (0x80 + c % 0x40) / 0x40 == 2 && (0x80 + c % 0x40) % 0x40 == c % 0x40
  {
  }

  lemma Lead3(c: CodePoint)
    requires 0x7FF < c <= 0xFFFF
    ensures var b := 0xE0 + c / 0x1000; b < 0xF0 && (LeadBits(b) * 0x40 + c / 0x40 % 0x40) * 0x40 + c % 0x40 == c
    ensures (0x80 + c % 0x40) / 0x40 == 2 && (0x80 + c % 0x40) % 0x40 == c % 0x40
    ensures (0x80 + c / 0x40 % 0x40) / 0x40 == 2 && (0x80 + c / 0x40 % 0x40) % 0x40 == c / 0x40 % 0x40
  {
    Sextets(c);
    Sextets(c / 0x40);
    Tail(c);
    Tail(c / 0x40);
  }

  lemma Lead4(c: CodePoint)
    requires 0xFFFF < c
    ensures var b := 0xF0 + c / 0x40000;
            b < 0xF8 && ((LeadBits(b) * 0x40 + c / 0x1000 % 0x40) * 0x40 + c / 0x40 % 0x40) * 0x40 + c % 0x40 == c
    ensures (0x80 + c % 0x40) / 0x40 == 2 && (0x80 + c % 0x40) % 0x40 == c % 0x40
    ensures (0x80 + c / 0x40 % 0x40) / 0x40 == 2 && (0x80 + c / 0x40 % 0x40) % 0x40 == c / 0x40 % 0x40
    ensures (0x80 + c / 0x1000 % 0x40) / 0x40 == 2 && (0x80 + c / 0x1000 % 0x40) % 0x40 == c / 0x1000 % 0x40
  {
    Sextets(c);
    Sextets(c / 0x40);
    Sextets(c / 0x40 / 0x40);
    Tail(c);
    Tail(c / 0x40);
    Tail(c / 0x1000);
  }

  /** Decoding undoes encoding, whatever follows. */
  lemma DecodeEncode(c: CodePoint, rest: seq<Byte>)
    ensures DecodeOne(Encode(c) + rest) == Some(c)
  {
    EncodeParts(c);
    var e, s := Encode(c), Encode(c) + rest;
    assert s[1..|e|] == e[1..];
    assert forall k | 1 <= k < |e| :: s[k] == e[k];
  }

  /** All characters of `s`, or nothing if some of it is not UTF-8. */
  function DecodeAll(s: seq<Byte>): (r: Option<seq<CodePoint>>)
    ensures r.Some? ==> EncodeAll(r.value) == s
    decreases |s|
  {
    if s == [] then Some([])
    else
      match DecodeOne(s)
      case None => None
      case Some(c) =>
        var rest := s[|Encode(c)|..];
        assert s == Encode(c) + rest;
        match DecodeAll(rest)
        case None => None
        case Some(cs) =>
          assert ([c] + cs)[1..] == cs;
          Some([c] + cs)
  }

  lemma {:induction false} DecodeEncodeAll(cs: seq<CodePoint>)
    ensures DecodeAll(EncodeAll(cs)) == Some(cs)
  {
    if cs != [] {
      DecodeEncode(cs[0], EncodeAll(cs[1..]));
      DecodeEncodeAll(cs[1..]);
      assert (Encode(cs[0]) + EncodeAll(cs[1..]))[|Encode(cs[0])|..] == EncodeAll(cs[1..]);
      assert [cs[0]] + cs[1..] == cs;
    }
  }

  lemma {:induction false} EncodeAppend(a: seq<CodePoint>, b: seq<CodePoint>)
    ensures EncodeAll(a + b) == EncodeAll(a) + EncodeAll(b)
    decreases |a|
  {
    hide Encode;
    if a == [] {
      assert a + b == b;
    } else {
      EncodeAppend(a[1..], b);
      assert (a + b)[0] == a[0] && (a + b)[1..] == a[1..] + b;
      assert Encode(a[0]) + (EncodeAll(a[1..]) + EncodeAll(b)) == (Encode(a[0]) + EncodeAll(a[1..])) + EncodeAll(b);
    }
  }
}
