/** Cutting strings at a character, joining them, and decimal numbers. */
module Strings {
  /** The part in front of the first `c`. */
  function Head(s: string, c: char): (e: string)
    ensures |e| <= |s| && c !in e && e == s[..|e|] && (|e| < |s| ==> s[|e|] == c)
  {
    if s == "" || s[0] == c then "" else [s[0]] + Head(s[1..], c)
  }

  /** The parts between occurrences of `c`, empty ones too. */
  function Split(s: string, c: char): (es: seq<string>)
    ensures es != []
    decreases |s|
  {
    var e := Head(s, c);
    if |e| == |s| then [e] else [e] + Split(s[|e| + 1..], c)
  }

  function Join(es: seq<string>, c: char): string {
    if es == [] then "" else if |es| == 1 then es[0] else es[0] + [c] + Join(es[1..], c)
  }

  lemma HeadAt(e: string, rest: string, c: char)
    requires c !in e && (rest == "" || rest[0] == c)
    ensures Head(e + rest, c) == e
  {
    hide Head;
    var s, h := e + rest, Head(e + rest, c);
    assert forall i | 0 <= i < |e| :: s[i] == e[i] && s[i] != c;
    assert forall i | 0 <= i < |h| :: h[i] == s[i] && h[i] != c;
    assert rest != "" ==> s[|e|] == rest[0];
    assert |h| == |e|;
  }

  lemma HeadRange(p: string, r: nat, c: char)
    requires r <= |p|
    ensures var n := |Head(p[r..], c)|;
            && r + n <= |p| && p[r..r + n] == Head(p[r..], c) && (r + n < |p| ==> p[r + n] == c)
            && forall i | r <= i < r + n :: p[i] != c
  {
  }

  lemma SplitAt(e: string, rest: string, c: char)
    requires c !in e
    ensures Split(e + [c] + rest, c) == [e] + Split(rest, c)
    ensures Split(e, c) == [e]
  {
    HeadAt(e, [c] + rest, c);
    assert e + [c] + rest == e + ([c] + rest);
    assert (e + [c] + rest)[|e| + 1..] == rest;
    HeadAt(e, "", c);
    assert e + "" == e;
  }

  /** A cut at an occurrence of `c` cuts the list of parts. */
  lemma {:induction false} SplitAppend(a: string, b: string, c: char)
    ensures Split(a + [c] + b, c) == Split(a, c) + Split(b, c)
    decreases |a|
  {
    hide Head, Split;
    var e := Head(a, c);
    if |e| == |a| {
      SplitAt(a, b, c);
    } else {
      var rest := a[|e| + 1..];
      assert a == e + [c] + rest;
      SplitAt(e, rest, c);
      SplitAppend(rest, b, c);
      assert a + [c] + b == e + [c] + (rest + [c] + b);
      SplitAt(e, rest + [c] + b, c);
      assert [e] + (Split(rest, c) + Split(b, c)) == ([e] + Split(rest, c)) + Split(b, c);
    }
  }

  lemma {:induction false} SplitWithout(s: string, c: char)
    ensures forall i | 0 <= i < |Split(s, c)| :: c !in Split(s, c)[i]
    decreases |s|
  {
    var e := Head(s, c);
    if |e| < |s| { SplitWithout(s[|e| + 1..], c); }
  }

  lemma JoinStep(e: string, es: seq<string>, c: char)
    requires es != []
    ensures Join([e] + es, c) == e + [c] + Join(es, c)
  {
  }

  /** Joining undoes splitting. */
  lemma {:induction false} JoinSplit(s: string, c: char)
    ensures Join(Split(s, c), c) == s
    decreases |s|
  {
    hide Head;
    var e := Head(s, c);
    if |e| < |s| {
      hide Join;
      var rest := s[|e| + 1..];
      JoinSplit(rest, c);
      JoinStep(e, Split(rest, c), c);
      assert s == e + [c] + rest;
    }
  }

  /** Splitting undoes joining, if no part has the character in it. */
  lemma {:induction false} SplitJoin(es: seq<string>, c: char)
    requires es != [] && forall i | 0 <= i < |es| :: c !in es[i]
    ensures Split(Join(es, c), c) == es
    decreases |es|
  {
    if |es| == 1 {
      SplitAt(es[0], "", c);
      assert es == [es[0]];
    } else {
      SplitJoin(es[1..], c);
      SplitAt(es[0], Join(es[1..], c), c);
      assert [es[0]] + es[1..] == es;
    }
  }

  // ---------------------------------------------------------------- decimal numbers

  predicate IsDigit(c: char) {
    '0' <= c <= '9'
  }

  predicate AllDigits(s: string) {
    forall i | 0 <= i < |s| :: IsDigit(s[i])
  }

  function DigitOf(d: nat): char
    requires d < 10
  {
    '0' + d as char
  }

  function ValueOf(c: char): (d: nat)
    requires IsDigit(c)
    ensures d < 10
  {
    (c - '0') as int
  }

  /** A number in decimal, without leading zeroes. */
  function Decimal(n: nat): (s: string)
    ensures s != "" && AllDigits(s) && (n > 0 ==> s[0] != '0') && (|s| > 1 ==> n >= 10)
    decreases n
  {
    if n < 10 then [DigitOf(n)] else Decimal(n / 10) + [DigitOf(n % 10)]
  }

  function Number(s: string): nat
    requires AllDigits(s)
  {
    if s == "" then 0 else Number(s[..|s| - 1]) * 10 + ValueOf(s[|s| - 1])
  }

  lemma {:induction false} NumberDecimal(n: nat)
    ensures Number(Decimal(n)) == n
  {
    if n >= 10 {
      var s := Decimal(n);
      NumberDecimal(n / 10);
      assert s[..|s| - 1] == Decimal(n / 10);
      assert ValueOf(DigitOf(n % 10)) == n % 10;
    } else {
      assert Decimal(n)[..0] == "";
    }
  }

  /** A string of digits without leading zeroes is the decimal of its number. */
  lemma {:induction false} DecimalNumber(s: string)
    requires s != "" && AllDigits(s) && (|s| > 1 ==> s[0] != '0')
    ensures Decimal(Number(s)) == s
    decreases |s|
  {
    var last := s[|s| - 1];
    assert DigitOf(ValueOf(last)) == last;
    if |s| == 1 {
      assert s[..0] == "" && s == [last];
    } else {
      var front := s[..|s| - 1];
      DecimalNumber(front);
      NumberPositive(front);
      var n, d := Number(front), ValueOf(last);
      assert (n * 10 + d) / 10 == n && (n * 10 + d) % 10 == d;
      assert Decimal(n * 10 + d) == Decimal(n) + [DigitOf(d)];
      assert s == front + [last];
    }
  }

  lemma {:induction false} NumberPositive(s: string)
    requires s != "" && AllDigits(s) && s[0] != '0'
    ensures Number(s) > 0
    decreases |s|
  {
    if |s| > 1 {
      NumberPositive(s[..|s| - 1]);
    }
  }
}
