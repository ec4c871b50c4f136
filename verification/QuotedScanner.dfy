/**
 The scanner's loop over a double-quoted scalar: an outer loop over the lines, one inner loop
 over words and one over blanks. It computes what the functions on the text say.
 */
module QuotedScanner {
  import opened Wrappers
  import opened Utf8
  import opened QuotedText
  import opened QuotedGrammar

  /** The buffer as the scanner sees it: a text, a position in it, and a column. */
  class Scanner {
    const text: seq<Byte>
    var pos: nat
    var column: nat

    constructor (text: seq<Byte>)
      ensures Valid() && this.text == text && pos == 0 && column == 0
    {
      this.text, pos, column := text, 0, 0;
    }

    ghost predicate Valid()
      reads this
    {
      pos <= |text|
    }

    function Rest(): seq<Byte>
      requires pos <= |text|
      reads this
    {
      text[pos..]
    }

    method Advance(n: nat)
      requires pos + n <= |text|
      modifies `pos
      ensures Valid() && Rest() == old(Rest())[n..]
    {
      assert text[pos..][n..] == text[pos + n..];
      pos := pos + n;
    }

    /** Skip `n` characters of one octet each. */
    method Skip(n: nat)
      requires pos + n <= |text|
      modifies this
      ensures Valid() && Rest() == old(Rest())[n..] && column == old(column) + n
    {
      Advance(n);
      column := column + n;
    }

    /** Read a line break, as it counts in a value. */
    method ReadLine() returns (value: seq<Byte>)
      requires Valid() && IsBreak(Rest())
      modifies this
      ensures Valid() && value == BreakValue(old(Rest())) && Rest() == old(Rest())[BreakLength(old(Rest()))..]
      ensures column == 0
    {
      value := BreakValue(Rest());
      Advance(BreakLength(Rest()));
      column := 0;
    }

    /** An escape sequence, from its backslash on. */
    method Escape(s: seq<Byte>, ghost whole: Scanned) returns (ok: bool, s': seq<Byte>)
      requires Valid() && At(Rest(), 0) == BACKSLASH && !IsBreak(Rest()[1..])
      requires Prepend(s, InWord(Rest(), column)) == whole
      modifies this
      ensures Valid() && |Rest()| <= old(|Rest()|) && (!ok ==> whole == ScanError)
      ensures ok ==> |Rest()| < old(|Rest()|) && Prepend(s', InWord(Rest(), column)) == whole
    {
      hide Unescape, IsBlankz, InBlanks, InWord, BreakLength, IsBreak, Width, Prepend;
      var t := Rest();
      var u := ScanEscape(t[1..]);
      WordAtEscape(t, column);
      ErrorStays(s);
      if u.BadEscape? { return false, s; }
      PrependTwice(s, u.value, InWord(t[1 + u.length..], column + 1 + u.length));
      s' := s + u.value;
      Skip(1 + u.length);
      ok := true;
    }

    /** A character as it is. */
    method Plain(s: seq<Byte>, ghost whole: Scanned) returns (ok: bool, s': seq<Byte>)
      requires Valid() && !IsBlankz(Rest()) && At(Rest(), 0) != BACKSLASH && At(Rest(), 0) != QUOTE
      requires Prepend(s, InWord(Rest(), column)) == whole
      modifies this
      ensures Valid() && |Rest()| <= old(|Rest()|) && (!ok ==> whole == ScanError)
      ensures ok ==> |Rest()| < old(|Rest()|) && Prepend(s', InWord(Rest(), column)) == whole
    {
      hide Unescape, IsBlankz, InBlanks, InWord, BreakLength, IsBreak, Width, Prepend;
      var t := Rest();
      NotNul(t);
      var w := Width(t[0]);
      WordAtPlain(t, column);
      ErrorStays(s);
      if w == 0 || w > |t| { return false, s; }
      PrependTwice(s, t[..w], InWord(t[w..], column + 1));
      s' := s + t[..w];
      Advance(w);
      column := column + 1;
      ok := true;
    }

    /** The word loop. It stops at a blank, a break, the end, the right quote, or behind an escaped line break. */
    method Words(s: seq<Byte>, ghost whole: Scanned) returns (ok: bool, s': seq<Byte>, leadingBlanks: bool)
      requires Valid() && At(Rest(), 0) != NUL && Prepend(s, InWord(Rest(), column)) == whole
      modifies this
      ensures Valid() && |Rest()| <= old(|Rest()|)
      ensures !ok ==> whole == ScanError
      ensures ok && leadingBlanks ==> |Rest()| < old(|Rest()|)
      ensures ok && leadingBlanks ==> Prepend(s', InBlanks(Rest(), column, true, [], [], [])) == whole
      ensures ok && !leadingBlanks ==> Prepend(s', InWord(Rest(), column)) == whole
      ensures ok && !leadingBlanks ==> IsBlankz(Rest()) || At(Rest(), 0) == QUOTE
      ensures ok && !leadingBlanks && At(Rest(), 0) == NUL ==> |Rest()| < old(|Rest()|)
    {
      hide Unescape, IsBlankz, InBlanks, InWord, BreakLength, IsBreak, Width, Prepend;
      ok, s', leadingBlanks := true, s, false;
      while !IsBlankz(Rest())
        invariant Valid() && |Rest()| <= old(|Rest()|)
        invariant Prepend(s', InWord(Rest(), column)) == whole
        invariant At(Rest(), 0) == NUL ==> |Rest()| < old(|Rest()|)
        decreases |Rest()|
      {
        NotNul(Rest());
        var t := Rest();
        if t[0] == QUOTE {
          return true, s', false;
        } else if t[0] == BACKSLASH && IsBreak(t[1..]) {
          WordAtBreak(t, column);
          Skip(1);
          Advance(BreakLength(t[1..]));
          column := 0;
          assert t[1..][BreakLength(t[1..])..] == t[1 + BreakLength(t[1..])..];
          return true, s', true;
        } else if t[0] == BACKSLASH {
          ok, s' := Escape(s', whole);
          if !ok { return; }
        } else {
          ok, s' := Plain(s', whole);
          if !ok { return; }
        }
      }
      ok := true;
    }

    /** The loop over blanks and breaks, and what they come to in the value. */
    method Blanks(s: seq<Byte>, leadingBlanks: bool, ghost whole: Scanned) returns (s': seq<Byte>)
      requires Valid() && Prepend(s, InBlanks(Rest(), column, leadingBlanks, [], [], [])) == whole
      modifies this
      ensures Valid() && Prepend(s', Text(Rest(), column)) == whole
      ensures |Rest()| <= old(|Rest()|) && (old(IsBlank(Rest()) || IsBreak(Rest())) ==> |Rest()| < old(|Rest()|))
    {
      hide Text, InWord, IsBreak, BreakLength, BreakValue, Join;
      var leading, whitespaces, leadingBreak, trailingBreaks: seq<Byte> := leadingBlanks, [], [], [];
      while IsBlank(Rest()) || IsBreak(Rest())
        invariant Valid() && |Rest()| <= old(|Rest()|)
        invariant old(IsBlank(Rest()) || IsBreak(Rest())) ==>
                    |Rest()| < old(|Rest()|) || IsBlank(Rest()) || IsBreak(Rest())
        invariant Prepend(s, InBlanks(Rest(), column, leading, whitespaces, leadingBreak, trailingBreaks)) == whole
        decreases |Rest()|
      {
        if IsBlank(Rest()) {
          if !leading {
            whitespaces := whitespaces + [Rest()[0]];
          }
          Skip(1);
        } else {
          ghost var t := Rest();
          BreakIsNotBlank(t);
          var line := ReadLine();
          if !leading {
            whitespaces, leadingBreak, leading := [], leadingBreak + line, true;
          } else {
            trailingBreaks := trailingBreaks + line;
          }
        }
      }
      var joined := Join(leading, whitespaces, leadingBreak, trailingBreaks);
      PrependTwice(s, joined, Text(Rest(), column));
      s' := s + joined;
    }

    /**
     Scan a double-quoted scalar from its left quote on. The result is the one of the functions:
     the value, and the position behind the right quote, or an error.
     */
    method ScanFlowScalar() returns (ok: bool, value: seq<Byte>)
      requires Valid() && At(Rest(), 0) == QUOTE
      modifies this
      ensures Valid()
      ensures Text(old(Rest())[1..], old(column) + 1) == if ok then Scanned(value, Rest()) else ScanError
      ensures ok <==> IsScalar(old(Rest())[1..], old(column) + 1)
      ensures ok ==> StandsFor(old(Rest())[1..], old(column) + 1, value, Rest())
    {
      hide InWord, InBlanks, DocumentIndicator, IsBreak, StandsFor, IsScalar;
      ghost var whole := Text(Rest()[1..], column + 1);
      AllExact(Rest()[1..], column + 1);
      Skip(1);
      value := [];
      PrependNothing(whole);
      while true
        invariant Valid() && Prepend(value, Text(Rest(), column)) == whole
        decreases |Rest()|
      {
        if column == 0 && DocumentIndicator(Rest()) {
          return false, value;
        }
        if At(Rest(), 0) == NUL {
          return false, value;
        }
        ghost var length := |Rest()|;
        var leadingBlanks;
        ok, value, leadingBlanks := Words(value, whole);
        if !ok { return; }
        if !leadingBlanks {
          AfterWord(Rest(), column);
          if At(Rest(), 0) == QUOTE {
            Skip(1);
            assert value + [] == value;
            return true, value;
          }
          if At(Rest(), 0) == NUL {
            // The blanks loop does nothing and the next turn reports the end of the stream.
            BlanksAtEnd(Rest(), column);
          }
        } else if At(Rest(), 0) == QUOTE {
          // A quote behind an escaped line break ends the scalar at once.
          QuoteAfterBreak(Rest(), column, value);
          Skip(1);
          return true, value;
        }
        value := Blanks(value, leadingBlanks, whole);
      }
    }
  }

  lemma AllExact(t: seq<Byte>, column: nat)
    ensures Text(t, column).Scanned? <==> IsScalar(t, column)
    ensures Text(t, column).Scanned? ==> StandsFor(t, column, Text(t, column).value, Text(t, column).rest)
  {
    hide StandsFor;
    if Text(t, column).Scanned? { TextExact(t, column, Text(t, column).value, Text(t, column).rest); }
    if v, rest :| StandsFor(t, column, v, rest) { TextExact(t, column, v, rest); }
  }

  /** The octets of a character, by the size of its number. */
  method Octets(value: CodePoint) returns (s: seq<Byte>)
    ensures s == Encode(value)
  {
    if value <= 0x7F {
      s := [value];
    } else if value <= 0x7FF {
      s := [0xC0 + value / 0x40];
      s := s + [0x80 + value % 0x40];
    } else if value <= 0xFFFF {
      s := [0xE0 + value / 0x1000];
      s := s + [0x80 + value / 0x40 % 0x40];
      s := s + [0x80 + value % 0x40];
    } else {
      s := [0xF0 + value / 0x40000];
      s := s + [0x80 + value / 0x1000 % 0x40];
      s := s + [0x80 + value / 0x40 % 0x40];
      s := s + [0x80 + value % 0x40];
    }
  }

  /** An escape sequence behind its backslash: a letter, or a letter and a number of hexadecimal digits. */
  method ScanEscape(t: seq<Byte>) returns (u: Unescaped)
    ensures u == Unescape(t)
  {
    hide LetterValue, Encode, HexValue, AsHex;
    if t == [] { return BadEscape; }
    var letter := LetterValue(t[0]);
    if letter.Some? { return Unescaped(letter.value, 1); }
    var codeLength := CodeLength(t[0]);
    if codeLength == 0 { return BadEscape; }
    var value, k := 0, 0;
    NoDigits();
    assert t[1..1] == [];
    while k < codeLength
      invariant k <= codeLength && 1 + k <= |t| && HexValue(t[1..1 + k]) == Some(value)
    {
      var digit := AsHex(At(t, 1 + k));
      if digit.None? {
        if |t| >= 1 + codeLength { NotHex(t[1..1 + codeLength], k); }
        return BadEscape;
      }
      NulIsNoDigit();
      OneMoreDigit(t[1..1 + k], t[1 + k]);
      assert t[1..1 + k] + [t[1 + k]] == t[1..1 + (k + 1)];
      value, k := value * 16 + digit.value, k + 1;
    }
    if IsSurrogate(value) || value > 0x10FFFF { return BadEscape; }
    var octets := Octets(value);
    u := Unescaped(octets, 1 + codeLength);
  }

  lemma NoDigits()
    ensures HexValue([]) == Some(0)
  {
  }

  lemma NulIsNoDigit()
    ensures AsHex(NUL).None?
  {
  }

  lemma OneMoreDigit(s: seq<Byte>, b: Byte)
    requires HexValue(s).Some? && AsHex(b).Some?
    ensures HexValue(s + [b]) == Some(HexValue(s).value * 16 + AsHex(b).value)
  {
    assert (s + [b])[..|s|] == s;
  }

  lemma {:induction false} NotHex(s: seq<Byte>, k: nat)
    requires k < |s| && AsHex(s[k]).None?
    ensures HexValue(s).None?
  {
    if k < |s| - 1 { NotHex(s[..|s| - 1], k); }
  }

  lemma ErrorStays(s: seq<Byte>)
    ensures Prepend(s, ScanError) == ScanError
  {
  }

  lemma PrependNothing(r: Scanned)
    ensures Prepend([], r) == r
  {
  }

  lemma BreakIsNotBlank(t: seq<Byte>)
    requires IsBreak(t)
    ensures !IsBlank(t)
  {
  }

  /** Where the word loop stops: at the quote, at the end, or at blanks. */
  lemma AfterWord(t: seq<Byte>, column: nat)
    requires IsBlankz(t) || At(t, 0) == QUOTE
    ensures At(t, 0) == QUOTE ==> InWord(t, column) == Scanned([], t[1..])
    ensures At(t, 0) == NUL ==> InWord(t, column) == ScanError
    ensures At(t, 0) != QUOTE && At(t, 0) != NUL ==> InWord(t, column) == InBlanks(t, column, false, [], [], [])
    ensures At(t, 0) != QUOTE && At(t, 0) != NUL ==> IsBlank(t) || IsBreak(t)
  {
  }

  lemma QuoteAfterBreak(t: seq<Byte>, column: nat, value: seq<Byte>)
    requires At(t, 0) == QUOTE
    ensures Prepend(value, InBlanks(t, column, true, [], [], [])) == Scanned(value, t[1..])
  {
    hide DocumentIndicator;
    assert InWord(t, column) == Scanned([], t[1..]);
    assert Text(t, column) == Scanned([], t[1..]) by { NoIndicator(t); }
    assert Join(true, [], [], []) == [];
    PrependNothing(Text(t, column));
    assert InBlanks(t, column, true, [], [], []) == Text(t, column);
    assert value + [] == value;
  }

  lemma NoIndicator(t: seq<Byte>)
    requires At(t, 0) == QUOTE
    ensures !DocumentIndicator(t)
  {
  }

  lemma BlanksAtEnd(t: seq<Byte>, column: nat)
    requires At(t, 0) == NUL
    ensures InBlanks(t, column, false, [], [], []) == ScanError
  {
  }

  lemma NotNul(t: seq<Byte>)
    requires !IsBlankz(t)
    ensures t != [] && t[0] != NUL
  {
  }

  lemma WordAtBreak(t: seq<Byte>, column: nat)
    requires t != [] && t[0] == BACKSLASH && IsBreak(t[1..])
    ensures InWord(t, column) == InBlanks(t[1 + BreakLength(t[1..])..], 0, true, [], [], [])
  {
  }

  lemma WordAtEscape(t: seq<Byte>, column: nat)
    requires t != [] && t[0] == BACKSLASH && !IsBreak(t[1..])
    ensures var u := Unescape(t[1..]);
            InWord(t, column) ==
            if u.BadEscape? then ScanError
            else Prepend(u.value, InWord(t[1 + u.length..], column + 1 + u.length))
  {
  }

  lemma WordAtPlain(t: seq<Byte>, column: nat)
    requires !IsBlankz(t) && t != [] && t[0] != BACKSLASH && t[0] != QUOTE
    ensures var w := Width(t[0]);
            InWord(t, column) == if w == 0 || w > |t| then ScanError else Prepend(t[..w], InWord(t[w..], column + 1))
  {
  }
}
