/**
 The emitter's output buffer and the loop that writes a double-quoted scalar through it. A
 handler takes the full buffers and may fail; as long as it does not, exactly the text of the
 scalar has been written.
 */
module QuotedWriter {
  import opened Wrappers
  import opened Utf8
  import opened QuotedText

  const OUTPUT_BUFFER_SIZE := 128

  class Writer {
    const buffer: array<Byte>
    const unicode: bool
    const bestWidth: int
    const lineBreak: LineBreak
    var bufferPos: nat
    var column: nat
    var indent: int
    var whitespace: bool
    var indention: bool
    /** What the handler has taken. */
    ghost var sent: seq<Byte>

    constructor (unicode: bool, bestWidth: int, lineBreak: LineBreak, indent: int)
      ensures Valid() && Output() == [] && fresh(buffer) && this.indent == indent
      ensures this.unicode == unicode && this.bestWidth == bestWidth && this.lineBreak == lineBreak
    {
      this.unicode, this.bestWidth, this.lineBreak, this.indent := unicode, bestWidth, lineBreak, indent;
      buffer := new Byte[OUTPUT_BUFFER_SIZE](_ => 0);
      bufferPos, column, whitespace, indention, sent := 0, 0, true, true, [];
    }

    /** Room is left for one more character of four octets. */
    ghost predicate Valid()
      reads this
    {
      buffer.Length == OUTPUT_BUFFER_SIZE && bufferPos <= 126
    }

    ghost function Output(): seq<Byte>
      requires Valid()
      reads this, buffer
    {
      sent + buffer[..bufferPos]
    }

    function StyleOf(allowBreaks: bool): Style
      reads this
    {
      Style(unicode, allowBreaks, bestWidth, if indent < 0 then 0 else indent, lineBreak)
    }

    method Flush() returns (ok: bool)
      requires Valid()
      modifies `bufferPos, `sent
      ensures Valid() && (ok ==> Output() == old(Output()))
      ensures ok ==> (old(bufferPos) <= 122 ==> bufferPos <= 122) && (old(bufferPos) > 122 ==> bufferPos == 0)
    {
      if bufferPos == 0 { return true; }
      ok := *;
      if ok {
        sent := sent + buffer[..bufferPos];
        bufferPos := 0;
      }
    }

    /** Make room for a character. */
    method Reserve() returns (ok: bool)
      requires Valid()
      modifies `bufferPos, `sent
      ensures Valid() && (ok ==> Output() == old(Output()) && bufferPos <= 122)
    {
      ok := true;
      if bufferPos + 5 >= buffer.Length {
        ok := Flush();
      }
    }

    method Put(b: Byte) returns (ok: bool)
      requires Valid()
      modifies `bufferPos, `sent, `column, buffer
      ensures Valid() && (ok ==> Output() == old(Output()) + [b] && column == old(column) + 1)
    {
      ok := Reserve();
      if ok {
        ghost var before := Output();
        buffer[bufferPos] := b;
        bufferPos, column := bufferPos + 1, column + 1;
        assert Output() == before + [b];
      }
    }

    method PutBreak() returns (ok: bool)
      requires Valid()
      modifies `bufferPos, `sent, `column, buffer
      ensures Valid() && (ok ==> Output() == old(Output()) + BreakOf(lineBreak) && column == 0)
    {
      ok := Reserve();
      if ok {
        ghost var before := Output();
        match lineBreak {
          case BreakCR =>
            buffer[bufferPos] := CR;
            bufferPos := bufferPos + 1;
          case BreakLF =>
            buffer[bufferPos] := LF;
            bufferPos := bufferPos + 1;
          case BreakCRLF =>
            buffer[bufferPos] := CR;
            buffer[bufferPos + 1] := LF;
            bufferPos := bufferPos + 2;
        }
        assert Output() == before + BreakOf(lineBreak);
        column := 0;
      }
    }

    /** Copy the character at `i`. */
    method Write(s: seq<Byte>, i: nat) returns (ok: bool, next: nat)
      requires Valid() && i < |s| && 1 <= Width(s[i]) <= |s| - i
      modifies `bufferPos, `sent, `column, buffer
      ensures Valid()
      ensures ok ==> next == i + Width(s[i]) && Output() == old(Output()) + s[i..next] && column == old(column) + 1
    {
      next := i;
      ok := Reserve();
      if ok {
        ghost var prefix := buffer[..bufferPos];
        var p, w := bufferPos, Width(s[i]);
        if w >= 4 { buffer[p + 3] := s[i + 3]; }
        if w >= 3 { buffer[p + 2] := s[i + 2]; }
        if w >= 2 { buffer[p + 1] := s[i + 1]; }
        buffer[p] := s[i];
        column, bufferPos, next := column + 1, bufferPos + w, i + w;
        assert buffer[..p] == prefix;
        Appended(buffer[..], p, prefix, s[i..next]);
        Regroup(sent, prefix, s[i..next]);
      }
    }

    /** Start a new line, unless already at its indentation, and indent it. */
    method WriteIndent() returns (ok: bool)
      requires Valid()
      modifies `bufferPos, `sent, `column, `whitespace, `indention, buffer
      ensures Valid()
      ensures var target := if indent < 0 then 0 else indent;
              var breaks := !old(indention) || old(column) > target || (old(column) == target && !old(whitespace));
              ok ==> column == target && whitespace && indention &&
                     Output() == old(Output()) +
                                 if breaks then BreakOf(lineBreak) + Spaces(target) else Spaces(target - old(column))
    {
      var target := if indent < 0 then 0 else indent;
      ghost var before := Output();
      ghost var breaks := !indention || column > target || (column == target && !whitespace);
      if !indention || column > target || (column == target && !whitespace) {
        ok := PutBreak();
        if !ok { return; }
      }
      ghost var start, from := Output(), column;
      while column < target
        invariant Valid() && from <= column <= target && (breaks ==> from == 0)
        invariant Output() == start + Spaces(column - from)
      {
        ghost var previous := Output();
        ok := Put(SPACE);
        if !ok { return; }
        assert Spaces(column - from) == Spaces(column - from - 1) + [SPACE];
      }
      assert breaks ==> start + Spaces(column - from) == before + (BreakOf(lineBreak) + Spaces(target));
      whitespace, indention := true, true;
      ok := true;
    }

    /** A one-octet indicator, behind a space if one is needed. */
    method WriteIndicator(indicator: Byte, needWhitespace: bool, isWhitespace: bool, isIndention: bool)
      returns (ok: bool)
      requires Valid() && Width(indicator) == 1
      modifies `bufferPos, `sent, `column, `whitespace, `indention, buffer
      ensures Valid()
      ensures ok ==> whitespace == isWhitespace && indention == (old(indention) && isIndention)
      ensures var space := if needWhitespace && !old(whitespace) then [SPACE] else [];
              ok ==> Output() == old(Output()) + (space + [indicator]) && column == old(column) + |space| + 1
    {
      ghost var before, space := Output(), [];
      if needWhitespace && !whitespace {
        ok := Put(SPACE);
        if !ok { return; }
        space := [SPACE];
      }
      var next;
      ok, next := Write([indicator], 0);
      if !ok { return; }
      assert (before + space) + [indicator][0..next] == before + (space + [indicator]);
      whitespace, indention := isWhitespace, indention && isIndention;
    }

    /** The last `n` hexadecimal digits of a number, highest first. */
    method PutHex(v: nat, n: nat) returns (ok: bool)
      requires Valid()
      modifies `bufferPos, `sent, `column, buffer
      ensures Valid() && (ok ==> Output() == old(Output()) + Hex(v, n) && column == old(column) + n)
    {
      hide Hex, Shift;
      ok := true;
      var k := n;
      ghost var before := Output();
      NoShift(v);
      while ok && k > 0
        invariant Valid() && 0 <= k <= n
        invariant ok ==> Output() == before + Hex(Shift(v, k), n - k) && column == old(column) + n - k
      {
        k := k - 1;
        HexStep(v, k, n - k - 1);
        var digit := HexDigit(Shift(v, k) % 16);
        ok := Put(digit);
        assert before + Hex(Shift(v, k + 1), n - k - 1) + [digit] == before + Hex(Shift(v, k), n - k);
      }
    }

    /** A backslash and the escape for the character. */
    method PutEscape(c: CodePoint) returns (ok: bool)
      requires Valid()
      modifies `bufferPos, `sent, `column, buffer
      ensures Valid()
      ensures ok ==> Output() == old(Output()) + ([BACKSLASH] + EscapeOf(c))
      ensures ok ==> column == old(column) + 1 + |EscapeOf(c)|
    {
      hide EscapeLetter, Hex;
      ghost var before := Output();
      ok := Put(BACKSLASH);
      if !ok { return; }
      match EscapeLetter(c) {
        case Some(e) =>
          ok := Put(e);
          assert before + [BACKSLASH] + [e] == before + ([BACKSLASH] + [e]);
        case None =>
          var letter, w: nat := Ascii('U'), 8;
          if c <= 0xFF {
            letter, w := Ascii('x'), 2;
          } else if c <= 0xFFFF {
            letter, w := Ascii('u'), 4;
          }
          ok := Put(letter);
          if !ok { return; }
          ok := PutHex(c, w);
          assert before + [BACKSLASH] + [letter] + Hex(c, w) == before + ([BACKSLASH] + ([letter] + Hex(c, w)));
      }
    }

    /** The loop state at character `k`: what is written and what is left add up to the whole. */
    ghost predicate Midway(st: Style, cs: seq<CodePoint>, k: nat, spaces: bool, before: seq<Byte>, whole: seq<Byte>)
      requires Valid()
      reads this, buffer
    {
      && k <= |cs| && st.indent == indent
      && Output() + Written(st, IsBom(EncodeAll(cs)), cs[k..], k == 0, spaces, column) == before + whole
      && (indention ==> column >= indent && (spaces || column > indent))
    }

    /** One character of the value. */
    method WriteChar(value: seq<Byte>, i: nat, allowBreaks: bool, spaces: bool, ghost cs: seq<CodePoint>, ghost k: nat,
                     ghost before: seq<Byte>, ghost whole: seq<Byte>) returns (ok: bool, next: nat, spaces': bool)
      requires Valid() && indent >= 0 && value == EncodeAll(cs) && i < |value| && k < |cs|
      requires value[i..] == EncodeAll(cs[k..]) && (i == 0 <==> k == 0)
      requires Midway(StyleOf(allowBreaks), cs, k, spaces, before, whole)
      modifies `bufferPos, `sent, `column, `whitespace, `indention, buffer
      ensures Valid()
      ensures ok ==> i < next <= |value| && value[next..] == EncodeAll(cs[k + 1..])
      ensures ok ==> Midway(StyleOf(allowBreaks), cs, k + 1, spaces', before, whole)
    {
      hide EscapeOf, Encode, Written, Width, IsPrintable, Escaped;
      var st := StyleOf(allowBreaks);
      ghost var bom := IsBom(EncodeAll(cs));
      ghost var c, tail := cs[k], EncodeAll(cs[k + 1..]);
      assert cs[k..][1..] == cs[k + 1..];
      OctetsAt(value, i, c, tail);
      if Escaped(st, IsBom(value), value[i..]) {
        WrittenEscaped(st, bom, cs[k..], k == 0, spaces, column);
        var w, v := DecodeAt(value, i, c, tail);
        next := i + w;
        ghost var out := Output();
        ghost var rest := Written(st, bom, cs[k + 1..], false, false, column + 1 + |EscapeOf(c)|);
        ok := PutEscape(v);
        spaces' := false;
        Regroup(out, [BACKSLASH] + EscapeOf(c), rest);
      } else {
        ok, next, spaces' := WriteUnescaped(value, i, allowBreaks, spaces, cs, k, before, whole);
      }
    }

    /** A space, which may become a new line, or a character as it is. */
    method WriteUnescaped(value: seq<Byte>, i: nat, allowBreaks: bool, spaces: bool, ghost cs: seq<CodePoint>,
                          ghost k: nat, ghost before: seq<Byte>, ghost whole: seq<Byte>)
      returns (ok: bool, next: nat, spaces': bool)
      requires Valid() && indent >= 0 && value == EncodeAll(cs) && i < |value| && k < |cs|
      requires value[i..] == EncodeAll(cs[k..]) && (i == 0 <==> k == 0)
      requires Midway(StyleOf(allowBreaks), cs, k, spaces, before, whole)
      requires !Escaped(StyleOf(allowBreaks), IsBom(value), value[i..])
      modifies `bufferPos, `sent, `column, `whitespace, `indention, buffer
      ensures Valid()
      ensures ok ==> i < next <= |value| && value[next..] == EncodeAll(cs[k + 1..])
      ensures ok ==> Midway(StyleOf(allowBreaks), cs, k + 1, spaces', before, whole)
    {
      hide EscapeOf, Encode, Written, Width, Escaped, FoldOf, EncodeAll, IsBom;
      ghost var c, tail := cs[k], EncodeAll(cs[k + 1..]);
      EncodeFirst(cs, k);
      OctetsAt(value, i, c, tail);
      SpaceOctet(c);
      LastOctet(cs[k..]);
      assert value[i] == Encode(c)[0];
      next, spaces' := i, value[i] == SPACE;
      if value[i] == SPACE && allowBreaks && !spaces && column > bestWidth && i > 0 && i < |value| - 1 {
        NextOctet(value, i, cs, k);
        ok := Fold(value[i + 1] == SPACE, allowBreaks, cs, k, before, whole);
        next := i + 1;
      } else {
        ghost var st, bom, out, col := StyleOf(allowBreaks), IsBom(EncodeAll(cs)), Output(), column;
        WrittenPlain(st, bom, cs[k..], k == 0, spaces, col);
        ok, next := Write(value, i);
        assert cs[k..][1..] == cs[k + 1..];
        Regroup(out, Encode(c), Written(st, bom, cs[k + 1..], false, spaces', col + 1));
      }
    }

    /** A new line in place of a space. */
    method Fold(spaceNext: bool, allowBreaks: bool, ghost cs: seq<CodePoint>, ghost k: nat,
                ghost before: seq<Byte>, ghost whole: seq<Byte>) returns (ok: bool)
      requires Valid() && indent >= 0 && 0 < k < |cs| - 1 && cs[k] == SPACE && (spaceNext <==> cs[k + 1] == SPACE)
      requires Midway(StyleOf(allowBreaks), cs, k, false, before, whole) && allowBreaks && column > bestWidth
      requires !Escaped(StyleOf(allowBreaks), IsBom(EncodeAll(cs)), EncodeAll(cs[k..]))
      modifies `bufferPos, `sent, `column, `whitespace, `indention, buffer
      ensures Valid() && (ok ==> Midway(StyleOf(allowBreaks), cs, k + 1, true, before, whole))
    {
      hide EscapeOf, Encode, Written, Escaped, FoldOf, EncodeAll, IsBom;
      ghost var st, bom, out, col := StyleOf(allowBreaks), IsBom(EncodeAll(cs)), Output(), column;
      WrittenFold(st, bom, cs[k..], false, false, col);
      assert cs[k..][1..] == cs[k + 1..];
      ok := WriteIndent();
      if !ok { return; }
      if spaceNext {
        ok := Put(BACKSLASH);
        if !ok { return; }
      }
      FoldParts(st, cs[k + 1], out);
      Regroup(out, FoldOf(st, cs[k + 1]), Written(st, bom, cs[k + 1..], false, true, column));
    }

    /**
     Write a value as a double-quoted scalar. Whatever the width of the lines, and wherever the
     buffer fills up, the text of the scalar is written, unless the handler fails.
     */
    method WriteDoubleQuoted(value: seq<Byte>, allowBreaks: bool, ghost cs: seq<CodePoint>) returns (ok: bool)
      requires Valid() && indent >= 1 && DecodeAll(value) == Some(cs)
      modifies `bufferPos, `sent, `column, `whitespace, `indention, buffer
      ensures Valid()
      ensures var space := if old(whitespace) then [] else [SPACE];
              var text := Quoted(old(StyleOf(allowBreaks)), cs, old(column) + |space| + 1);
              ok ==> Output() == old(Output()) + (space + text)
    {
      hide EscapeOf, Encode, Written, EncodeAll, DecodeAll, IsBom;
      ghost var first := Output();
      ghost var space := if whitespace then [] else [SPACE];
      ok := WriteIndicator(QUOTE, true, false, false);
      if !ok { return; }
      ghost var body := Written(StyleOf(allowBreaks), IsBom(value), cs, true, false, column);
      ok := WriteBody(value, allowBreaks, cs);
      if !ok { return; }
      ok := WriteIndicator(QUOTE, false, false, false);
      if !ok { return; }
      whitespace, indention := false, false;
      Assemble(first, space, body);
    }

    /** Everything between the quotes. */
    method WriteBody(value: seq<Byte>, allowBreaks: bool, ghost cs: seq<CodePoint>) returns (ok: bool)
      requires Valid() && indent >= 1 && value == EncodeAll(cs) && !indention
      modifies `bufferPos, `sent, `column, `whitespace, `indention, buffer
      ensures Valid()
      ensures ok ==>
                Output() == old(Output()) +
                    Written(old(StyleOf(allowBreaks)), IsBom(value), cs, true, false, old(column))
    {
      hide EscapeOf, Encode, Written, EncodeAll, IsBom;
      var i, spaces := 0, false;
      ghost var k, before := 0, Output();
      ghost var st := StyleOf(allowBreaks);
      ghost var whole := Written(st, IsBom(value), cs, true, false, column);
      assert cs[0..] == cs && value[0..] == value;
      while i < |value|
        invariant Valid() && i <= |value| && k <= |cs| && value[i..] == EncodeAll(cs[k..]) && (i == 0 <==> k == 0)
        invariant Midway(st, cs, k, spaces, before, whole)
        decreases |value| - i
      {
        NothingLeft(cs[k..]);
        ok, i, spaces := WriteChar(value, i, allowBreaks, spaces, cs, k, before, whole);
        if !ok { return; }
        k := k + 1;
      }
      NothingLeft(cs[k..]);
      WrittenNone(st, IsBom(value), k == 0, spaces, column);
      ok := true;
    }
  }

  // ---------------------------------------------------------------- steps of the writer

  lemma Regroup(a: seq<Byte>, b: seq<Byte>, c: seq<Byte>)
    ensures (a + b) + c == a + (b + c)
  {
  }

  lemma Assemble(first: seq<Byte>, space: seq<Byte>, body: seq<Byte>)
    ensures first + (space + [QUOTE]) + body + ([] + [QUOTE]) == first + (space + ([QUOTE] + body + [QUOTE]))
  {
  }

  lemma Appended(a: seq<Byte>, p: nat, prefix: seq<Byte>, part: seq<Byte>)
    requires p + |part| <= |a| && a[..p] == prefix && forall j | 0 <= j < |part| :: a[p + j] == part[j]
    ensures a[..p + |part|] == prefix + part
  {
  }

  lemma WrittenNone(st: Style, bom: bool, first: bool, spaces: bool, col: int)
    ensures Written(st, bom, [], first, spaces, col) == []
  {
  }

  lemma WrittenEscaped(st: Style, bom: bool, cs: seq<CodePoint>, first: bool, spaces: bool, col: int)
    requires cs != [] && Escaped(st, bom, EncodeAll(cs))
    ensures Written(st, bom, cs, first, spaces, col) ==
            ([BACKSLASH] + EscapeOf(cs[0])) + Written(st, bom, cs[1..], false, false, col + 1 + |EscapeOf(cs[0])|)
  {
  }

  lemma WrittenPlain(st: Style, bom: bool, cs: seq<CodePoint>, first: bool, spaces: bool, col: int)
    requires cs != [] && !Escaped(st, bom, EncodeAll(cs)) && !(cs[0] == SPACE && Folds(st, cs, first, spaces, col))
    ensures Written(st, bom, cs, first, spaces, col) ==
              Encode(cs[0]) + Written(st, bom, cs[1..], false, cs[0] == SPACE, col + 1)
  {
  }

  lemma WrittenFold(st: Style, bom: bool, cs: seq<CodePoint>, first: bool, spaces: bool, col: int)
    requires cs != [] && !Escaped(st, bom, EncodeAll(cs)) && cs[0] == SPACE && Folds(st, cs, first, spaces, col)
    ensures |cs| > 1
    ensures Written(st, bom, cs, first, spaces, col) ==
            FoldOf(st, cs[1]) + Written(st, bom, cs[1..], false, true, st.indent + if cs[1] == SPACE then 1 else 0)
  {
  }

  lemma FoldParts(st: Style, next: CodePoint, out: seq<Byte>)
    ensures out + (BreakOf(st.lineBreak) + Spaces(st.indent)) + (if next == SPACE then [BACKSLASH] else []) ==
              out + FoldOf(st, next)
  {
  }

  lemma EncodeFirst(cs: seq<CodePoint>, k: nat)
    requires k < |cs|
    ensures EncodeAll(cs[k..]) == Encode(cs[k]) + EncodeAll(cs[k + 1..])
  {
  }

  /** Only the space begins with the octet of a space, and it has no other. */
  lemma SpaceOctet(c: CodePoint)
    ensures Encode(c)[0] == SPACE <==> c == SPACE
    ensures c == SPACE ==> |Encode(c)| == 1
  {
  }

  /** A one-octet character is the last one if there is no octet behind it. */
  lemma LastOctet(cs: seq<CodePoint>)
    requires cs != []
    ensures |cs| > 1 <==> |EncodeAll(cs)| > |Encode(cs[0])|
  {
  }

  lemma NothingLeft(cs: seq<CodePoint>)
    ensures EncodeAll(cs) == [] <==> cs == []
  {
  }

  lemma NextOctet(value: seq<Byte>, i: nat, cs: seq<CodePoint>, k: nat)
    requires k + 1 < |cs| && i < |value| && cs[k] == SPACE && value[i..] == EncodeAll(cs[k..])
    ensures i + 1 < |value| && (value[i + 1] == SPACE <==> cs[k + 1] == SPACE)
  {
  }

  /** Without the last `k` hexadecimal digits. */
  function Shift(v: nat, k: nat): nat {
    if k == 0 then v else Shift(v, k - 1) / 16
  }

  lemma NoShift(v: nat)
    ensures Shift(v, 0) == v
  {
  }

  lemma HexStep(v: nat, k: nat, m: nat)
    ensures Hex(Shift(v, k), m + 1) == Hex(Shift(v, k + 1), m) + [HexDigit(Shift(v, k) % 16)]
    ensures Hex(Shift(v, k), 0) == []
  {
  }

  /** The octets of the character at `i`. */
  lemma OctetsAt(s: seq<Byte>, i: nat, c: CodePoint, tail: seq<Byte>)
    requires i <= |s| && s[i..] == Encode(c) + tail
    ensures i + |Encode(c)| <= |s| && s[i..i + |Encode(c)|] == Encode(c) && s[i + |Encode(c)|..] == tail
    ensures Width(s[i]) == |Encode(c)|
  {
  }

  /** The character at `i`, from its octets. */
  method DecodeAt(s: seq<Byte>, i: nat, ghost c: CodePoint, ghost tail: seq<Byte>) returns (w: nat, v: CodePoint)
    requires i <= |s| && s[i..] == Encode(c) + tail
    ensures i < |s| && w == Width(s[i]) == |Encode(c)| && v == c
  {
    hide Encode, Width, LeadBits;
    EncodeParts(c);
    OctetsAt(s, i, c, tail);
    ghost var e := Encode(c);
    w := Width(s[i]);
    assert s[i] == e[0];
    var value: nat := LeadBits(s[i]);
    var k := 1;
    while k < w
      invariant 1 <= k <= w && Accumulate(value, e[k..]) == c
    {
      assert s[i + k] == s[i..i + w][k] == e[k];
      assert e[k..][0] == e[k] && e[k..][1..] == e[k + 1..];
      value := value * 0x40 + s[i + k] % 0x40;
      k := k + 1;
    }
    v := value;
  }
}
