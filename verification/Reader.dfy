/**
 The reader: a raw buffer that a handler fills as it likes, and a buffer of characters for the
 scanner. However the stream is cut into pieces, the scanner gets the decoded stream and one NUL
 behind it, or an error exactly when the stream does not decode.
 */
module Reader {
  import opened Wrappers
  import opened Utf8
  import opened Decoding

  const RAW_SIZE := 512
  const BUFFER_SIZE := 1536
  /** The most characters that a caller may ask for at a time. */
  const MAX_LENGTH := 192

  lemma {:induction false} EncodeAllLength(cs: seq<CodePoint>)
    ensures |cs| <= |EncodeAll(cs)| <= 4 * |cs|
  {
    if cs != [] { EncodeAllLength(cs[1..]); }
  }

  class Buffers {
    const raw: array<Byte>
    const buffer: array<Byte>
    var rawPos: nat
    var rawLen: nat
    var bufferPos: nat
    var bufferLen: nat
    var unread: nat
    var eof: bool
    var encoding: Option<Encoding>
    var failed: bool
    var inputError: bool

    /** What the handler still has of the stream. */
    var pending: seq<Byte>
    ghost const source: seq<Byte>
    /** The characters decoded so far, how many of them the scanner has left behind, and whether the NUL is there. */
    ghost var decoded: seq<CodePoint>
    ghost var skipped: nat
    ghost var ended: bool

    constructor (source: seq<Byte>)
      ensures Valid() && this.source == source && !failed && Text() == [] && skipped == 0
      ensures fresh(raw) && fresh(buffer)
    {
      raw, buffer := new Byte[RAW_SIZE](_ => 0), new Byte[BUFFER_SIZE](_ => 0);
      rawPos, rawLen, bufferPos, bufferLen, unread := 0, 0, 0, 0, 0;
      eof, encoding, failed, inputError := false, None, false, false;
      this.source, pending, decoded, skipped, ended := source, source, [], 0, false;
      new;
      assert raw[0..0] + source == source;
    }

    /** All that the scanner gets to see. */
    ghost function Text(): seq<CodePoint>
      reads this
    {
      decoded + if ended then [0] else []
    }

    ghost function Unread(): seq<Byte>
      requires rawPos <= rawLen <= raw.Length
      reads this, raw
    {
      raw[rawPos..rawLen] + pending
    }

    ghost predicate Sizes()
      reads this
    {
      && raw != buffer && raw.Length == RAW_SIZE && buffer.Length == BUFFER_SIZE
      && rawPos <= rawLen <= RAW_SIZE && bufferPos <= bufferLen <= BUFFER_SIZE
      && skipped <= |Text()| && unread == |Text()| - skipped
    }

    /** The buffer holds the characters not left behind. */
    ghost predicate Holding()
      requires Sizes()
      reads this, buffer
    {
      buffer[bufferPos..bufferLen] == EncodeAll(Text()[skipped..])
    }

    /** What is decoded and what is still to come make up the stream. */
    ghost predicate OnTrack()
      requires Sizes()
      reads this, raw
    {
      && (eof ==> pending == [])
      && match encoding
         case None => source == Unread() && decoded == []
         case Some(e) => Transcode(source) == Ahead(decoded, Decode(e, Unread()))
    }

    ghost predicate Valid()
      reads this, raw, buffer
    {
      && Sizes() && Holding()
      && (!failed ==> OnTrack() && (ended <==> eof && rawPos == rawLen) && (ended ==> encoding.Some?))
      && (failed && !inputError ==> Transcode(source) == None)
      && (inputError ==> failed)
    }

    /** The scanner leaves a character behind. */
    method Skip()
      requires Valid() && unread > 0
      modifies `bufferPos, `unread, `skipped
      ensures Valid() && skipped == old(skipped) + 1
    {
      ghost var cs := Text()[skipped..];
      EncodeParts(cs[0]);
      var w := Width(buffer[bufferPos]);
      assert buffer[bufferPos] == buffer[bufferPos..bufferLen][0];
      assert buffer[bufferPos..bufferLen][w..] == buffer[bufferPos + w..bufferLen];
      assert (Encode(cs[0]) + EncodeAll(cs[1..]))[w..] == EncodeAll(cs[1..]);
      bufferPos, unread, skipped := bufferPos + w, unread - 1, skipped + 1;
      assert Text()[skipped..] == cs[1..];
    }

    /** The handler: some of what is left of the stream, at least one byte unless it is the end. It may fail. */
    method Handler(room: nat) returns (data: seq<Byte>, end: bool, error: bool)
      requires room > 0
      modifies `pending
      ensures |data| <= room && data + pending == old(pending)
      ensures (end ==> pending == []) && (data == [] ==> end)
    {
      var k: int := *;
      end, error := *, *;
      if k < 0 { k := 0; }
      if k > room { k := room; }
      if k > |pending| { k := |pending|; }
      if k == 0 && pending != [] { k := 1; }
      data, pending := pending[..k], pending[k..];
      end := pending == [] && (end || data == []);
    }

    /** Move what is left in the raw buffer to its front and fill up behind it. */
    method UpdateRaw()
      requires Sizes() && Holding() && OnTrack() && !failed && !inputError && !ended
      modifies raw, `rawPos, `rawLen, `pending, `eof, `failed, `inputError
      ensures Sizes() && Holding() && failed == inputError
      ensures !failed ==> OnTrack() && Unread() == old(Unread()) && |pending| <= old(|pending|)
      ensures !failed ==> eof || |pending| < old(|pending|) || rawLen - rawPos == RAW_SIZE
      ensures !failed && old(eof) ==> eof && rawPos == old(rawPos) && rawLen == old(rawLen)
      ensures !failed && |pending| == old(|pending|) ==> rawLen - rawPos == old(rawLen - rawPos)
    {
      hide Decode, Transcode, EncodeAll, Ahead;
      if rawPos == 0 && rawLen == raw.Length {
        return;
      }
      if eof {
        return;
      }
      ghost var left, before := raw[rawPos..rawLen], pending;
      Compact();
      var data, end, error := Handler(raw.Length - rawLen);
      Fill(data);
      assert raw[0..rawLen] == left + data;
      assert (left + data) + pending == left + before;
      if end {
        eof := true;
      } else if error {
        failed, inputError := true, true;
      }
    }

    method Compact()
      requires rawPos <= rawLen <= raw.Length
      modifies raw, `rawPos, `rawLen
      ensures rawPos == 0 && rawLen == old(rawLen - rawPos) && raw[..rawLen] == old(raw[rawPos..rawLen])
    {
      if rawPos > 0 && rawPos < rawLen {
        forall j | 0 <= j < rawLen - rawPos {
          raw[j] := raw[rawPos + j];
        }
      }
      rawLen, rawPos := rawLen - rawPos, 0;
    }

    /** The bytes of the handler, behind what is in the raw buffer. */
    method Fill(data: seq<Byte>)
      requires rawLen + |data| <= raw.Length
      modifies raw, `rawLen
      ensures rawLen == old(rawLen) + |data| && raw[..rawLen] == old(raw[..rawLen]) + data
    {
      forall j | 0 <= j < |data| {
        raw[rawLen + j] := data[j];
      }
      rawLen := rawLen + |data|;
    }

    /** Find out the encoding, from the first three bytes or all there are. */
    method DetermineEncoding()
      requires Sizes() && Holding() && OnTrack() && !failed && !inputError && !ended && encoding.None?
      modifies raw, `rawPos, `rawLen, `pending, `eof, `failed, `inputError, `encoding
      ensures Sizes() && Holding() && failed == inputError
      ensures !failed ==> OnTrack() && encoding.Some? && |pending| <= old(|pending|)
    {
      while !eof && rawLen - rawPos < 3
        invariant Sizes() && Holding() && failed == inputError && !failed && encoding.None? && OnTrack()
        invariant |pending| <= old(|pending|)
        decreases !eof, |pending|
      {
        UpdateRaw();
        if failed { return; }
      }
      Mark();
    }

    /** Step over the byte order mark. */
    method Mark()
      requires Sizes() && Holding() && OnTrack() && encoding.None? && (eof || rawLen - rawPos >= 3)
      modifies `rawPos, `encoding
      ensures Sizes() && Holding() && OnTrack() && encoding.Some?
    {
      var s := raw[rawPos..rawLen];
      var (e, mark) := Detect(s);
      DetectStable(s, pending);
      assert source[mark..] == s[mark..] + pending;
      rawPos, encoding := rawPos + mark, Some(e);
      assert raw[rawPos..rawLen] == s[mark..];
      NoneAhead(Decode(e, Unread()));
    }

    /** Put a character behind those in the buffer. */
    method PutChar(c: CodePoint)
      requires Sizes() && Holding() && bufferLen + |Encode(c)| <= BUFFER_SIZE && !ended
      modifies buffer, `bufferLen, `unread, `decoded
      ensures Sizes() && Holding() && decoded == old(decoded) + [c] && bufferLen == old(bufferLen) + |Encode(c)|
    {
      hide Encode, EncodeAll;
      ghost var before := buffer[bufferPos..bufferLen];
      Store(Encode(c));
      ghost var rest := Text()[skipped..];
      unread, decoded := unread + 1, decoded + [c];
      assert Text()[skipped..] == rest + [c];
      EncodeAppend(rest, [c]);
      EncodeSingle(c);
      assert buffer[bufferPos..bufferLen] == before + Encode(c);
    }

    method Store(octets: seq<Byte>)
      requires bufferPos <= bufferLen && bufferLen + |octets| <= buffer.Length
      modifies buffer, `bufferLen
      ensures bufferLen == old(bufferLen) + |octets|
      ensures buffer[bufferPos..bufferLen] == old(buffer[bufferPos..bufferLen]) + octets
    {
      ghost var before := buffer[bufferPos..bufferLen];
      forall j | 0 <= j < |octets| {
        buffer[bufferLen + j] := octets[j];
      }
      bufferLen := bufferLen + |octets|;
      assert buffer[bufferPos..bufferLen] == before + octets;
    }

    /** The NUL behind the last character. */
    method PutNul()
      requires Sizes() && Holding() && OnTrack() && bufferLen < BUFFER_SIZE && !ended
      modifies buffer, `bufferLen, `unread, `ended
      ensures Sizes() && Holding() && OnTrack() && ended
    {
      hide EncodeAll, Transcode, Decode, Ahead;
      ghost var rest := Text()[skipped..];
      Store([0]);
      unread, ended := unread + 1, true;
      assert Text()[skipped..] == rest + [0];
      EncodeAppend(rest, [0]);
      EncodeSingle(0);
    }

    /** Decode what the raw buffer holds, up to an incomplete character. */
    method DecodeRaw()
      requires Sizes() && Holding() && OnTrack() && !failed && !inputError && !ended && encoding.Some?
      requires bufferLen <= 4 * (MAX_LENGTH - 1)
      modifies buffer, `bufferLen, `unread, `decoded, `rawPos, `failed
      ensures Sizes() && Holding() && (failed ==> Transcode(source) == None)
      ensures old(decoded) <= decoded && bufferLen < BUFFER_SIZE
      ensures !failed ==> OnTrack() && (eof ==> rawPos == rawLen)
      ensures !failed ==> old(rawPos) <= rawPos && (rawLen - old(rawPos) >= 4 ==> old(rawPos) < rawPos)
    {
      hide Encode, EncodeAll, Transcode, Next, Decode, Ahead;
      var e := encoding.value;
      while rawPos != rawLen
        invariant Sizes() && Holding() && OnTrack() && !failed
        invariant old(decoded) <= decoded
        invariant old(rawPos) <= rawPos && 2 * (bufferLen - old(bufferLen)) <= 3 * (rawPos - old(rawPos))
        decreases rawLen - rawPos
      {
        var s := raw[rawPos..rawLen];
        StepDecodes(e, s, pending, decoded);
        var step := Next(e, s);
        if step.Bad? {
          failed := true;
          return;
        }
        if step.Incomplete? {
          if eof {
            failed := true;
            assert s + pending == s;
            return;
          }
          break;
        }
        PutChar(step.c);
        rawPos := rawPos + step.width;
        assert raw[rawPos..rawLen] == s[step.width..];
      }
    }

    /** Move the unread characters to the front of the buffer. */
    method CompactBuffer()
      requires Sizes() && Holding() && OnTrack()
      modifies buffer, `bufferPos, `bufferLen
      ensures Sizes() && Holding() && OnTrack() && bufferPos == 0
    {
      hide EncodeAll, Transcode, Decode, Ahead;
      MoveDown();
      assert buffer[0..bufferLen] == old(buffer[bufferPos..bufferLen]);
    }

    method MoveDown()
      requires bufferPos <= bufferLen <= buffer.Length
      modifies buffer, `bufferPos, `bufferLen
      ensures bufferPos == 0 && bufferLen == old(bufferLen - bufferPos)
      ensures buffer[..bufferLen] == old(buffer[bufferPos..bufferLen])
    {
      if bufferPos > 0 && bufferPos < bufferLen {
        forall j | 0 <= j < bufferLen - bufferPos {
          buffer[j] := buffer[bufferPos + j];
        }
        bufferLen, bufferPos := bufferLen - bufferPos, 0;
      } else if bufferPos == bufferLen {
        bufferLen, bufferPos := 0, 0;
      }
    }

    /** Characters in the buffer take at most four octets each. */
    lemma Fits()
      requires Sizes() && Holding()
      ensures bufferLen - bufferPos <= 4 * unread
    {
      EncodeAllLength(Text()[skipped..]);
    }

    /**
     Make sure that the buffer has `length` characters, or all that are left and the NUL. No index
     leaves the buffers; without an input error, a failure means that the stream does not decode.
     */
    method UpdateBuffer(length: nat) returns (ok: bool)
      requires Valid() && !failed && length <= MAX_LENGTH
      modifies this, raw, buffer
      ensures Valid() && ok == !failed && (ok ==> unread >= length || ended)
      ensures skipped == old(skipped) && old(Text()) <= Text()
    {
      hide EncodeAll, Transcode, Decode, Ahead, Holding, OnTrack;
      if eof && rawPos == rawLen {
        return true;
      }
      if unread >= length {
        return true;
      }
      if encoding.None? {
        DetermineEncoding();
        if failed { return false; }
      }
      CompactBuffer();
      ok := FillBuffer(length);
    }

    method FillBuffer(length: nat) returns (ok: bool)
      requires Sizes() && Holding() && OnTrack() && !failed && !inputError && !ended && encoding.Some?
      requires bufferPos == 0 && unread < length <= MAX_LENGTH
      modifies raw, buffer, `rawPos, `rawLen, `bufferLen, `unread, `eof, `failed, `inputError, `pending, `decoded
      modifies `ended
      ensures Valid() && ok == !failed && (ok ==> unread >= length || ended)
      ensures old(Text()) <= Text()
    {
      hide EncodeAll, Transcode, Decode, Ahead, Holding, OnTrack;
      var first := true;
      while unread < length
        invariant Sizes() && Holding() && OnTrack() && !failed && !inputError && !ended && bufferPos == 0
        invariant old(decoded) <= decoded && (first ==> unread < length) && (!first ==> !eof)
        decreases |pending|, rawLen - rawPos, first
      {
        ghost var was, left := |pending|, rawLen - rawPos;
        if !first || rawPos == rawLen {
          UpdateRaw();
          if failed { return false; }
        }
        first := false;
        Fits();
        DecodeRaw();
        if failed { return false; }
        if eof {
          PutNul();
          return true;
        }
      }
      ok := true;
    }
  }

  /** One step of decoding the rest of a stream, seen from a part of it. */
  lemma StepDecodes(e: Encoding, s: seq<Byte>, more: seq<Byte>, before: seq<CodePoint>)
    requires s != []
    ensures Next(e, s).Bad? ==> Ahead(before, Decode(e, s + more)) == None
    ensures Next(e, s).Incomplete? ==> Ahead(before, Decode(e, s)) == None
    ensures Next(e, s).Char? ==>
              Ahead(before, Decode(e, s + more)) ==
                  Ahead(before + [Next(e, s).c], Decode(e, s[Next(e, s).width..] + more))
  {
    hide Next;
    if !Next(e, s).Incomplete? { NextStable(e, s, more); }
    if Next(e, s).Char? {
      var w := Next(e, s).width;
      assert (s + more)[w..] == s[w..] + more;
      AheadTwice(before, [Next(e, s).c], Decode(e, s[w..] + more));
    }
  }

  /** At the end, the scanner has seen the stream as it decodes, and a NUL. */
  lemma AtTheEnd(b: Buffers)
    requires b.Valid() && !b.failed && b.ended
    ensures Transcode(b.source) == Some(b.decoded) && b.Text() == b.decoded + [0]
  {
    assert b.Unread() == [];
    assert b.decoded + [] == b.decoded;
  }

  lemma NoneAhead(r: Option<seq<CodePoint>>)
    ensures Ahead([], r) == r
  {
    if r.Some? { assert [] + r.value == r.value; }
  }

  lemma EncodeSingle(c: CodePoint)
    ensures EncodeAll([c]) == Encode(c)
  {
  }
}
