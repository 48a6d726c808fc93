/** What the chunked decoder promises: it inverts an encoder, and a cut-off encoding is an error. */
module ChunkedTheorems {
  import opened Options
  import opened Streams
  import opened Text
  import opened TextTheorems
  import opened Chunked

  /** A chunk as it is sent: its size line, with any extension, and its data. */
  datatype Sent = Sent(line: Bytes, data: Bytes)

  /** A size line the decoder reads as n: at most 1023 bytes, without CRLF. */
  predicate GoodLine(line: Bytes, n: nat) {
    |line| <= LINE_CAP - 1 && NoCrlf(line) && ValidUtf8(line) && ChunkSize(line) == Some(n)
  }

  predicate GoodChunk(c: Sent) {
    GoodLine(c.line, |c.data|) && 0 < |c.data| <= MAX_CHUNK_SIZE
  }

  function EncodeChunk(c: Sent): Bytes {
    c.line + CRLF + c.data + CRLF
  }

  /** The chunks and the line of the last chunk; a CRLF is still to follow. */
  function Encode(chunks: seq<Sent>, last: Bytes): Bytes {
    if chunks == [] then last + CRLF else EncodeChunk(chunks[0]) + Encode(chunks[1..], last)
  }

  function Payload(chunks: seq<Sent>): Bytes {
    if chunks == [] then [] else chunks[0].data + Payload(chunks[1..])
  }

  lemma LineTaken(line: Bytes, n: nat, rest: Bytes)
    requires GoodLine(line, n)
    ensures TakeLine(line + CRLF + rest) == Line(line, rest)
  {
    var input := line + CRLF + rest;
    FindCrlfAfter(line, rest);
    assert input[..|line|] == line && input[|line| + 2..] == rest;
  }

  lemma ChunkTaken(c: Sent, rest: Bytes, got: nat)
    requires GoodChunk(c) && got + |c.data| <= MAX_BODY_SIZE
    ensures TakeChunk(EncodeChunk(c) + rest, got) == Chunk(c.data, rest, got + |c.data|)
  {
    var after := c.data + CRLF + rest;
    assert EncodeChunk(c) + rest == c.line + CRLF + after;
    LineTaken(c.line, |c.data|, after);
    assert after[..|c.data|] == c.data;
    assert after[|c.data|..|c.data| + 2] == CRLF;
    assert after[|c.data| + 2..] == rest;
  }

  lemma LastTaken(last: Bytes, rest: Bytes, got: nat)
    requires GoodLine(last, 0)
    ensures Decode(last + CRLF + rest, got) == Done([], rest)
  {
    LineTaken(last, 0, rest);
  }

  lemma EncodeCons(chunks: seq<Sent>, last: Bytes, rest: Bytes)
    requires chunks != []
    ensures Encode(chunks, last) + rest == EncodeChunk(chunks[0]) + (Encode(chunks[1..], last) + rest)
    ensures Payload(chunks) == chunks[0].data + Payload(chunks[1..])
  {
  }

  /** Decoding an encoding, whatever follows it, gives the data that was encoded and leaves what
      follows. */
  lemma {:induction false} DecodeInvertsEncode(chunks: seq<Sent>, last: Bytes, rest: Bytes, got: nat)
    requires GoodLine(last, 0) && forall c | c in chunks :: GoodChunk(c)
    requires got + |Payload(chunks)| <= MAX_BODY_SIZE
    ensures Decode(Encode(chunks, last) + rest, got) == Done(Payload(chunks), rest)
    decreases chunks
  {
    if chunks == [] {
      LastTaken(last, rest, got);
    } else {
      EncodeCons(chunks, last, rest);
      var c, tail, total := chunks[0], Encode(chunks[1..], last) + rest, got + |chunks[0].data|;
      DecodeInvertsEncode(chunks[1..], last, rest, total);
      ChunkTaken(c, tail, got);
      DecodeUnfolds(Encode(chunks, last) + rest, got, c.data, tail, total);
    }
  }

  lemma LineSplits(input: Bytes, line: Bytes, rest: Bytes)
    requires TakeLine(input) == Line(line, rest)
    ensures input == line + CRLF + rest && NoCrlf(line) && |line| <= LINE_CAP - 1
  {
    var i := FindCrlf(input);
    assert input == input[..i] + CRLF + input[i + 2..];
    forall j | 0 <= j < i ensures !IsCrlf(line, j) {
      assert !IsCrlf(input, j);
    }
  }

  lemma ChunkSplits(input: Bytes, got: nat, data: Bytes, rest: Bytes, total: nat) returns (c: Sent)
    requires TakeChunk(input, got) == Chunk(data, rest, total)
    ensures GoodChunk(c) && c.data == data && input == EncodeChunk(c) + rest
  {
    var line, after := TakeLine(input).text, TakeLine(input).rest;
    LineSplits(input, line, after);
    c := Sent(line, data);
    var n := |data|;
    assert after == data + CRLF + rest by {
      assert after == after[..n] + after[n..n + 2] + after[n + 2..];
    }
    assert input == line + CRLF + (data + CRLF + rest);
  }

  /** Only encodings decode. */
  lemma {:induction false} DecodedWasEncoded(input: Bytes, got: nat) returns (chunks: seq<Sent>, last: Bytes)
    requires Decode(input, got).Done? && got <= MAX_BODY_SIZE
    ensures GoodLine(last, 0) && (forall c | c in chunks :: GoodChunk(c))
    ensures got + |Payload(chunks)| <= MAX_BODY_SIZE
    ensures input == Encode(chunks, last) + Decode(input, got).rest && Payload(chunks) == Decode(input, got).body
    decreases |input|
  {
    match TakeChunk(input, got)
    case Last(rest) =>
      chunks, last := [], TakeLine(input).text;
      LineSplits(input, last, rest);
    case Chunk(data, rest, total) =>
      DecodeUnfolds(input, got, data, rest, total);
      var c := ChunkSplits(input, got, data, rest, total);
      var more;
      more, last := DecodedWasEncoded(rest, total);
      chunks := [c] + more;
      assert chunks[1..] == more;
      EncodeCons(chunks, last, Decode(rest, total).rest);
  }

  /** What the decoder accepts is exactly the encodings within the limits, whatever follows them. */
  lemma DecodeExact(input: Bytes, body: Bytes, rest: Bytes)
    ensures Decode(input, 0) == Done(body, rest) <==>
            exists chunks: seq<Sent>, last: Bytes ::
              && GoodLine(last, 0) && (forall c | c in chunks :: GoodChunk(c))
              && body == Payload(chunks) && |body| <= MAX_BODY_SIZE
              && input == Encode(chunks, last) + rest
  {
    if Decode(input, 0) == Done(body, rest) {
      var chunks, last := DecodedWasEncoded(input, 0);
    }
    forall chunks: seq<Sent>, last: Bytes |
      && GoodLine(last, 0) && (forall c | c in chunks :: GoodChunk(c))
      && body == Payload(chunks) && |body| <= MAX_BODY_SIZE
      ensures input == Encode(chunks, last) + rest ==> Decode(input, 0) == Done(body, rest)
    {
      DecodeInvertsEncode(chunks, last, rest, 0);
    }
  }

  /** A line is good if what comes before an extension, trimmed, is the number. */
  lemma ExtendedLineIsGood(size: Bytes, extension: Bytes, n: nat)
    requires Clean(size) && (forall i | 0 <= i < |size| :: size[i] < 0x80 && size[i] != SEMICOLON)
    requires Clean(extension) && ValidUtf8(extension) && (extension == [] || extension[0] == SEMICOLON)
    requires |size| + |extension| <= LINE_CAP - 1 && ParseUnsigned(Trim(size), 16, USIZE_MAX) == Some(n)
    ensures GoodLine(size + extension, n)
  {
    var line := size + extension;
    assert Clean(line);
    assert forall i | 0 <= i < |line| :: !IsCrlf(line, i);
    AsciiIsValid(size);
    ValidConcat(size, extension);
    assert Find(line, SEMICOLON) == |size| by {
      if extension == [] {
        FindLacks(line, SEMICOLON);
      } else {
        FindAt(line, SEMICOLON, |size|);
      }
    }
    assert line[..|size|] == size;
  }

  /** The size lines a sender writes, hexadecimal digits and perhaps an extension, are good lines. */
  lemma HexLineIsGood(n: nat, extension: Bytes)
    requires n <= USIZE_MAX && (extension == [] || extension[0] == SEMICOLON)
    requires Clean(extension) && ValidUtf8(extension) && |ToDigits(n, 16)| + |extension| <= LINE_CAP - 1
    ensures GoodLine(ToDigits(n, 16) + extension, n)
  {
    var digits := ToDigits(n, 16);
    assert !IsSpace(digits[0]) && !IsSpace(digits[|digits| - 1]);
    assert Trim(digits) == digits;
    ParseRoundTrip(n, 16, USIZE_MAX);
    ExtendedLineIsGood(digits, extension, n);
  }

  /** So are all size lines whose digits, upper-case or lower-case and with any leading zeros, stand for n,
      with whitespace around them and an extension. */
  lemma SizeLineIsGood(before: Bytes, digits: Bytes, after: Bytes, extension: Bytes, n: nat)
    requires Means(digits, 16, n) && n <= USIZE_MAX
    requires AllSpace(before) && AllSpace(after) && Clean(before) && Clean(after)
    requires extension == [] || extension[0] == SEMICOLON
    requires Clean(extension) && ValidUtf8(extension)
    requires |before| + |digits| + |after| + |extension| <= 1023
    ensures GoodLine(before + digits + after + extension, n)
  {
    DigitsAreHex(digits, n);
    TrimExact(before, digits, after);
    NumberExact(digits, 16, USIZE_MAX, n);
    ExtendedLineIsGood(before + digits + after, extension, n);
  }

  /** The line has a hexadecimal number, perhaps after a plus sign, with whitespace around it and nothing else
      but an extension. */
  ghost predicate SaysSize(line: Bytes, before: Bytes, number: Bytes, after: Bytes, extension: Bytes, n: nat) {
    && line == before + number + after + extension
    && AllSpace(before) && AllSpace(after) && (extension == [] || extension[0] == 59)
    && (Means(number, 16, n) || (number != [] && number[0] == 43 && Means(number[1..], 16, n)))
  }

  lemma SaidSize(line: Bytes, before: Bytes, number: Bytes, after: Bytes, extension: Bytes, n: nat)
    requires SaysSize(line, before, number, after, extension, n)
    ensures ChunkSize(line) == if n <= USIZE_MAX then Some(n) else None
  {
    var size := before + number + after;
    var digits := if Means(number, 16, n) then number else number[1..];
    DigitsAreHex(digits, n);
    assert forall i | 0 <= i < |number| :: number[i] == 43 || number[i] in digits;
    assert Find(line, SEMICOLON) == |size| by {
      if extension == [] {
        FindLacks(line, SEMICOLON);
      } else {
        FindAt(line, SEMICOLON, |size|);
      }
    }
    assert line[..|size|] == size;
    TrimExact(before, number, after);
    NumberExact(number, 16, USIZE_MAX, n);
    assert ParseUnsigned(number, 16, USIZE_MAX).Some? ==> n <= USIZE_MAX by {
      if ParseUnsigned(number, 16, USIZE_MAX).Some? {
        NumberExact(number, 16, n, n);
      }
    }
  }

  /** For every line: it is read as the chunk size n if and only if it says so and n fits 64 bits. */
  lemma SizeLineExact(line: Bytes, n: nat)
    ensures ChunkSize(line) == Some(n) <==>
            n <= 0xFFFF_FFFF_FFFF_FFFF
            && exists before, number, after, extension :: SaysSize(line, before, number, after, extension, n)
  {
    if ChunkSize(line) == Some(n) {
      var i := Find(line, SEMICOLON);
      var before, after := SpaceAround(line[..i]);
      NumberExact(Trim(line[..i]), 16, USIZE_MAX, n);
      assert line == line[..i] + line[i..];
      assert SaysSize(line, before, Trim(line[..i]), after, line[i..], n);
    }
    forall before, number, after, extension | SaysSize(line, before, number, after, extension, n)
      ensures ChunkSize(line) == if n <= USIZE_MAX then Some(n) else None
    {
      SaidSize(line, before, number, after, extension, n);
    }
  }

  lemma DigitsAreHex(digits: Bytes, n: nat)
    requires Means(digits, 16, n)
    ensures digits != []
    ensures forall i | 0 <= i < |digits| ::
              48 <= digits[i] <= 57 || 65 <= digits[i] <= 70 || 97 <= digits[i] <= 102
  {
    var values :| values != [] && Spells(digits, values, 16) && Worth(values, 16) == n;
  }

  /** With the CRLF that ends the message, decoding leaves exactly what follows it; without, the first two
      bytes of whatever follows are lost. */
  lemma SuffixIsLeft(chunks: seq<Sent>, last: Bytes, suffix: Bytes)
    requires GoodLine(last, 0) && (forall c | c in chunks :: GoodChunk(c)) && |Payload(chunks)| <= MAX_BODY_SIZE
    ensures
      var whole := Decode(Encode(chunks, last) + (CRLF + suffix), 0);
      whole.Done? && whole.body == Payload(chunks) && AfterTrailer(whole.rest) == suffix
    ensures
      var bare := Decode(Encode(chunks, last) + suffix, 0);
      bare.Done? && AfterTrailer(bare.rest) == suffix[if |suffix| < 2 then |suffix| else 2..]
  {
    DecodeInvertsEncode(chunks, last, CRLF + suffix, 0);
    DecodeInvertsEncode(chunks, last, suffix, 0);
  }

  lemma {:induction false} ReportedAfter(chunks: seq<Sent>, defect: Bytes, got: nat)
    requires (forall c | c in chunks :: GoodChunk(c)) && got + |Payload(chunks)| <= MAX_BODY_SIZE
    requires TakeChunk(defect, got + |Payload(chunks)|).NoChunk?
    ensures Decode(EncodeAll(chunks) + defect, got) == Bad(TakeChunk(defect, got + |Payload(chunks)|).error)
    decreases chunks
  {
    if chunks == [] {
      assert EncodeAll(chunks) + defect == defect;
    } else {
      var c, tail, total := chunks[0], EncodeAll(chunks[1..]) + defect, got + |chunks[0].data|;
      assert EncodeAll(chunks) + defect == EncodeChunk(c) + tail;
      assert Payload(chunks) == c.data + Payload(chunks[1..]);
      ReportedAfter(chunks[1..], defect, total);
      ChunkTaken(c, tail, got);
      DecodeUnfolds(EncodeAll(chunks) + defect, got, c.data, tail, total);
    }
  }

  /** What is wrong with a chunk, `got` bytes of body already read: a line that is not UTF-8 or has no size,
      a chunk of more than 10 MiB or one that takes the body past 100 MiB, data that ends early, and data
      that is not followed by CRLF. */
  predicate Names(error: Option<HttpError>, line: Bytes, rest: Bytes, n: nat, got: nat) {
    && (!ValidUtf8(line) ==> error == Some(BadUtf8))
    && (ValidUtf8(line) && ChunkSize(line).None? ==> error == Some(BadChunkSize))
    && (ValidUtf8(line) && ChunkSize(line) == Some(n) && n > 0 ==>
          if n > 10485760 then error == Some(ChunkTooLarge)
          else if got + n > 104857600 then error == Some(BodyTooLarge)
          else if |rest| < n then error == Some(BodyEof)
          else if |rest| < n + 2 then error == Some(IoError)
          else rest[n..n + 2] != [13, 10] ==> error == Some(BadChunkEnd))
  }

  lemma TakenAsNamed(input: Bytes, line: Bytes, rest: Bytes, n: nat, got: nat)
    requires TakeLine(input) == Line(line, rest)
    ensures
      var t := TakeChunk(input, got);
      if t.NoChunk? then Names(Some(t.error), line, rest, n, got)
      else forall error :: Names(error, line, rest, n, got)
  {
  }

  function ErrorOf(d: Decoded): Option<HttpError> {
    if d.Bad? then Some(d.error) else None
  }

  /** After good chunks, what is wrong with the next one is what is reported. */
  lemma DefectIsReported(chunks: seq<Sent>, line: Bytes, rest: Bytes, n: nat)
    requires (forall c | c in chunks :: GoodChunk(c)) && |Payload(chunks)| <= MAX_BODY_SIZE
    requires NoCrlf(line) && |line| <= 1023
    ensures Names(ErrorOf(Decode(EncodeAll(chunks) + (line + [13, 10] + rest), 0)), line, rest, n, |Payload(chunks)|)
  {
    var defect, got := line + CRLF + rest, |Payload(chunks)|;
    FindCrlfAfter(line, rest);
    assert defect[..|line|] == line && defect[|line| + 2..] == rest;
    TakenAsNamed(defect, line, rest, n, got);
    if TakeChunk(defect, got).NoChunk? {
      ReportedAfter(chunks, defect, 0);
    }
  }

  /** After good chunks, a line without a CRLF in its first 1025 bytes is an error: too long if there are more
      than 1024 bytes, and cut off otherwise. */
  lemma EndlessLineIsReported(chunks: seq<Sent>, input: Bytes)
    requires (forall c | c in chunks :: GoodChunk(c)) && |Payload(chunks)| <= MAX_BODY_SIZE
    requires forall i | 0 <= i <= 1023 :: !IsCrlf(input, i)
    ensures Decode(EncodeAll(chunks) + input, 0) == Bad(if |input| > 1024 then ChunkLineTooLong else ChunkedEof)
  {
    FindCrlfNone(input);
    ReportedAfter(chunks, input, 0);
  }

  function EncodeAll(chunks: seq<Sent>): Bytes {
    if chunks == [] then [] else EncodeChunk(chunks[0]) + EncodeAll(chunks[1..])
  }

  // ---- Truncation -----------------------------------------------------------------------------

  lemma LineExtends(input: Bytes, more: Bytes)
    requires TakeLine(input).Line?
    ensures TakeLine(input + more) == Line(TakeLine(input).text, TakeLine(input).rest + more)
  {
    var i := FindCrlf(input);
    FindCrlfExtends(input, more);
    assert (input + more)[..i] == input[..i];
    assert (input + more)[i + 2..] == input[i + 2..] + more;
  }

  lemma ChunkExtends(input: Bytes, more: Bytes, got: nat)
    requires !TakeChunk(input, got).NoChunk?
    ensures TakeChunk(input + more, got) == TakeChunk(input, got).(rest := TakeChunk(input, got).rest + more)
  {
    LineExtends(input, more);
    var rest := TakeLine(input).rest;
    var size := ChunkSize(TakeLine(input).text).value;
    if size > 0 {
      assert (rest + more)[..size] == rest[..size];
      assert (rest + more)[size..size + 2] == rest[size..size + 2];
      assert (rest + more)[size + 2..] == rest[size + 2..] + more;
    }
  }

  /** For every input: if it decodes, so does every longer one, to the same body. */
  lemma {:induction false} DecodeExtends(input: Bytes, more: Bytes, got: nat)
    requires Decode(input, got).Done?
    ensures Decode(input + more, got) == Done(Decode(input, got).body, Decode(input, got).rest + more)
    decreases |input|
  {
    ChunkExtends(input, more, got);
    match TakeChunk(input, got)
    case Last(_) =>
    case Chunk(data, rest, total) =>
      DecodeUnfolds(input, got, data, rest, total);
      DecodeExtends(rest, more, total);
      DecodeUnfolds(input + more, got, data, rest + more, total);
  }

  /** A prefix of an encoding decodes exactly if it reaches the end of the last-chunk line; so a body
      that was cut short is never taken for a complete one. */
  lemma TruncationIsAnError(chunks: seq<Sent>, last: Bytes, rest: Bytes, n: nat)
    requires GoodLine(last, 0) && forall c | c in chunks :: GoodChunk(c)
    requires |Payload(chunks)| <= MAX_BODY_SIZE
    requires n <= |Encode(chunks, last) + rest|
    ensures
      var cut := Decode((Encode(chunks, last) + rest)[..n], 0);
      && (cut.Bad? <==> n < |Encode(chunks, last)|)
      && (cut.Done? ==> cut.body == Payload(chunks))
  {
    var whole, encoding := Encode(chunks, last) + rest, Encode(chunks, last);
    DecodeInvertsEncode(chunks, last, rest, 0);
    if n < |encoding| {
      assert whole == whole[..n] + whole[n..];
      if Decode(whole[..n], 0).Done? {
        DecodeExtends(whole[..n], whole[n..], 0);
      }
    } else {
      assert whole[..n] == encoding + rest[..n - |encoding|];
      DecodeInvertsEncode(chunks, last, rest[..n - |encoding|], 0);
    }
  }
}
