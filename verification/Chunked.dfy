/** The chunked decoder (`src/http.rs:175-247`), against a recursive grammar over the input, and an
    encoder it inverts. */
module Chunked {
  import opened Options
  import opened Text
  import opened Streams

  const MAX_BODY_SIZE: nat := 100 * 1024 * 1024
  const MAX_CHUNK_SIZE: nat := 10 * 1024 * 1024
  const LINE_CAP: nat := 1024

  // ---- Grammar --------------------------------------------------------------------------------

  datatype TakenLine = Line(text: Bytes, rest: Bytes) | NoLine(error: HttpError)

  /** The bytes up to the first CRLF. The line with its CRLF may take 1025 bytes: the cap is looked at
      only after a byte that did not end it. */
  function TakeLine(input: Bytes): TakenLine {
    var i := FindCrlf(input);
    if i < |input| && i + 2 <= LINE_CAP + 1 then Line(input[..i], input[i + 2..])
    else if |input| > LINE_CAP then NoLine(ChunkLineTooLong)
    else NoLine(ChunkedEof)
  }

  /** A size line: hexadecimal digits, then anything after a semicolon is ignored. */
  function ChunkSize(line: Bytes): Option<nat> {
    ParseUnsigned(Trim(line[..Find(line, SEMICOLON)]), 16, USIZE_MAX)
  }

  datatype TakenChunk = Last(rest: Bytes) | Chunk(data: Bytes, rest: Bytes, total: nat) | NoChunk(error: HttpError)

  /** One chunk, `got` bytes of body already read; `total` counts its bytes too. */
  function TakeChunk(input: Bytes, got: nat): (t: TakenChunk)
    ensures t.Chunk? ==> |t.rest| < |input| && 0 < |t.data| && t.total == got + |t.data| <= MAX_BODY_SIZE
  {
    match TakeLine(input)
    case NoLine(error) => NoChunk(error)
    case Line(line, rest) =>
      if !ValidUtf8(line) then NoChunk(BadUtf8)
      else
        match ChunkSize(line)
        case None => NoChunk(BadChunkSize)
        case Some(size) =>
          if size == 0 then Last(rest)
          else if size > MAX_CHUNK_SIZE then NoChunk(ChunkTooLarge)
          else if got + size > MAX_BODY_SIZE then NoChunk(BodyTooLarge)
          else if |rest| < size then NoChunk(BodyEof)
          else if |rest| < size + 2 then NoChunk(IoError)
          else if rest[size..size + 2] != CRLF then NoChunk(BadChunkEnd)
          else Chunk(rest[..size], rest[size + 2..], got + size)
  }

  datatype Decoded = Done(body: Bytes, rest: Bytes) | Bad(error: HttpError)

  /** Decodes from a chunk boundary, `got` bytes of body already read; `rest` is what follows the line
      of the last chunk. */
  function Decode(input: Bytes, got: nat): Decoded
    decreases |input|
  {
    match TakeChunk(input, got)
    case Last(rest) => Done([], rest)
    case Chunk(data, rest, total) => Prepend(data, Decode(rest, total))
    case NoChunk(error) => Bad(error)
  }

  function Prepend(data: Bytes, d: Decoded): Decoded {
    if d.Done? then Done(data + d.body, d.rest) else d
  }

  /** The two bytes after the last-chunk line are read and ignored, present or not. */
  function AfterTrailer(rest: Bytes): Bytes {
    rest[if |rest| < 2 then |rest| else 2..]
  }

  // ---- Decoder --------------------------------------------------------------------------------

  lemma LineGrows(input: Bytes, n: nat)
    requires n < |input| && NoCrlf(input[..n])
    ensures n > 0 && input[n - 1] == CR && input[n] == LF ==> FindCrlf(input) == n - 1
    ensures !(n > 0 && input[n - 1] == CR && input[n] == LF) ==> NoCrlf(input[..n + 1])
  {
    var longer := input[..n + 1];
    forall j | 0 <= j < n - 1 ensures !IsCrlf(input, j) && !IsCrlf(longer, j) {
      assert !IsCrlf(input[..n], j);
    }
    if n > 0 && input[n - 1] == CR && input[n] == LF {
      FindCrlfAt(input, n - 1);
    } else {
      forall j | 0 <= j < |longer| ensures !IsCrlf(longer, j) {
        if j == n - 1 {
          assert longer[j] == input[n - 1] && longer[j + 1] == input[n];
        }
      }
    }
  }

  lemma NoLineYet(input: Bytes, n: nat)
    requires n <= |input| && NoCrlf(input[..n]) && (n == |input| || n > LINE_CAP)
    ensures n <= LINE_CAP ==> TakeLine(input) == NoLine(ChunkedEof)
    ensures n > LINE_CAP ==> TakeLine(input) == NoLine(ChunkLineTooLong)
  {
    var i := FindCrlf(input);
    assert i < |input| && i + 2 <= n ==> IsCrlf(input[..n], i);
    if n == |input| {
      assert input[..n] == input;
      FindCrlfNone(input);
    }
  }

  /** Reads one byte at a time up to and including CRLF. */
  method ReadChunkLine(reader: RestThen) returns (r: Result<Bytes, HttpError>)
    requires reader.Valid()
    modifies reader, reader.inner
    ensures reader.Valid()
    ensures r.Ok? ==> TakeLine(old(reader.Pending())) == Line(r.value, reader.Pending())
    ensures reader.inner.reliable ==>
      match TakeLine(old(reader.Pending()))
      case Line(text, _) => r == Ok(text)
      case NoLine(error) => r == Err(error)
  {
    ghost var input := reader.Pending();
    var lineBuf: Bytes := [];
    var tmp := new Byte[1](_ => 0);
    var last: Byte := 0;
    while true
      invariant reader.Valid() && |lineBuf| <= |input| && |lineBuf| <= LINE_CAP
      invariant lineBuf == input[..|lineBuf|] && NoCrlf(lineBuf)
      invariant last == if lineBuf == [] then 0 else lineBuf[|lineBuf| - 1]
      invariant reader.Pending() == input[|lineBuf|..]
      decreases |input| - |lineBuf|
    {
      var got := reader.Read(tmp, 0);
      match got {
        case Failed =>
          return Err(IoError);
        case Got(n) =>
          if n == 0 {
            NoLineYet(input, |lineBuf|);
            return Err(ChunkedEof);
          }
      }
      var b := tmp[0];
      assert tmp[..][0] == input[|lineBuf|];
      LineGrows(input, |lineBuf|);
      lineBuf := lineBuf + [b];
      assert lineBuf == input[..|lineBuf|];
      if last == CR && b == LF {
        assert lineBuf[..|lineBuf| - 2] == input[..|lineBuf| - 2];
        return Ok(lineBuf[..|lineBuf| - 2]);
      }
      last := b;
      if |lineBuf| > LINE_CAP {
        NoLineYet(input, |lineBuf|);
        return Err(ChunkLineTooLong);
      }
    }
  }

  /** Skips one byte; end of stream and errors are ignored. */
  method SkipByte(reader: RestThen)
    requires reader.Valid()
    modifies reader, reader.inner
    ensures reader.Valid()
    ensures reader.inner.reliable ==>
      reader.Pending() == old(reader.Pending())[if |old(reader.Pending())| < 1 then |old(reader.Pending())| else 1..]
  {
    var tmp := new Byte[1](_ => 0);
    var got := reader.Read(tmp, 0);
  }

  /** One turn of the decoder's loop: a size line, and the data with the CRLF after it unless this is
      the last chunk. */
  method ReadChunk(reader: RestThen, ghost input: Bytes, got: nat) returns (r: Result<Option<Bytes>, HttpError>)
    requires reader.Valid() && reader.Pending() == input
    modifies reader, reader.inner
    ensures reader.Valid()
    ensures r.Ok? ==>
      (TakeChunk(input, got) ==
       if r.value.Some? then Chunk(r.value.value, reader.Pending(), got + |r.value.value|) else Last(reader.Pending()))
    ensures reader.inner.reliable ==> (r.Err? <==> TakeChunk(input, got).NoChunk?)
    ensures reader.inner.reliable && r.Err? ==> TakeChunk(input, got).error == r.error
  {
    var lineRead := ReadChunkLine(reader);
    if lineRead.Err? {
      return Err(lineRead.error);
    }
    var line := lineRead.value;
    ghost var rest := reader.Pending();
    if !ValidUtf8(line) {
      return Err(BadUtf8);
    }
    var parsed := ChunkSize(line);
    if parsed.None? {
      return Err(BadChunkSize);
    }
    var size := parsed.value;
    if size == 0 {
      return Ok(None);
    }
    if size > MAX_CHUNK_SIZE {
      return Err(ChunkTooLarge);
    }
    if got + size > MAX_BODY_SIZE {
      return Err(BodyTooLarge);
    }
    var chunk := ReadExactLen(reader, size);
    if chunk.Err? {
      return Err(chunk.error);
    }
    var end := ReadExactLen(reader, 2);
    if end.Err? {
      return Err(IoError);
    }
    assert end.value == rest[size..size + 2];
    if end.value != CRLF {
      return Err(BadChunkEnd);
    }
    return Ok(Some(chunk.value));
  }

  /** The state of the decoder's loop: `body` read, `here` still to decode, `whole` the answer. */
  ghost predicate Decoding(whole: Decoded, body: Bytes, here: Bytes, got: nat) {
    got == |body| && whole == Prepend(body, Decode(here, got))
  }

  lemma DecodingStarts(input: Bytes)
    ensures Decoding(Decode(input, 0), [], input, 0)
  {
    var whole := Decode(input, 0);
    assert whole.Done? ==> [] + whole.body == whole.body;
  }

  lemma DecodingAdvances(whole: Decoded, body: Bytes, here: Bytes, got: nat, data: Bytes, rest: Bytes, total: nat)
    requires Decoding(whole, body, here, got) && TakeChunk(here, got) == Chunk(data, rest, total)
    ensures Decoding(whole, body + data, rest, total)
  {
    DecodeUnfolds(here, got, data, rest, total);
    PrependTwice(body, data, Decode(rest, total));
  }

  lemma DecodeUnfolds(here: Bytes, got: nat, data: Bytes, rest: Bytes, total: nat)
    requires TakeChunk(here, got) == Chunk(data, rest, total)
    ensures Decode(here, got) == Prepend(data, Decode(rest, total))
  {
  }

  lemma PrependTwice(a: Bytes, b: Bytes, d: Decoded)
    ensures Prepend(a, Prepend(b, d)) == Prepend(a + b, d)
  {
    if d.Done? {
      assert a + (b + d.body) == (a + b) + d.body;
    }
  }

  lemma DecodingEnds(whole: Decoded, body: Bytes, here: Bytes)
    requires Decoding(whole, body, here, |body|)
    ensures TakeChunk(here, |body|).Last? ==> whole == Done(body, TakeChunk(here, |body|).rest)
    ensures TakeChunk(here, |body|).NoChunk? ==> whole == Bad(TakeChunk(here, |body|).error)
  {
    assert body + [] == body;
  }

  /** `read_chunked`: on a reliable stream exactly the grammar's answer, and what is left unread is
      what follows the encoding; on any stream, success means the grammar's body. */
  method ReadChunked(reader: RestThen) returns (r: Result<Bytes, HttpError>)
    requires reader.Valid()
    modifies reader, reader.inner
    ensures reader.Valid()
    ensures r.Ok? ==> Decode(old(reader.Pending()), 0).Done? && r.value == Decode(old(reader.Pending()), 0).body
    ensures reader.inner.reliable ==>
      match Decode(old(reader.Pending()), 0)
      case Done(body, rest) => r == Ok(body) && reader.Pending() == AfterTrailer(rest)
      case Bad(error) => r == Err(error)
    ensures r.Ok? ==> |r.value| <= MAX_BODY_SIZE
  {
    ghost var whole := Decode(reader.Pending(), 0);
    var body: Bytes := [];
    DecodingStarts(reader.Pending());
    while true
      invariant reader.Valid() && |body| <= MAX_BODY_SIZE
      invariant Decoding(whole, body, reader.Pending(), |body|)
      decreases |reader.Pending()|
    {
      ghost var here := reader.Pending();
      DecodingEnds(whole, body, here);
      var chunk := ReadChunk(reader, here, |body|);
      match chunk {
        case Err(error) =>
          return Err(error);
        case Ok(None) =>
          SkipByte(reader);
          SkipByte(reader);
          return Ok(body);
        case Ok(Some(data)) =>
          DecodingAdvances(whole, body, here, |body|, data, reader.Pending(), |body| + |data|);
          body := body + data;
      }
    }
  }
}
