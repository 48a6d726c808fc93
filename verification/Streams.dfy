/** Byte streams that may deliver any positive number of bytes per read, and the readers of
    `src/http.rs:136-173, 281-310` on top of them. */
module Streams {
  import opened Options
  import opened Text
  import opened Heads

  datatype HttpError =
    | IoError
    | HeadEof
    | HeadTooLarge
    | BodyEof
    | ChunkedEof
    | ChunkLineTooLong
    | BadUtf8
    | BadChunkSize
    | ChunkTooLarge
    | BodyTooLarge
    | BadChunkEnd
    | BadStatusLine
    | MissingStatus
    | BadStatus
    | BadContentLength

  /** What `Read::read` returns; 0 bytes is the end of the stream. */
  datatype ReadOutcome = Got(n: nat) | Failed

  /** The peer's remaining bytes. How many a read delivers is not determined; a stream that is not
      reliable may also fail. */
  class Stream {
    var remaining: Bytes
    const reliable: bool

    constructor (bytes: Bytes, reliable: bool)
      ensures remaining == bytes && this.reliable == reliable
    {
      remaining := bytes;
      this.reliable := reliable;
    }

    /** Fills buf from index `from` on. */
    method Read(buf: array<Byte>, from: nat) returns (r: ReadOutcome)
      requires from < buf.Length
      modifies this, buf
      ensures r.Failed? ==> !reliable && remaining == old(remaining) && buf[..] == old(buf[..])
      ensures r.Got? ==>
        && r.n <= |old(remaining)| && r.n <= buf.Length - from
        && (r.n == 0 <==> old(remaining) == [])
        && remaining == old(remaining)[r.n..]
        && buf[..] == old(buf[..from]) + old(remaining)[..r.n] + old(buf[from + r.n..])
    {
      var fails: bool := *;
      if fails && !reliable {
        return Failed;
      }
      if remaining == [] {
        return Got(0);
      }
      var most := if |remaining| < buf.Length - from then |remaining| else buf.Length - from;
      var n: nat :| 1 <= n <= most;
      forall i | 0 <= i < n {
        buf[from + i] := remaining[i];
      }
      remaining := remaining[n..];
      r := Got(n);
    }
  }

  /** `RestThen`: the bytes already read with the head, then the stream. A bare stream is one with
      nothing left over. */
  class RestThen {
    const rest: Bytes
    var pos: nat
    const inner: Stream

    constructor (rest: Bytes, inner: Stream)
      ensures Valid() && this.rest == rest && this.inner == inner && pos == 0
      ensures Pending() == rest + inner.remaining
    {
      this.rest := rest;
      pos := 0;
      this.inner := inner;
    }

    ghost predicate Valid()
      reads this
    {
      pos <= |rest|
    }

    ghost function Pending(): Bytes
      requires Valid()
      reads this, inner
    {
      rest[pos..] + inner.remaining
    }

    method Read(buf: array<Byte>, from: nat) returns (r: ReadOutcome)
      requires Valid() && from < buf.Length
      modifies this, inner, buf
      ensures Valid()
      ensures r.Failed? ==> !inner.reliable && Pending() == old(Pending()) && buf[..] == old(buf[..])
      ensures r.Got? ==>
        && r.n <= |old(Pending())| && r.n <= buf.Length - from
        && (r.n == 0 <==> old(Pending()) == [])
        && Pending() == old(Pending())[r.n..]
        && buf[..] == old(buf[..from]) + old(Pending())[..r.n] + old(buf[from + r.n..])
    {
      if pos < |rest| {
        var left := |rest| - pos;
        var n := if buf.Length - from < left then buf.Length - from else left;
        ghost var before := Pending();
        forall i | 0 <= i < n {
          buf[from + i] := rest[pos + i];
        }
        assert before[..n] == rest[pos..pos + n];
        pos := pos + n;
        assert Pending() == before[n..];
        r := Got(n);
      } else {
        assert rest[pos..] == [];
        r := inner.Read(buf, from);
      }
    }
  }

  /** `read_exact_len`: succeeds exactly when the stream holds that many bytes (and does not fail),
      and takes exactly those. */
  method ReadExactLen(reader: RestThen, len: nat) returns (r: Result<Bytes, HttpError>)
    requires reader.Valid()
    modifies reader, reader.inner
    ensures reader.Valid()
    ensures r.Ok? ==>
      && len <= |old(reader.Pending())|
      && r.value == old(reader.Pending())[..len]
      && reader.Pending() == old(reader.Pending())[len..]
    ensures reader.inner.reliable ==>
      r == if len <= |old(reader.Pending())| then Ok(old(reader.Pending())[..len]) else Err(BodyEof)
    ensures |reader.Pending()| <= |old(reader.Pending())|
  {
    ghost var input := reader.Pending();
    var out := new Byte[len](_ => 0);
    var readTotal := 0;
    while readTotal < len
      invariant reader.Valid() && readTotal <= len && readTotal <= |input|
      invariant out[..readTotal] == input[..readTotal]
      invariant reader.Pending() == input[readTotal..]
      decreases len - readTotal
    {
      var got := reader.Read(out, readTotal);
      match got {
        case Failed =>
          return Err(IoError);
        case Got(n) =>
          if n == 0 {
            return Err(BodyEof);
          }
          assert input[readTotal..][..n] == input[readTotal..readTotal + n];
          assert out[..readTotal + n] == input[..readTotal + n];
          readTotal := readTotal + n;
      }
    }
    assert out[..] == out[..len];
    return Ok(out[..]);
  }

  /** The next n bytes go from what is left to what was read. */
  lemma Moved(whole: Bytes, body: Bytes, left: Bytes, n: nat)
    requires whole == body + left && n <= |left|
    ensures whole == (body + left[..n]) + left[n..]
  {
  }

  const HEAD_CAP: nat := 1024 * 1024
  const HEAD_STEP: nat := 1024

  /** What reading the head of this input answers on a reliable stream, however the reads are split: a
      head end at or below 1 MiB - 1023 is found, one beyond 1 MiB never is, and without a head end
      the answer depends only on whether the input is longer than 1 MiB. */
  ghost predicate HeadAnswer(input: Bytes, r: Result<nat, HttpError>) {
    && (forall p: nat | FirstHeadEnd(input, p) ::
          && (p <= 1048576 - 1023 ==> r == Ok(p))
          && (p > 1048576 ==> r == Err(HeadTooLarge))
          && (r == Ok(p) || r == Err(HeadTooLarge)))
    && (NoHeadEndBefore(input, |input| + 1) ==> r == Err(if |input| <= 1048576 then HeadEof else HeadTooLarge))
  }

  /** The state of the header reader's loop: what was read, what is left, and how far the search for the
      head's end had got before the last read. */
  ghost predicate Scanned(input: Bytes, buf: Bytes, left: Bytes, scanned: nat) {
    && input == buf + left && |buf| <= HEAD_CAP
    && NoHeadEndBefore(input, scanned + 1) && |buf| - HEAD_STEP <= scanned <= |buf|
  }

  lemma Found(input: Bytes, buf: Bytes, left: Bytes, scanned: nat, pos: nat)
    requires Scanned(input, buf, left, scanned) && FirstHeadEnd(buf, pos)
    ensures FirstHeadEnd(input, pos) && HeadAnswer(input, Ok(pos))
    ensures pos <= |buf| <= pos + HEAD_STEP - 1
  {
    HeadEndExtends(buf, left, pos);
    assert pos > scanned;
    forall p: nat | FirstHeadEnd(input, p) ensures p == pos {
      HeadEndUnique(input, p, pos);
    }
  }

  lemma EndOfInput(input: Bytes, scanned: nat)
    requires Scanned(input, input, [], scanned) && NoHeadEndBefore(input, |input| + 1)
    ensures HeadAnswer(input, Err(HeadEof))
  {
    forall p: nat ensures !FirstHeadEnd(input, p) {
    }
  }

  /** Another n bytes: the search goes on where it had got, or the buffer is too large. */
  lemma ReadOn(input: Bytes, buf: Bytes, left: Bytes, scanned: nat, n: nat)
    requires Scanned(input, buf, left, scanned) && NoHeadEndBefore(buf, |buf| + 1) && 0 < n <= HEAD_STEP && n <= |left|
    ensures input == (buf + left[..n]) + left[n..]
    ensures |buf| + n <= HEAD_CAP ==> Scanned(input, buf + left[..n], left[n..], |buf|)
    ensures |buf| + n > HEAD_CAP ==> HeadAnswer(input, Err(HeadTooLarge))
  {
    Moved(input, buf, left, n);
    forall q | 0 <= q <= |buf| ensures !IsHeadEnd(input, q) {
      assert !IsHeadEnd(buf, q);
    }
    if |buf| + n > HEAD_CAP {
      forall p: nat | FirstHeadEnd(input, p) ensures p > HEAD_CAP - (HEAD_STEP - 1) {
        assert IsHeadEnd(input, p);
      }
    }
  }

  /** `read_until_double_crlf`, from an empty buffer. On success the buffer holds the head, ending at
      the first CRLFCRLF of the whole input, and at most 1023 bytes more. */
  method ReadUntilDoubleCrlf(stream: Stream) returns (r: Result<nat, HttpError>, buf: Bytes)
    modifies stream
    ensures buf + stream.remaining == old(stream.remaining)
    ensures r.Ok? ==>
      && FirstHeadEnd(old(stream.remaining), r.value)
      && r.value <= |buf| <= r.value + 1023
      && |buf| <= 1048576
    ensures stream.reliable ==> HeadAnswer(old(stream.remaining), r)
  {
    ghost var input := stream.remaining;
    ghost var scanned: nat := 0;
    buf := [];
    var tmp := new Byte[HEAD_STEP](_ => 0);
    while true
      invariant Scanned(input, buf, stream.remaining, scanned)
      decreases |stream.remaining|
    {
      var found := MemchrCrlfCrlf(buf);
      if found.Some? {
        var pos: nat := found.value;
        Found(input, buf, stream.remaining, scanned, pos);
        return Ok(pos), buf;
      }
      ghost var left := stream.remaining;
      var got := stream.Read(tmp, 0);
      match got {
        case Failed =>
          return Err(IoError), buf;
        case Got(n) =>
          if n == 0 {
            assert buf == input;
            EndOfInput(input, scanned);
            return Err(HeadEof), buf;
          }
          ReadOn(input, buf, left, scanned, n);
          assert tmp[..n] == left[..n];
          scanned := |buf|;
          buf := buf + tmp[..n];
          if |buf| > HEAD_CAP {
            return Err(HeadTooLarge), buf;
          }
      }
    }
  }
}
