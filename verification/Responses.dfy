/** Reading a response (`src/http.rs:24-41, 312-367`, `src/uds.rs:101-251`): the status line, the three
    body framings, and their assembly. What is read may depend on how many bytes came along with the
    head, so the specification takes that number as a parameter. */
module Responses {
  import opened Options
  import opened Text
  import opened TextTheorems
  import opened Headers
  import opened Heads
  import opened Requests
  import opened Streams
  import opened Chunked

  // ---- Status line ----------------------------------------------------------------------------

  const HTTP_SLASH: Bytes := Ascii("HTTP/")

  /** Where the first word of s, which starts with a word, ends. */
  function WordEnd(s: Bytes): (i: nat)
    ensures i <= |s| && (i < |s| ==> IsSpace(s[i]))
    ensures forall j | 0 <= j < i :: !IsSpace(s[j])
  {
    if s == [] || IsSpace(s[0]) then 0 else 1 + WordEnd(s[1..])
  }

  /** `parse_status_line`: the second of the words the line splits into, if the first starts with
      HTTP/. */
  function ParseStatusLine(line: Bytes): Result<nat, HttpError> {
    var words := TrimStart(line);
    var proto := words[..WordEnd(words)];
    if !IsPrefix(HTTP_SLASH, proto) then Err(BadStatusLine)
    else
      var more := TrimStart(words[|proto|..]);
      var code := more[..WordEnd(more)];
      if code == [] then Err(MissingStatus)
      else
        match ParseUnsigned(code, 10, U16_MAX)
        case None => Err(BadStatus)
        case Some(status) => Ok(status)
  }

  predicate IsWord(s: Bytes) {
    s != [] && forall i | 0 <= i < |s| :: !IsSpace(s[i])
  }

  predicate EndsWord(s: Bytes) {
    s == [] || IsSpace(s[0])
  }

  lemma WordEndsAt(word: Bytes, rest: Bytes)
    requires IsWord(word) && EndsWord(rest)
    ensures WordEnd(word + rest) == |word|
  {
    var s := word + rest;
    assert forall j | 0 <= j < |word| :: !IsSpace(s[j]);
    assert |word| < |s| ==> IsSpace(s[|word|]);
  }

  /** A status line written as words and spaces. */
  ghost predicate StatusWords(line: Bytes, space: Bytes, proto: Bytes, gap: Bytes, code: Bytes, rest: Bytes) {
    && line == space + (proto + (gap + (code + rest)))
    && AllSpace(space) && IsWord(proto) && AllSpace(gap) && gap != [] && IsWord(code) && EndsWord(rest)
  }

  lemma StatusOfWords(line: Bytes, space: Bytes, proto: Bytes, gap: Bytes, code: Bytes, rest: Bytes)
    requires StatusWords(line, space, proto, gap, code, rest) && IsPrefix(HTTP_SLASH, proto)
    ensures
      var number := ParseUnsigned(code, 10, U16_MAX);
      ParseStatusLine(line) == if number.Some? then Ok(number.value) else Err(BadStatus)
  {
    var words := proto + (gap + (code + rest));
    TrimStartSkips(space, words);
    WordEndsAt(proto, gap + (code + rest));
    assert words[..|proto|] == proto && words[|proto|..] == gap + (code + rest);
    TrimStartSkips(gap, code + rest);
    WordEndsAt(code, rest);
    assert (code + rest)[..|code|] == code;
  }

  lemma WordsOfStatus(line: Bytes) returns (space: Bytes, proto: Bytes, gap: Bytes, code: Bytes, rest: Bytes)
    requires ParseStatusLine(line).Ok?
    ensures StatusWords(line, space, proto, gap, code, rest) && IsPrefix(HTTP_SLASH, proto)
    ensures ParseUnsigned(code, 10, U16_MAX) == Some(ParseStatusLine(line).value)
  {
    var words := TrimStart(line);
    proto := words[..WordEnd(words)];
    var tail := words[|proto|..];
    var more := TrimStart(tail);
    code := more[..WordEnd(more)];
    rest := more[|code|..];
    space := SpaceBefore(line);
    gap := SpaceBefore(tail);
    assert words == proto + tail && more == code + rest;
  }

  /** `parse_status_line` accepts exactly the lines whose first word starts with HTTP/ and whose second
      is a number that fits 16 bits, and answers that number. */
  lemma StatusLineExact(line: Bytes, status: nat)
    ensures ParseStatusLine(line) == Ok(status) <==>
            exists space, proto, gap, code, rest ::
              && StatusWords(line, space, proto, gap, code, rest)
              && IsPrefix(HTTP_SLASH, proto) && ParseUnsigned(code, 10, U16_MAX) == Some(status)
  {
    if ParseStatusLine(line).Ok? {
      var space, proto, gap, code, rest := WordsOfStatus(line);
    }
    forall space, proto, gap, code, rest |
      StatusWords(line, space, proto, gap, code, rest) && IsPrefix(HTTP_SLASH, proto)
      ensures ParseUnsigned(code, 10, U16_MAX) == Some(status) ==> ParseStatusLine(line) == Ok(status)
    {
      StatusOfWords(line, space, proto, gap, code, rest);
    }
  }

  // ---- Body -----------------------------------------------------------------------------------

  const CHUNKED: Bytes := Ascii("chunked")

  datatype Framing = ByLength(len: Option<nat>) | ByChunks | ByEnd

  /** How the body is delimited; Content-Length wins over Transfer-Encoding. */
  function FramingOf(hs: seq<Header>): Framing {
    var length, coding := HeaderLookup(hs, CONTENT_LENGTH), HeaderLookup(hs, TRANSFER_ENCODING);
    if length.Some? then ByLength(ParseUnsigned(length.value, 10, USIZE_MAX))
    else if coding.Some? && Contains(LowerAll(coding.value), CHUNKED) then ByChunks
    else ByEnd
  }

  /** The body, when `rest` came with the head and `stream` is what is still to be read. */
  function BodyOf(framing: Framing, rest: Bytes, stream: Bytes): Result<Bytes, HttpError> {
    match framing
    case ByLength(None) => Err(BadContentLength)
    case ByLength(Some(len)) =>
      if len > MAX_BODY_SIZE then Err(BodyTooLarge)
      else if |rest| >= len then Ok(rest)
      else if |rest| + |stream| < len then Err(BodyEof)
      else Ok(rest + stream[..len - |rest|])
    case ByChunks =>
      (match Decode(rest + stream, 0)
       case Done(body, _) => Ok(body)
       case Bad(error) => Err(error))
    case ByEnd => BodyToEnd(rest, stream)
  }

  /** The limit is looked at only when something is read. */
  function BodyToEnd(rest: Bytes, stream: Bytes): Result<Bytes, HttpError> {
    if stream != [] && |rest| + |stream| > MAX_BODY_SIZE then Err(BodyTooLarge) else Ok(rest + stream)
  }

  const BODY_STEP: nat := 16 * 1024

  method ReadToEnd(stream: Stream, rest: Bytes) returns (r: Result<Bytes, HttpError>)
    modifies stream
    ensures r.Ok? || stream.reliable ==> r == BodyToEnd(rest, old(stream.remaining))
  {
    ghost var whole := rest + stream.remaining;
    var body := rest;
    var chunk := new Byte[BODY_STEP](_ => 0);
    while true
      invariant whole == body + stream.remaining
      invariant |body| > MAX_BODY_SIZE ==> stream.remaining == old(stream.remaining)
      decreases |stream.remaining|
    {
      ghost var left := stream.remaining;
      var got := stream.Read(chunk, 0);
      match got {
        case Failed =>
          return Err(IoError);
        case Got(n) =>
          if n == 0 {
            assert whole == body;
            return Ok(body);
          }
          if |body| + n > MAX_BODY_SIZE {
            return Err(BodyTooLarge);
          }
          Moved(whole, body, left, n);
          assert chunk[..n] == left[..n];
          body := body + chunk[..n];
      }
    }
  }

  /** `read_http_body`; success, and on a reliable stream every answer, is the specification's. */
  method ReadHttpBody(stream: Stream, rest: Bytes, headers: seq<Header>) returns (r: Result<Bytes, HttpError>)
    modifies stream
    ensures r.Ok? || stream.reliable ==> r == BodyOf(FramingOf(headers), rest, old(stream.remaining))
    ensures r.Ok? && |rest| <= MAX_BODY_SIZE ==> |r.value| <= MAX_BODY_SIZE
  {
    var length, coding := HeaderLookup(headers, CONTENT_LENGTH), HeaderLookup(headers, TRANSFER_ENCODING);
    if length.Some? {
      var len := ParseUnsigned(length.value, 10, USIZE_MAX);
      if len.None? {
        return Err(BadContentLength);
      }
      if len.value > MAX_BODY_SIZE {
        return Err(BodyTooLarge);
      }
      var body: Bytes := [];
      if rest != [] {
        body := body + rest;
      }
      assert body == rest;
      if |body| < len.value {
        var bare := new RestThen([], stream);
        assert bare.Pending() == stream.remaining;
        var chunk := ReadExactLen(bare, len.value - |body|);
        if chunk.Err? {
          return Err(chunk.error);
        }
        body := body + chunk.value;
      }
      return Ok(body);
    } else if coding.Some? && Contains(LowerAll(coding.value), CHUNKED) {
      var reader := new RestThen(rest, stream);
      r := ReadChunked(reader);
    } else {
      r := ReadToEnd(stream, rest);
    }
  }

  // ---- Response -------------------------------------------------------------------------------

  datatype Response = Response(status: nat, headers: seq<Header>, body: Bytes)

  /** The response, when the head was found in front of `rest`. */
  function ResponseOf(head: Bytes, rest: Bytes, stream: Bytes): Result<Response, HttpError> {
    if !ValidUtf8(head) then Err(BadUtf8)
    else
      var lines := SplitCrlf(head);
      match ParseStatusLine(lines[0])
      case Err(error) => Err(error)
      case Ok(status) =>
        var headers := HeadersOf(JoinCrlf(lines[1..]));
        match BodyOf(FramingOf(headers), rest, stream)
        case Err(error) => Err(error)
        case Ok(body) => Ok(Response(status, headers, body))
  }

  /** p and n are where the head ends and how far was read when that was noticed. */
  ghost predicate HeadRead(input: Bytes, p: nat, n: nat) {
    FirstHeadEnd(input, p) && p <= n <= |input| && n <= p + HEAD_STEP - 1 && n <= HEAD_CAP
  }

  /** What may be answered for an input of which n bytes were read with the head. */
  ghost predicate IsAnswer(input: Bytes, n: nat, r: Result<Response, HttpError>) {
    (exists p: nat :: HeadRead(input, p, n) && r == ResponseOf(input[..p], input[p..n], input[n..]))
    || (exists h :: HeadAnswer(input, Err(h)) && r == Err(h))
  }

  /** The response side of `request_over_uds`; `n` is how many bytes were read with the head. */
  method ReadResponse(stream: Stream) returns (r: Result<Response, HttpError>, ghost n: nat)
    modifies stream
    ensures r.Ok? || stream.reliable ==> IsAnswer(old(stream.remaining), n, r)
    ensures r.Ok? ==> |r.value.body| <= MAX_BODY_SIZE
  {
    ghost var input := stream.remaining;
    var headerEnd, buf := ReadUntilDoubleCrlf(stream);
    n := |buf|;
    if headerEnd.Err? {
      return Err(headerEnd.error), n;
    }
    var p := headerEnd.value;
    var head, rest := buf[..p], buf[p..];
    assert head == input[..p] && rest == input[p..n] && stream.remaining == input[n..];
    assert HeadRead(input, p, n);
    if !ValidUtf8(head) {
      return Err(BadUtf8), n;
    }
    var lines := SplitCrlf(head);
    var status := ParseStatusLine(lines[0]);
    if status.Err? {
      return Err(status.error), n;
    }
    var headers := ParseHeaders(JoinCrlf(lines[1..]));
    var body := ReadHttpBody(stream, rest, headers);
    if body.Err? {
      return Err(body.error), n;
    }
    return Ok(Response(status.value, headers, body.value)), n;
  }
}
