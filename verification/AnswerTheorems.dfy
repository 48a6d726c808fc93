/** What any answer says about the bytes it was read from, well-formed or not. */
module AnswerTheorems {
  import opened Options
  import opened Text
  import opened TextTheorems
  import opened Headers
  import opened Heads
  import opened Requests
  import opened Streams
  import opened Chunked
  import opened Responses

  // ---- Which framing --------------------------------------------------------------------------

  /** The first header of this name, in any case, has this value. */
  predicate FirstValue(hs: seq<Header>, name: Bytes, value: Bytes) {
    exists k | 0 <= k < |hs| ::
      && hs[k].value == value && EqualIgnoringCase(hs[k].name, name)
      && forall j | 0 <= j < k :: !EqualIgnoringCase(hs[j].name, name)
  }

  /** The text has these seven letters in it, in any case. */
  predicate SaysChunked(value: Bytes) {
    exists i | 0 <= i <= |value| :: ChunkedAt(value, i)
  }

  predicate ChunkedAt(value: Bytes, i: int) {
    0 <= i && i + 7 <= |value| && EqualIgnoringCase(value[i..i + 7], Ascii("chunked"))
  }

  lemma LookupIsFirstValue(hs: seq<Header>, name: Bytes, value: Bytes)
    ensures HeaderLookup(hs, name) == Some(value) <==> FirstValue(hs, name, value)
    ensures HeaderLookup(hs, name).Some? <==> HasHeader(hs, name)
  {
    LookupIsFirst(hs, name, value);
    if FirstValue(hs, name, value) {
      var k :| 0 <= k < |hs| && hs[k].value == value && EqualIgnoringCase(hs[k].name, name)
        && forall j | 0 <= j < k :: !EqualIgnoringCase(hs[j].name, name);
      assert hs[k] == Header(hs[k].name, value);
    }
  }

  lemma ChunkedExact(value: Bytes)
    ensures Contains(LowerAll(value), CHUNKED) <==> SaysChunked(value)
  {
    forall i: int ensures OccursAt(LowerAll(value), CHUNKED, i) <==> ChunkedAt(value, i) {
      if 0 <= i && i + 7 <= |value| {
        var part := value[i..i + 7];
        assert LowerAll(value)[i..i + 7] == LowerAll(part);
        assert LowerAll(CHUNKED) == CHUNKED;
        LowerAllExact(part, CHUNKED);
      }
    }
  }

  /** How a body is delimited: by the first Content-Length header if there is one; otherwise in chunks if the
      first Transfer-Encoding header says so in any case; otherwise by the end of the stream. */
  lemma FramingExact(hs: seq<Header>)
    ensures FramingOf(hs).ByLength? <==> HasHeader(hs, Ascii("Content-Length"))
    ensures FramingOf(hs) == ByChunks <==>
              && !HasHeader(hs, Ascii("Content-Length"))
              && exists v :: FirstValue(hs, Ascii("Transfer-Encoding"), v) && SaysChunked(v)
    ensures forall v | FirstValue(hs, Ascii("Content-Length"), v) ::
              FramingOf(hs) == ByLength(ParseUnsigned(v, 10, 0xFFFF_FFFF_FFFF_FFFF))
  {
    var length, coding := HeaderLookup(hs, CONTENT_LENGTH), HeaderLookup(hs, TRANSFER_ENCODING);
    LookupIsFirstValue(hs, CONTENT_LENGTH, []);
    forall v ensures length == Some(v) <==> FirstValue(hs, CONTENT_LENGTH, v) {
      LookupIsFirstValue(hs, CONTENT_LENGTH, v);
    }
    forall v ensures coding == Some(v) <==> FirstValue(hs, TRANSFER_ENCODING, v) {
      LookupIsFirstValue(hs, TRANSFER_ENCODING, v);
    }
    if coding.Some? {
      ChunkedExact(coding.value);
    }
  }

  // ---- What a successful answer needs ----------------------------------------------------------

  /** The line gives the status: its second word, a 16-bit number, after a first one that starts with
      HTTP/. */
  ghost predicate GivesStatus(line: Bytes, status: nat) {
    exists space, proto, gap, code, rest ::
      && StatusWords(line, space, proto, gap, code, rest)
      && IsPrefix(Ascii("HTTP/"), proto) && ParseUnsigned(code, 10, 65535) == Some(status)
  }

  /** The head of the input, ending at p, is UTF-8 text that gives the status and these headers. */
  ghost predicate GivesHead(input: Bytes, p: nat, status: nat, hs: seq<Header>)
    requires p <= |input|
  {
    var k := FindCrlf(input);
    && ValidUtf8(input[..p]) && k + 2 <= p
    && GivesStatus(input[..k], status) && hs == HeadersOf(input[k + 2..p])
  }

  lemma FirstLineSplits(head: Bytes)
    requires FindCrlf(head) < |head|
    ensures SplitCrlf(head)[0] == head[..FindCrlf(head)]
    ensures JoinCrlf(SplitCrlf(head)[1..]) == head[FindCrlf(head) + 2..]
  {
    var first, tail := head[..FindCrlf(head)], head[FindCrlf(head) + 2..];
    var rest := SplitCrlf(tail);
    assert SplitCrlf(head) == [first] + rest;
    SplitCrlfPieces(tail);
    Behead(first, rest);
  }

  lemma Behead(first: Bytes, rest: seq<Bytes>)
    ensures ([first] + rest)[0] == first && ([first] + rest)[1..] == rest
  {
  }

  lemma HeadHasLine(input: Bytes, p: nat)
    requires FirstHeadEnd(input, p)
    ensures FindCrlf(input[..p]) == FindCrlf(input) <= p - 2
  {
    var head := input[..p];
    assert IsCrlf(head, p - 2);
    FindCrlfNone(head);
    assert head + input[p..] == input;
    FindCrlfExtends(head, input[p..]);
  }

  lemma HeadLines(input: Bytes, p: nat)
    requires FirstHeadEnd(input, p)
    ensures
      var k, lines := FindCrlf(input), SplitCrlf(input[..p]);
      k + 2 <= p && lines[0] == input[..k] && JoinCrlf(lines[1..]) == input[k + 2..p]
  {
    HeadHasLine(input, p);
    FirstLineSplits(input[..p]);
  }

  lemma StatusGiven(line: Bytes, status: nat)
    ensures ParseStatusLine(line) == Ok(status) <==> GivesStatus(line, status)
  {
    StatusLineExact(line, status);
  }

  /** What the head says, without the detour over its lines. */
  lemma ResponseSays(input: Bytes, p: nat, rest: Bytes, stream: Bytes)
    requires FirstHeadEnd(input, p)
    ensures FindCrlf(input) + 2 <= p
    ensures
      var status, hs := ParseStatusLine(input[..FindCrlf(input)]), HeadersOf(input[FindCrlf(input) + 2..p]);
      var body := BodyOf(FramingOf(hs), rest, stream);
      ResponseOf(input[..p], rest, stream) ==
        if !ValidUtf8(input[..p]) then Err(BadUtf8)
        else if status.Err? then Err(status.error)
        else if body.Err? then Err(body.error)
        else Ok(Response(status.value, hs, body.value))
  {
    HeadLines(input, p);
  }

  lemma ResponseExact(input: Bytes, p: nat, rest: Bytes, stream: Bytes, resp: Response)
    requires FirstHeadEnd(input, p)
    ensures ResponseOf(input[..p], rest, stream) == Ok(resp) <==>
              && GivesHead(input, p, resp.status, resp.headers)
              && BodyOf(FramingOf(resp.headers), rest, stream) == Ok(resp.body)
  {
    ResponseSays(input, p, rest, stream);
    StatusGiven(input[..FindCrlf(input)], resp.status);
  }

  /** For every input whatsoever: an answer is a success with this status, these headers and this body if and
      only if the head, found in time, is UTF-8 text whose first line gives the status and whose other lines
      give the headers, and the framing they announce gives the body. */
  lemma OkAnswerExact(input: Bytes, n: nat, resp: Response)
    ensures IsAnswer(input, n, Ok(resp)) <==>
              exists p: nat ::
                && HeadRead(input, p, n)
                && GivesHead(input, p, resp.status, resp.headers)
                && BodyOf(FramingOf(resp.headers), input[p..n], input[n..]) == Ok(resp.body)
  {
    forall p: nat | HeadRead(input, p, n)
      ensures ResponseOf(input[..p], input[p..n], input[n..]) == Ok(resp) <==>
                && GivesHead(input, p, resp.status, resp.headers)
                && BodyOf(FramingOf(resp.headers), input[p..n], input[n..]) == Ok(resp.body)
    {
      ResponseExact(input, p, input[p..n], input[n..], resp);
    }
  }

  /** For every input: if the first Content-Length of the head is not a number, or above 100 MiB, the answer
      is an error, whatever follows. */
  lemma BadLengthIsError(input: Bytes, p: nat, v: Bytes, n: nat, r: Result<Response, HttpError>)
    requires FirstHeadEnd(input, p) && FindCrlf(input) + 2 <= p && IsAnswer(input, n, r)
    requires FirstValue(HeadersOf(input[FindCrlf(input) + 2..p]), Ascii("Content-Length"), v)
    requires forall len: nat | len <= 104857600 :: ParseUnsigned(v, 10, 0xFFFF_FFFF_FFFF_FFFF) != Some(len)
    ensures r.Err?
  {
    if r.Ok? {
      OkAnswerExact(input, n, r.value);
      FramingExact(r.value.headers);
      forall q: nat | HeadRead(input, q, n) ensures q == p {
        HeadEndUnique(input, q, p);
      }
    }
  }

  // ---- Which error ----------------------------------------------------------------------------

  /** The answer to an input whose head, ending at p, is good, n bytes of it read with the head. With a
      Content-Length: an error if it is not a number, above 100 MiB or more than follows the head; otherwise
      that many bytes, or all that were read with the head if they are more. Otherwise, with chunks announced,
      what the decoder answers. Otherwise all that follows the head, unless a read takes it past 100 MiB. */
  ghost predicate Answers(input: Bytes, p: nat, n: nat, status: nat, hs: seq<Header>, r: Result<Response, HttpError>)
    requires p <= n <= |input|
  {
    var after, early := input[p..], n - p;
    if HasHeader(hs, Ascii("Content-Length")) then
      exists v :: FirstValue(hs, Ascii("Content-Length"), v) &&
        match ParseUnsigned(v, 10, 0xFFFF_FFFF_FFFF_FFFF)
        case None => r == Err(BadContentLength)
        case Some(len) =>
          if len > 104857600 then r == Err(BodyTooLarge)
          else if |after| < len then r == Err(BodyEof)
          else r == Ok(Response(status, hs, if early > len then after[..early] else after[..len]))
    else if exists v :: FirstValue(hs, Ascii("Transfer-Encoding"), v) && SaysChunked(v) then
      match Decode(after, 0)
      case Done(body, _) => r == Ok(Response(status, hs, body))
      case Bad(error) => r == Err(error)
    else if n < |input| && |after| > 104857600 then r == Err(BodyTooLarge)
    else r == Ok(Response(status, hs, after))
  }

  lemma BodyAnswers(input: Bytes, p: nat, n: nat, status: nat, hs: seq<Header>, r: Result<Response, HttpError>)
    requires p <= n <= |input|
    requires
      match BodyOf(FramingOf(hs), input[p..n], input[n..])
      case Err(error) => r == Err(error)
      case Ok(body) => r == Ok(Response(status, hs, body))
    ensures Answers(input, p, n, status, hs, r)
  {
    var after, early := input[p..], n - p;
    assert input[p..n] + input[n..] == after && input[p..n] == after[..early];
    FramingExact(hs);
    var length := HeaderLookup(hs, CONTENT_LENGTH);
    if length.Some? {
      var v := length.value;
      LookupIsFirstValue(hs, CONTENT_LENGTH, v);
      var parsed := ParseUnsigned(v, 10, 0xFFFF_FFFF_FFFF_FFFF);
      if parsed.Some? && early < parsed.value <= |after| {
        assert after[..early] + input[n..][..parsed.value - early] == after[..parsed.value];
      }
      assert FirstValue(hs, Ascii("Content-Length"), v);
    } else {
      LookupIsFirstValue(hs, CONTENT_LENGTH, []);
    }
  }

  /** For every input with a good head: the answer, error or not, is what its framing says. */
  lemma AnswerExact(input: Bytes, p: nat, n: nat, status: nat, hs: seq<Header>, r: Result<Response, HttpError>)
    requires FirstHeadEnd(input, p) && GivesHead(input, p, status, hs)
    requires IsAnswer(input, n, r) && r != Err(HeadTooLarge)
    ensures p <= n <= |input| && Answers(input, p, n, status, hs, r)
  {
    OneHead(input, p, n, r);
    StatusGiven(input[..FindCrlf(input)], status);
    GoodHead(input, p, status, hs, input[p..n], input[n..]);
    BodyAnswers(input, p, n, status, hs, r);
  }

  lemma OneHead(input: Bytes, p: nat, n: nat, r: Result<Response, HttpError>)
    requires FirstHeadEnd(input, p) && IsAnswer(input, n, r) && r != Err(HeadTooLarge)
    ensures p <= n <= |input| && r == ResponseOf(input[..p], input[p..n], input[n..])
  {
    forall q: nat | HeadRead(input, q, n) ensures q == p {
      HeadEndUnique(input, q, p);
    }
  }

  lemma GoodHead(input: Bytes, p: nat, status: nat, hs: seq<Header>, rest: Bytes, stream: Bytes)
    requires FirstHeadEnd(input, p) && ValidUtf8(input[..p]) && FindCrlf(input) + 2 <= p
    requires ParseStatusLine(input[..FindCrlf(input)]) == Ok(status) && hs == HeadersOf(input[FindCrlf(input) + 2..p])
    ensures ResponseOf(input[..p], rest, stream) ==
            match BodyOf(FramingOf(hs), rest, stream)
            case Err(error) => Err(error)
            case Ok(body) => Ok(Response(status, hs, body))
  {
    ResponseSays(input, p, rest, stream);
  }

  /** The line's first word, if it has one. */
  predicate FirstWord(line: Bytes, space: Bytes, word: Bytes, rest: Bytes) {
    && line == space + (word + rest) && AllSpace(space) && EndsWord(rest)
    && (forall i | 0 <= i < |word| :: !IsSpace(word[i])) && (word == [] ==> rest == [])
  }

  lemma FirstWordTaken(line: Bytes, space: Bytes, word: Bytes, rest: Bytes)
    requires FirstWord(line, space, word, rest)
    ensures TrimStart(line) == word + rest && WordEnd(word + rest) == |word|
  {
    TrimStartSkips(space, word + rest);
    if word != [] {
      WordEndsAt(word, rest);
    }
  }

  lemma HasFirstWord(line: Bytes) returns (space: Bytes, word: Bytes, rest: Bytes)
    ensures FirstWord(line, space, word, rest)
  {
    var words := TrimStart(line);
    TrimStartCuts(line);
    space := SpaceBefore(line);
    word, rest := words[..WordEnd(words)], words[WordEnd(words)..];
    assert words == word + rest;
  }

  lemma AllSpaceExact(s: Bytes)
    ensures AllSpace(s) <==> TrimStart(s) == []
  {
    var space := SpaceBefore(s);
    TrimStartCuts(s);
    if AllSpace(s) {
      TrimStartSkips(s, []);
      assert s + [] == s;
    }
  }

  lemma StatusCases(line: Bytes, space: Bytes, word: Bytes, rest: Bytes)
    requires FirstWord(line, space, word, rest)
    ensures ParseStatusLine(line) == Err(BadStatusLine) <==> !IsPrefix(HTTP_SLASH, word)
    ensures ParseStatusLine(line) == Err(MissingStatus) <==> IsPrefix(HTTP_SLASH, word) && TrimStart(rest) == []
    ensures ParseStatusLine(line).Err? ==> ParseStatusLine(line).error in {BadStatusLine, MissingStatus, BadStatus}
  {
    FirstWordTaken(line, space, word, rest);
    assert (word + rest)[..|word|] == word && (word + rest)[|word|..] == rest;
    TrimStartCuts(rest);
  }

  /** A status line is rejected for its first word, for having no second, or for a second that is no 16-bit
      number. */
  lemma StatusErrorExact(line: Bytes, space: Bytes, word: Bytes, rest: Bytes)
    requires FirstWord(line, space, word, rest)
    ensures ParseStatusLine(line) == Err(BadStatusLine) <==> !IsPrefix(Ascii("HTTP/"), word)
    ensures ParseStatusLine(line) == Err(MissingStatus) <==> IsPrefix(Ascii("HTTP/"), word) && AllSpace(rest)
    ensures ParseStatusLine(line) == Err(BadStatus) <==>
              IsPrefix(Ascii("HTTP/"), word) && !AllSpace(rest) && forall status: nat :: !GivesStatus(line, status)
  {
    StatusCases(line, space, word, rest);
    AllSpaceExact(rest);
    forall status: nat ensures ParseStatusLine(line) == Ok(status) <==> GivesStatus(line, status) {
      StatusGiven(line, status);
    }
    assert ParseStatusLine(line).Ok? <==> exists status: nat :: ParseStatusLine(line) == Ok(status) by {
      if ParseStatusLine(line).Ok? {
        assert ParseStatusLine(line) == Ok(ParseStatusLine(line).value);
      }
    }
  }
}
