/** What reading a response promises for a well-formed message, however the stream splits its reads. */
module ResponseTheorems {
  import opened Options
  import opened Text
  import opened Headers
  import opened Heads
  import opened Requests
  import opened Streams
  import opened Chunked
  import opened ChunkedTheorems
  import opened Responses

  // ---- Messages -------------------------------------------------------------------------------

  datatype Content = Fixed(bytes: Bytes) | Chunks(chunks: seq<Sent>, last: Bytes) | ToEnd(bytes: Bytes)

  datatype Message = Message(status: nat, reason: Bytes, headers: seq<Header>, content: Content)

  const VERSION: Bytes := Ascii("HTTP/1.1")

  function StatusLine(m: Message): Bytes {
    VERSION + SPACE + ToDigits(m.status, 10) + SPACE + m.reason
  }

  function Head(m: Message): Bytes {
    HeadBytes(StatusLine(m), m.headers)
  }

  /** The body as it is sent; a chunked one up to the line of its last chunk. */
  function Wire(c: Content): Bytes {
    match c
    case Fixed(bytes) => bytes
    case Chunks(chunks, last) => Encode(chunks, last)
    case ToEnd(bytes) => bytes
  }

  function BytesOf(c: Content): Bytes {
    match c
    case Fixed(bytes) => bytes
    case Chunks(chunks, _) => Payload(chunks)
    case ToEnd(bytes) => bytes
  }

  predicate GoodHeader(h: Header) {
    Normal(h) && CleanHeader(h) && ValidUtf8(h.name) && ValidUtf8(h.value)
  }

  /** The headers announce the framing that is used; with a Content-Length, a Transfer-Encoding does not
      matter. */
  predicate Announced(hs: seq<Header>, c: Content) {
    var length, coding := HeaderLookup(hs, CONTENT_LENGTH), HeaderLookup(hs, TRANSFER_ENCODING);
    match c
    case Fixed(bytes) => length.Some? && ParseUnsigned(length.value, 10, USIZE_MAX) == Some(|bytes|)
    case Chunks(chunks, last) =>
      && length.None? && coding.Some? && Contains(LowerAll(coding.value), CHUNKED)
      && GoodLine(last, 0) && forall k | k in chunks :: GoodChunk(k)
    case ToEnd(_) => length.None? && (coding.Some? ==> !Contains(LowerAll(coding.value), CHUNKED))
  }

  lemma AnnouncedFraming(hs: seq<Header>, c: Content)
    requires Announced(hs, c)
    ensures FramingOf(hs) ==
            match c
            case Fixed(bytes) => ByLength(Some(|bytes|))
            case Chunks(_, _) => ByChunks
            case ToEnd(_) => ByEnd
  {
  }

  /** A response this client is meant to accept. */
  predicate Sendable(m: Message) {
    && m.status <= U16_MAX && Clean(m.reason) && ValidUtf8(m.reason)
    && (forall h | h in m.headers :: GoodHeader(h))
    && Announced(m.headers, m.content) && |BytesOf(m.content)| <= MAX_BODY_SIZE
    && |Head(m)| <= HEAD_CAP - (HEAD_STEP - 1)
  }

  // ---- The head -------------------------------------------------------------------------------

  lemma {:induction false} SerializedIsValid(hs: seq<Header>)
    requires forall h | h in hs :: GoodHeader(h)
    ensures ValidUtf8(Serialized(hs))
  {
    if hs != [] {
      var h := hs[0];
      assert GoodHeader(h);
      AsciiIsValid(SEPARATOR);
      AsciiIsValid(CRLF);
      ValidConcat(h.name, SEPARATOR);
      ValidConcat(h.name + SEPARATOR, h.value);
      ValidConcat(HeaderLine(h), CRLF);
      SerializedIsValid(hs[1..]);
      ValidConcat(HeaderLine(h) + CRLF, Serialized(hs[1..]));
    }
  }

  lemma HeadIsValid(m: Message)
    requires Sendable(m)
    ensures ValidUtf8(Head(m))
  {
    var digits := ToDigits(m.status, 10);
    var start := VERSION + SPACE + digits + SPACE;
    AsciiIsValid(start);
    AsciiIsValid(CRLF);
    ValidConcat(start, m.reason);
    ValidConcat(StatusLine(m), CRLF);
    SerializedIsValid(m.headers);
    ValidConcat(StatusLine(m) + CRLF, Serialized(m.headers));
    ValidConcat(StatusLine(m) + CRLF + Serialized(m.headers), CRLF);
  }

  lemma StatusParses(m: Message)
    requires Sendable(m)
    ensures ParseStatusLine(StatusLine(m)) == Ok(m.status)
  {
    var digits, rest := ToDigits(m.status, 10), SPACE + m.reason;
    assert StatusLine(m) == [] + (VERSION + (SPACE + (digits + rest)));
    assert IsWord(VERSION) && IsWord(digits);
    assert IsPrefix(HTTP_SLASH, VERSION);
    ParseRoundTrip(m.status, 10, U16_MAX);
    StatusOfWords(StatusLine(m), [], VERSION, SPACE, digits, rest);
  }

  lemma StatusLineIsClean(m: Message)
    requires Sendable(m)
    ensures Clean(StatusLine(m)) && StatusLine(m) != []
  {
    assert Clean(VERSION) && Clean(SPACE) && Clean(ToDigits(m.status, 10));
  }

  function Outcome(m: Message, body: Result<Bytes, HttpError>): Result<Response, HttpError> {
    match body
    case Ok(bytes) => Ok(Response(m.status, m.headers, bytes))
    case Err(error) => Err(error)
  }

  /** Splitting the head, parsing its first line, joining the others and parsing them gives back the
      status and the headers; so the answer depends on the body alone. */
  lemma HeadParses(m: Message, rest: Bytes, stream: Bytes)
    requires Sendable(m)
    ensures ResponseOf(Head(m), rest, stream) == Outcome(m, BodyOf(FramingOf(m.headers), rest, stream))
  {
    HeadIsValid(m);
    StatusParses(m);
    HeadSplits(m);
  }

  lemma HeadSplits(m: Message)
    requires Sendable(m)
    ensures SplitCrlf(Head(m))[0] == StatusLine(m)
    ensures HeadersOf(JoinCrlf(SplitCrlf(Head(m))[1..])) == m.headers
  {
    var line, tail := StatusLine(m), Serialized(m.headers) + CRLF;
    StatusLineIsClean(m);
    assert Head(m) == line + CRLF + tail;
    SplitCrlfCons(line, tail);
    assert ([line] + SplitCrlf(tail))[1..] == SplitCrlf(tail);
    SplitCrlfPieces(tail);
    HeadersOfHead(line, m.headers);
    assert Head(m)[|line| + 2..] == tail;
  }

  lemma HeadIsFound(m: Message, after: Bytes)
    requires Sendable(m)
    ensures FirstHeadEnd(Head(m) + after, |Head(m)|)
  {
    StatusLineIsClean(m);
    HeadEndsOnce(StatusLine(m), m.headers, after);
  }

  lemma HeadIsRead(m: Message, input: Bytes, after: Bytes, n: nat, r: Result<Response, HttpError>)
    requires Sendable(m) && IsAnswer(input, n, r) && input == Head(m) + after
    ensures HeadRead(input, |Head(m)|, n)
    ensures r == ResponseOf(input[..|Head(m)|], input[|Head(m)|..n], input[n..])
  {
    HeadIsFound(m, after);
    forall h ensures !HeadAnswer(input, Err(h)) {
    }
    var p: nat :| HeadRead(input, p, n) && r == ResponseOf(input[..p], input[p..n], input[n..]);
    HeadEndUnique(input, p, |Head(m)|);
  }

  /** Whatever follows the head, the answer is the status, the headers and what the body reader makes
      of the bytes that follow. */
  lemma AnswerFollowsHead(m: Message, after: Bytes, n: nat, r: Result<Response, HttpError>) returns (k: nat)
    requires Sendable(m) && IsAnswer(Head(m) + after, n, r)
    ensures n == |Head(m)| + k && k <= |after| && k <= HEAD_STEP - 1
    ensures r == Outcome(m, BodyOf(FramingOf(m.headers), after[..k], after[k..]))
  {
    var input, head := Head(m) + after, Head(m);
    HeadIsRead(m, input, after, n, r);
    k := n - |head|;
    assert input[..|head|] == head && input[|head|..n] == after[..k] && input[n..] == after[k..];
    HeadParses(m, after[..k], after[k..]);
  }

  // ---- Round trip -----------------------------------------------------------------------------

  lemma BodyArrives(m: Message, after: Bytes, k: nat)
    requires Sendable(m) && k <= |Wire(m.content) + after|
    requires m.content.Chunks? || after == []
    ensures
      var sent := Wire(m.content) + after;
      BodyOf(FramingOf(m.headers), sent[..k], sent[k..]) == Ok(BytesOf(m.content))
  {
    var sent := Wire(m.content) + after;
    AnnouncedFraming(m.headers, m.content);
    match m.content
    case Fixed(bytes) =>
      assert sent == bytes;
      FixedArrives(bytes, k);
    case Chunks(chunks, last) =>
      assert sent[..k] + sent[k..] == sent;
      DecodeInvertsEncode(chunks, last, after, 0);
    case ToEnd(bytes) =>
      assert sent == bytes;
      assert sent[..k] + sent[k..] == sent;
  }

  lemma FixedArrives(bytes: Bytes, k: nat)
    requires k <= |bytes| <= MAX_BODY_SIZE
    ensures BodyOf(ByLength(Some(|bytes|)), bytes[..k], bytes[k..]) == Ok(bytes)
  {
    var rest, stream := bytes[..k], bytes[k..];
    assert rest + stream == bytes;
    if k < |bytes| {
      assert stream[..|bytes| - k] == stream;
    } else {
      assert rest == bytes;
    }
  }

  /** A well-formed response comes back as it was sent, under every fragmentation: a body with
      Content-Length or up to the end of the stream when nothing follows it, a chunked one whatever
      follows it. */
  lemma RoundTrip(m: Message, after: Bytes, n: nat, r: Result<Response, HttpError>)
    requires Sendable(m) && (m.content.Chunks? || after == [])
    requires IsAnswer(Head(m) + (Wire(m.content) + after), n, r)
    ensures r == Ok(Response(m.status, m.headers, BytesOf(m.content)))
  {
    var k := AnswerFollowsHead(m, Wire(m.content) + after, n, r);
    BodyArrives(m, after, k);
  }

  // ---- Truncation -----------------------------------------------------------------------------

  lemma NoHeadInCut(head: nat, cut: Bytes, lost: Bytes, p: nat)
    requires FirstHeadEnd(cut + lost, head) && |cut| < head
    ensures !FirstHeadEnd(cut, p)
  {
    if FirstHeadEnd(cut, p) {
      HeadEndExtends(cut, lost, p);
      HeadEndUnique(cut + lost, p, head);
    }
  }

  lemma CutHead(m: Message, after: Bytes, cut: Bytes, lost: Bytes, n: nat, r: Result<Response, HttpError>)
    requires Sendable(m) && cut + lost == Head(m) + after && |cut| < |Head(m)| && IsAnswer(cut, n, r)
    ensures r.Err?
  {
    HeadIsFound(m, after);
    forall p: nat ensures !FirstHeadEnd(cut, p) {
      NoHeadInCut(|Head(m)|, cut, lost, p);
    }
  }

  lemma CutBody(m: Message, sent: Bytes, k: nat)
    requires Sendable(m) && IsPrefix(sent, Wire(m.content)) && k <= |sent|
    ensures
      var body := BodyOf(FramingOf(m.headers), sent[..k], sent[k..]);
      && (body.Err? <==> |sent| < |Wire(m.content)| && !m.content.ToEnd?)
      && (body.Ok? && m.content.ToEnd? ==> body.value == sent)
  {
    AnnouncedFraming(m.headers, m.content);
    assert sent[..k] + sent[k..] == sent;
    match m.content
    case Fixed(bytes) =>
    case Chunks(chunks, last) =>
      assert Encode(chunks, last) + [] == Wire(m.content);
      TruncationIsAnError(chunks, last, [], |sent|);
    case ToEnd(bytes) =>
  }

  lemma CutAfterHead(m: Message, sent: Bytes, n: nat, r: Result<Response, HttpError>)
    requires Sendable(m) && IsPrefix(sent, Wire(m.content)) && IsAnswer(Head(m) + sent, n, r)
    ensures r.Err? <==> |sent| < |Wire(m.content)| && !m.content.ToEnd?
    ensures r.Ok? && m.content.ToEnd? ==> r.value.body == sent
  {
    var k := AnswerFollowsHead(m, sent, n, r);
    CutBody(m, sent, k);
  }

  /** A response whose last bytes are lost is answered with an error, wherever it is cut off, except
      that one whose body runs to the end of the stream cannot be told from a shorter one once its head
      is complete. */
  lemma TruncationDetected(m: Message, cut: Bytes, lost: Bytes, n: nat, r: Result<Response, HttpError>)
    requires Sendable(m) && cut + lost == Head(m) + Wire(m.content) && IsAnswer(cut, n, r)
    ensures r.Err? <==> |cut| < |Head(m)| || (lost != [] && !m.content.ToEnd?)
    ensures r.Ok? && m.content.ToEnd? ==> r.value.body == m.content.bytes[..|cut| - |Head(m)|]
  {
    var head, wire := |Head(m)|, Wire(m.content);
    if |cut| < head {
      CutHead(m, wire, cut, lost, n, r);
    } else {
      CutInside(Head(m), wire, cut, lost);
      CutAfterHead(m, wire[..|cut| - head], n, r);
    }
  }

  lemma CutInside(head: Bytes, wire: Bytes, cut: Bytes, lost: Bytes)
    requires cut + lost == head + wire && |cut| >= |head|
    ensures |cut| - |head| <= |wire| && cut == head + wire[..|cut| - |head|]
    ensures |cut| - |head| < |wire| <==> lost != []
  {
    assert |cut + lost| == |head + wire|;
    assert cut == (head + wire)[..|cut|];
  }

  // ---- Bytes after a body with Content-Length -------------------------------------------------

  lemma OverreadBody(bytes: Bytes, after: Bytes, k: nat)
    requires |bytes| <= MAX_BODY_SIZE && k <= |bytes| + |after|
    ensures
      var sent := bytes + after;
      BodyOf(ByLength(Some(|bytes|)), sent[..k], sent[k..]) ==
        Ok(if k <= |bytes| then bytes else bytes + after[..k - |bytes|])
  {
    var sent := bytes + after;
    if k <= |bytes| {
      assert sent[..k] + sent[k..][..|bytes| - k] == bytes;
    } else {
      assert sent[..k] == bytes + after[..k - |bytes|];
    }
  }

  /** With bytes after a Content-Length body, the answer is right exactly when no more of them than the
      body were read together with the head; otherwise it carries all that were read. */
  lemma OverreadIsKept(m: Message, after: Bytes, n: nat, r: Result<Response, HttpError>)
    requires Sendable(m) && m.content.Fixed? && IsAnswer(Head(m) + (m.content.bytes + after), n, r)
    ensures n <= |Head(m)| + |m.content.bytes| + |after|
    ensures
      var end := |Head(m)| + |m.content.bytes|;
      && (r == Ok(Response(m.status, m.headers, m.content.bytes)) <==> n <= end)
      && (n > end ==> r == Ok(Response(m.status, m.headers, m.content.bytes + after[..n - end])))
  {
    var bytes := m.content.bytes;
    var k := AnswerFollowsHead(m, bytes + after, n, r);
    AnnouncedFraming(m.headers, m.content);
    OverreadBody(bytes, after, k);
    assert r == Ok(Response(m.status, m.headers, if k <= |bytes| then bytes else bytes + after[..k - |bytes|]));
  }

  /** For instance: one byte announced, two sent, both read with the head: the body has two bytes. */
  lemma OverreadExample() returns (m: Message, n: nat, r: Result<Response, HttpError>)
    ensures Sendable(m) && m.content == Fixed([97]) && n == |Head(m)| + 2
    ensures IsAnswer(Head(m) + ([97] + [98]), n, r)
    ensures r == Ok(Response(m.status, m.headers, [97, 98]))
  {
    var h := Header(CONTENT_LENGTH, ToDigits(1, 10));
    m := Message(200, [], [h], Fixed([97]));
    n := |Head(m)| + 2;
    r := Ok(Response(200, [h], [97, 98]));
    ExampleIsSendable(m, h);
    var input, p := Head(m) + ([97] + [98]), |Head(m)|;
    HeadIsFound(m, [97] + [98]);
    assert input[..p] == Head(m) && input[p..n] == [97, 98] && input[n..] == [];
    HeadParses(m, [97, 98], []);
    assert HeadRead(input, p, n);
  }

  lemma ExampleIsSendable(m: Message, h: Header)
    requires h == Header(CONTENT_LENGTH, ToDigits(1, 10)) && m == Message(200, [], [h], Fixed([97]))
    ensures Sendable(m)
  {
    ExampleHeader(h);
    assert |Serialized([h])| < 50 by {
      assert Serialized([h][1..]) == [];
    }
    assert |ToDigits(200, 10)| == 3;
    assert |Head(m)| < 100;
  }

  lemma ExampleHeader(h: Header)
    requires h == Header(CONTENT_LENGTH, ToDigits(1, 10))
    ensures GoodHeader(h) && |h.value| == 1 && Announced([h], Fixed([97]))
  {
    ParseRoundTrip(1, 10, USIZE_MAX);
    ExampleHeaderIsGood(h);
  }

  lemma ExampleHeaderIsGood(h: Header)
    requires h == Header(CONTENT_LENGTH, ToDigits(1, 10))
    ensures GoodHeader(h) && |h.value| == 1
  {
    NameIsGood();
    assert h.value == [49];
    AsciiIsValid(h.value);
  }

  lemma NameIsGood()
    ensures Clean(CONTENT_LENGTH) && Find(CONTENT_LENGTH, COLON) == |CONTENT_LENGTH| && ValidUtf8(CONTENT_LENGTH)
  {
    PlainName("Content-Length");
  }

  lemma PlainName(s: string)
    requires forall i | 0 <= i < |s| :: '-' <= s[i] <= '9' || 'A' <= s[i] <= 'z'
    ensures Clean(Ascii(s)) && Find(Ascii(s), COLON) == |Ascii(s)| && ValidUtf8(Ascii(s))
  {
    AsciiIsValid(Ascii(s));
    FindLacks(Ascii(s), COLON);
  }
}
