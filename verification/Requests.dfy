/** The request bytes that are sent (`src/http.rs:59-134`, `src/uds.rs:18-26`). */
module Requests {
  import opened Options
  import opened Text
  import opened TextTheorems
  import opened Headers
  import opened Heads

  const CONTENT_LENGTH: Bytes := Ascii("Content-Length")
  const TRANSFER_ENCODING: Bytes := Ascii("Transfer-Encoding")
  const HOST: Bytes := Ascii("Host")
  const CONNECTION: Bytes := Ascii("Connection")
  const CLOSE: Bytes := Ascii("close")

  predicate SameName(a: Bytes, b: Bytes) {
    LowerAll(a) == LowerAll(b)
  }

  /** The value of the first header with this name, ignoring ASCII case. */
  function HeaderLookup(hs: seq<Header>, name: Bytes): Option<Bytes> {
    if hs == [] then None
    else if SameName(hs[0].name, name) then Some(hs[0].value)
    else HeaderLookup(hs[1..], name)
  }

  /** `header_lookup` finds a value exactly if some header has the name, and then that of the first. */
  lemma {:induction false} LookupIsFirst(hs: seq<Header>, name: Bytes, value: Bytes)
    ensures HeaderLookup(hs, name) == Some(value) <==>
            exists k | 0 <= k < |hs| ::
              hs[k] == Header(hs[k].name, value) && EqualIgnoringCase(hs[k].name, name)
              && forall j | 0 <= j < k :: !EqualIgnoringCase(hs[j].name, name)
    ensures HeaderLookup(hs, name).None? <==> forall k | 0 <= k < |hs| :: !EqualIgnoringCase(hs[k].name, name)
  {
    if hs != [] {
      LowerAllExact(hs[0].name, name);
      LookupIsFirst(hs[1..], name, value);
      assert forall k | 0 < k < |hs| :: hs[k] == hs[1..][k - 1];
      assert forall k | 0 <= k < |hs| - 1 :: hs[1..][k] == hs[k + 1];
    }
  }

  function Default(hs: seq<Header>, name: Bytes, value: Bytes): seq<Header> {
    if HeaderLookup(hs, name).Some? then [] else [Header(name, value)]
  }

  /** `add_default_headers`: missing defaults go at the end. */
  function WithDefaults(hs: seq<Header>, bodyLen: nat, host: Bytes): seq<Header> {
    hs + Default(hs, CONTENT_LENGTH, ToDigits(bodyLen, 10)) + Default(hs, HOST, host) + Default(hs, CONNECTION, CLOSE)
  }

  lemma {:induction false} LookupAppend(hs: seq<Header>, more: seq<Header>, name: Bytes)
    ensures HeaderLookup(hs + more, name) ==
            if HeaderLookup(hs, name).Some? then HeaderLookup(hs, name) else HeaderLookup(more, name)
  {
    if hs == [] {
      assert hs + more == more;
    } else {
      LookupAppend(hs[1..], more, name);
      assert (hs + more)[1..] == hs[1..] + more;
    }
  }

  lemma LookupDefault(hs: seq<Header>, name: Bytes, value: Bytes, n: Bytes)
    ensures HeaderLookup(Default(hs, name, value), n) ==
            if HeaderLookup(hs, name).None? && SameName(name, n) then Some(value) else None
  {
    assert [Header(name, value)][1..] == [];
  }

  lemma NamesDiffer()
    ensures !SameName(CONTENT_LENGTH, HOST)
    ensures !SameName(CONTENT_LENGTH, CONNECTION)
    ensures !SameName(HOST, CONNECTION)
    ensures !SameName(CONTENT_LENGTH, TRANSFER_ENCODING)
  {
    assert |LowerAll(CONTENT_LENGTH)| == 14;
    assert |LowerAll(HOST)| == 4;
    assert |LowerAll(CONNECTION)| == 10;
    assert |LowerAll(TRANSFER_ENCODING)| == 17;
  }

  method AddDefaultHeaders(headers: seq<Header>, body: Bytes, host: Bytes) returns (out: seq<Header>)
    ensures out == WithDefaults(headers, |body|, host)
  {
    var hasContentLength, hasHost, hasConnection := false, false, false;
    NamesDiffer();
    for k := 0 to |headers|
      invariant hasContentLength == HeaderLookup(headers[..k], CONTENT_LENGTH).Some?
      invariant hasHost == HeaderLookup(headers[..k], HOST).Some?
      invariant hasConnection == HeaderLookup(headers[..k], CONNECTION).Some?
    {
      LookupAppend(headers[..k], [headers[k]], CONTENT_LENGTH);
      LookupAppend(headers[..k], [headers[k]], HOST);
      LookupAppend(headers[..k], [headers[k]], CONNECTION);
      assert headers[..k + 1] == headers[..k] + [headers[k]];
      if SameName(headers[k].name, CONTENT_LENGTH) {
        hasContentLength := true;
      } else if SameName(headers[k].name, HOST) {
        hasHost := true;
      } else if SameName(headers[k].name, CONNECTION) {
        hasConnection := true;
      }
    }
    assert headers[..|headers|] == headers;
    out := headers;
    if !hasContentLength {
      out := out + [Header(CONTENT_LENGTH, ToDigits(|body|, 10))];
    }
    if !hasHost {
      out := out + [Header(HOST, host)];
    }
    if !hasConnection {
      out := out + [Header(CONNECTION, CLOSE)];
    }
  }

  lemma LookupWithDefaults(hs: seq<Header>, bodyLen: nat, host: Bytes, n: Bytes)
    ensures HeaderLookup(WithDefaults(hs, bodyLen, host), n) ==
            if HeaderLookup(hs, n).Some? then HeaderLookup(hs, n)
            else if HeaderLookup(hs, CONTENT_LENGTH).None? && SameName(CONTENT_LENGTH, n)
            then Some(ToDigits(bodyLen, 10))
            else if HeaderLookup(hs, HOST).None? && SameName(HOST, n) then Some(host)
            else if HeaderLookup(hs, CONNECTION).None? && SameName(CONNECTION, n) then Some(CLOSE)
            else None
  {
    var a := Default(hs, CONTENT_LENGTH, ToDigits(bodyLen, 10));
    var b := Default(hs, HOST, host);
    var c := Default(hs, CONNECTION, CLOSE);
    LookupAppend(hs, a, n);
    LookupAppend(hs + a, b, n);
    LookupAppend(hs + a + b, c, n);
    LookupDefault(hs, CONTENT_LENGTH, ToDigits(bodyLen, 10), n);
    LookupDefault(hs, HOST, host, n);
    LookupDefault(hs, CONNECTION, CLOSE, n);
  }

  /** No lookup that succeeded changes; the three defaults are there afterwards. */
  lemma DefaultsKeepLookups(hs: seq<Header>, bodyLen: nat, host: Bytes)
    ensures
      var out := WithDefaults(hs, bodyLen, host);
      && (forall n | HeaderLookup(hs, n).Some? :: HeaderLookup(out, n) == HeaderLookup(hs, n))
      && HeaderLookup(out, CONTENT_LENGTH) ==
         (if HeaderLookup(hs, CONTENT_LENGTH).Some? then HeaderLookup(hs, CONTENT_LENGTH)
          else Some(ToDigits(bodyLen, 10)))
      && HeaderLookup(out, HOST) == (if HeaderLookup(hs, HOST).Some? then HeaderLookup(hs, HOST) else Some(host))
      && HeaderLookup(out, CONNECTION) ==
         (if HeaderLookup(hs, CONNECTION).Some? then HeaderLookup(hs, CONNECTION) else Some(CLOSE))
  {
    NamesDiffer();
    forall n
      ensures HeaderLookup(hs, n).Some? ==> HeaderLookup(WithDefaults(hs, bodyLen, host), n) == HeaderLookup(hs, n)
    {
      LookupWithDefaults(hs, bodyLen, host, n);
    }
    LookupWithDefaults(hs, bodyLen, host, CONTENT_LENGTH);
    LookupWithDefaults(hs, bodyLen, host, HOST);
    LookupWithDefaults(hs, bodyLen, host, CONNECTION);
  }

  /** The caller's headers come first and unchanged; after them come exactly those of the three defaults
      whose names none of them has, whatever the case, in this order. */
  lemma DefaultsAppend(hs: seq<Header>, bodyLen: nat, host: Bytes)
    ensures
      var length := Header(Ascii("Content-Length"), ToDigits(bodyLen, 10));
      var hostname, connection := Header(Ascii("Host"), host), Header(Ascii("Connection"), Ascii("close"));
      WithDefaults(hs, bodyLen, host) ==
        hs
        + (if HasHeader(hs, length.name) then [] else [length])
        + (if HasHeader(hs, hostname.name) then [] else [hostname])
        + (if HasHeader(hs, connection.name) then [] else [connection])
  {
    LookupIsFirst(hs, CONTENT_LENGTH, []);
    LookupIsFirst(hs, HOST, []);
    LookupIsFirst(hs, CONNECTION, []);
  }

  predicate HasHeader(hs: seq<Header>, name: Bytes) {
    exists k | 0 <= k < |hs| :: EqualIgnoringCase(hs[k].name, name)
  }

  /** Adding defaults twice, with another body or host the second time, adds them once: the request
      over the socket keeps Host "unix" although `http::build_request` would fill in "localhost". */
  lemma DefaultsIdempotent(hs: seq<Header>, bodyLen: nat, host: Bytes, bodyLen2: nat, host2: Bytes)
    ensures WithDefaults(WithDefaults(hs, bodyLen, host), bodyLen2, host2) == WithDefaults(hs, bodyLen, host)
  {
    DefaultsKeepLookups(hs, bodyLen, host);
  }

  // ---- The bytes of a request -----------------------------------------------------------------

  const SPACE: Bytes := [32]
  const HTTP11: Bytes := Ascii(" HTTP/1.1")

  function RequestLine(httpMethod: Bytes, path: Bytes): Bytes {
    httpMethod + SPACE + path + HTTP11
  }

  /** `http::build_request`. */
  method BuildRequest(httpMethod: Bytes, path: Bytes, headers: seq<Header>, body: Bytes) returns (req: Bytes)
    ensures req == HeadBytes(RequestLine(httpMethod, path), WithDefaults(headers, |body|, Ascii("localhost"))) + body
    ensures StartsWithLine(req, httpMethod, path)
  {
    SentStartsWithLine(httpMethod, path, WithDefaults(headers, |body|, Ascii("localhost")), body);
    var all := AddDefaultHeaders(headers, body, Ascii("localhost"));
    req := httpMethod;
    req := req + SPACE;
    req := req + path;
    req := req + HTTP11;
    req := req + CRLF;
    ghost var start := req;
    assert Serialized(all[..0]) == [];
    for k := 0 to |all|
      invariant req == start + Serialized(all[..k])
    {
      AppendHeader(start, all, k);
      req := req + all[k].name;
      req := req + SEPARATOR;
      req := req + all[k].value;
      req := req + CRLF;
    }
    assert all[..|all|] == all;
    req := req + CRLF;
    req := req + body;
  }

  lemma AppendHeader(start: Bytes, hs: seq<Header>, k: nat)
    requires k < |hs|
    ensures start + Serialized(hs[..k]) + hs[k].name + SEPARATOR + hs[k].value + CRLF == start + Serialized(hs[..k + 1])
  {
    SerializedAppend(hs[..k], hs[k]);
    assert hs[..k + 1] == hs[..k] + [hs[k]];
    var line := hs[k].name + SEPARATOR + hs[k].value;
    assert start + Serialized(hs[..k]) + hs[k].name + SEPARATOR + hs[k].value + CRLF
        == start + (Serialized(hs[..k]) + line + CRLF);
  }

  /** `uds::build_request`: the defaults of the socket transport first, then those of `http`. */
  method BuildUdsRequest(httpMethod: Bytes, path: Bytes, headers: seq<Header>, body: Bytes) returns (req: Bytes)
    ensures req == HeadBytes(RequestLine(httpMethod, path), WithDefaults(headers, |body|, Ascii("unix"))) + body
    ensures StartsWithLine(req, httpMethod, path)
  {
    var all := AddDefaultHeaders(headers, body, Ascii("unix"));
    req := BuildRequest(httpMethod, path, all, body);
    DefaultsIdempotent(headers, |body|, Ascii("unix"), |body|, Ascii("localhost"));
  }

  predicate CleanHeader(h: Header) {
    Clean(h.name) && Clean(h.value)
  }

  lemma DefaultsAreClean(hs: seq<Header>, bodyLen: nat, host: Bytes)
    requires (forall h | h in hs :: CleanHeader(h)) && Clean(host)
    ensures forall h | h in WithDefaults(hs, bodyLen, host) :: CleanHeader(h)
  {
    assert Clean(ToDigits(bodyLen, 10));
    assert Clean(CONTENT_LENGTH) && Clean(HOST) && Clean(CONNECTION) && Clean(CLOSE);
  }

  lemma RequestLineIsClean(httpMethod: Bytes, path: Bytes)
    requires Clean(httpMethod) && Clean(path)
    ensures Clean(RequestLine(httpMethod, path)) && RequestLine(httpMethod, path) != []
  {
    assert Clean(HTTP11);
  }

  /** The eight bytes of HTTP/1.1, and the first line they end. */
  predicate StartsWithLine(sent: Bytes, httpMethod: Bytes, path: Bytes) {
    httpMethod + [32] + path + [32] + [72, 84, 84, 80, 47, 49, 46, 49] + [13, 10] <= sent
  }

  lemma SentStartsWithLine(httpMethod: Bytes, path: Bytes, hs: seq<Header>, body: Bytes)
    ensures StartsWithLine(HeadBytes(RequestLine(httpMethod, path), hs) + body, httpMethod, path)
  {
    var line := RequestLine(httpMethod, path);
    assert HTTP11 == [32] + [72, 84, 84, 80, 47, 49, 46, 49];
    assert line == httpMethod + [32] + path + [32] + [72, 84, 84, 80, 47, 49, 46, 49];
    assert HeadBytes(line, hs) + body == line + [13, 10] + (Serialized(hs) + CRLF + body);
  }

  /** What a receiver reads from the first line: for a method and a path without spaces, the bytes up to the
      first space are the method, those up to the next are the path, and HTTP/1.1 ends the line. */
  lemma RequestLineIsRead(sent: Bytes, httpMethod: Bytes, path: Bytes)
    requires StartsWithLine(sent, httpMethod, path)
    requires Lacks(httpMethod, 32) && Lacks(path, 32)
    ensures Find(sent, 32) == |httpMethod| && sent[..|httpMethod|] == httpMethod
    ensures
      var rest := sent[|httpMethod| + 1..];
      && Find(rest, 32) == |path| && rest[..|path|] == path
      && rest[|path| + 1..|path| + 11] == [72, 84, 84, 80, 47, 49, 46, 49, 13, 10]
  {
    var m, p := |httpMethod|, |path|;
    var start := httpMethod + [32] + path + [32] + [72, 84, 84, 80, 47, 49, 46, 49] + [13, 10];
    assert sent[..|start|] == start;
    assert forall i | 0 <= i < |start| :: sent[i] == start[i];
    FindAt(sent, 32, m);
    var rest := sent[m + 1..];
    assert forall i | 0 <= i < p + 11 :: rest[i] == start[m + 1 + i];
    FindAt(rest, 32, p);
  }

  lemma AddedLengthParses(headers: seq<Header>, bodyLen: nat, host: Bytes)
    requires HeaderLookup(headers, CONTENT_LENGTH).None? ==> bodyLen <= USIZE_MAX
    ensures
      var length := HeaderLookup(WithDefaults(headers, bodyLen, host), CONTENT_LENGTH);
      HeaderLookup(headers, CONTENT_LENGTH).None? ==>
        length.Some? && ParseUnsigned(length.value, 10, USIZE_MAX) == Some(bodyLen)
  {
    LookupWithDefaults(headers, bodyLen, host, CONTENT_LENGTH);
    if HeaderLookup(headers, CONTENT_LENGTH).None? {
      ParseRoundTrip(bodyLen, 10, USIZE_MAX);
    }
  }

  /** The first blank line of the message ends its head, what follows is the body, and normal headers are
      parsed back as they were sent. */
  ghost predicate Framed(start: Bytes, hs: seq<Header>, body: Bytes) {
    var head := HeadBytes(start, hs);
    && FirstHeadEnd(head + body, |head|) && (head + body)[|head|..] == body
    && ((forall h | h in hs :: Normal(h)) ==> HeadersOf(head[|start| + 2..]) == hs)
  }

  lemma HeadIsFramed(start: Bytes, hs: seq<Header>, body: Bytes)
    requires start != [] && Clean(start) && forall h | h in hs :: CleanHeader(h)
    ensures Framed(start, hs, body)
  {
    HeadEndsOnce(start, hs, body);
    if forall h | h in hs :: Normal(h) {
      HeadersOfHead(start, hs);
    }
  }

  /** For a method, path and headers without CR and LF: the first blank line of the request ends its
      head, what follows is the body, and the Content-Length a receiver looks up, if the caller gave
      none, is the number of bytes in it; normal headers are parsed back as they were sent. */
  lemma RequestIsFramed(httpMethod: Bytes, path: Bytes, headers: seq<Header>, body: Bytes, host: Bytes)
    requires Clean(httpMethod) && Clean(path) && Clean(host) && forall h | h in headers :: CleanHeader(h)
    requires |body| <= USIZE_MAX
    ensures
      var hs := WithDefaults(headers, |body|, host);
      && Framed(RequestLine(httpMethod, path), hs, body)
      && (HeaderLookup(headers, CONTENT_LENGTH).None? ==>
            && HeaderLookup(hs, CONTENT_LENGTH).Some?
            && ParseUnsigned(HeaderLookup(hs, CONTENT_LENGTH).value, 10, USIZE_MAX) == Some(|body|))
  {
    var hs := WithDefaults(headers, |body|, host);
    RequestLineIsClean(httpMethod, path);
    DefaultsAreClean(headers, |body|, host);
    HeadIsFramed(RequestLine(httpMethod, path), hs, body);
    AddedLengthParses(headers, |body|, host);
  }
}
