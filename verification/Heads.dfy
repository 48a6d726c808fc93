/** A message head: a start line, header lines, a blank line; and where it ends
    (`src/http.rs:122-134`). */
module Heads {
  import opened Options
  import opened Text
  import opened Headers

  /** p is the position just after a CRLFCRLF. */
  predicate IsHeadEnd(buf: Bytes, p: int) {
    4 <= p <= |buf| && buf[p - 4] == CR && buf[p - 3] == LF && buf[p - 2] == CR && buf[p - 1] == LF
  }

  predicate NoHeadEndBefore(buf: Bytes, p: int) {
    forall q | 0 <= q < p :: !IsHeadEnd(buf, q)
  }

  predicate FirstHeadEnd(buf: Bytes, p: int) {
    IsHeadEnd(buf, p) && NoHeadEndBefore(buf, p)
  }

  lemma FourBytes(buf: Bytes, i: nat)
    requires i + 4 <= |buf|
    ensures IsHeadEnd(buf, i + 4) <==> buf[i..i + 4] == [CR, LF, CR, LF]
  {
    var four := buf[i..i + 4];
    assert four[0] == buf[i] && four[1] == buf[i + 1] && four[2] == buf[i + 2] && four[3] == buf[i + 3];
  }

  method MemchrCrlfCrlf(buf: Bytes) returns (r: Option<nat>)
    ensures r.Some? ==> FirstHeadEnd(buf, r.value)
    ensures r.None? ==> NoHeadEndBefore(buf, |buf| + 1)
  {
    if |buf| < 4 {
      return None;
    }
    for i := 0 to |buf| - 3
      invariant NoHeadEndBefore(buf, i + 4)
    {
      FourBytes(buf, i);
      if buf[i..i + 4] == [CR, LF, CR, LF] {
        return Some(i + 4);
      }
    }
    return None;
  }

  /** Where the head ends does not depend on what follows it. */
  lemma HeadEndExtends(buf: Bytes, more: Bytes, p: int)
    requires FirstHeadEnd(buf, p)
    ensures FirstHeadEnd(buf + more, p)
  {
    forall q | 0 <= q < p ensures !IsHeadEnd(buf + more, q) {
      assert !IsHeadEnd(buf, q);
    }
  }

  lemma HeadEndUnique(buf: Bytes, p: int, q: int)
    requires FirstHeadEnd(buf, p) && FirstHeadEnd(buf, q)
    ensures p == q
  {
  }

  function HeadBytes(start: Bytes, hs: seq<Header>): Bytes {
    start + CRLF + Serialized(hs) + CRLF
  }

  lemma HeadBytesStep(start: Bytes, hs: seq<Header>)
    requires hs != []
    ensures HeadBytes(start, hs) == start + CRLF + HeadBytes(HeaderLine(hs[0]), hs[1..])
  {
  }

  lemma {:induction false} HeadEndsOnce(start: Bytes, hs: seq<Header>, body: Bytes)
    requires start != [] && Clean(start) && forall h | h in hs :: Clean(h.name) && Clean(h.value)
    ensures FirstHeadEnd(HeadBytes(start, hs) + body, |HeadBytes(start, hs)|)
    decreases hs
  {
    var buf, n := HeadBytes(start, hs) + body, |start|;
    if hs == [] {
      assert buf == start + CRLF + CRLF + body;
      forall q | 0 <= q < n + 4 ensures !IsHeadEnd(buf, q) {
      }
    } else {
      var line := HeaderLine(hs[0]);
      var rest := HeadBytes(line, hs[1..]) + body;
      HeadBytesStep(start, hs);
      assert buf == start + CRLF + rest;
      assert Clean(line);
      HeadEndsOnce(line, hs[1..], body);
      assert IsHeadEnd(rest, |HeadBytes(line, hs[1..])|);
      forall q | 0 <= q < |HeadBytes(start, hs)| ensures !IsHeadEnd(buf, q) {
        if q >= n + 6 {
          assert !IsHeadEnd(rest, q - n - 2);
        } else if q == n + 4 {
          assert buf[n + 2] == rest[0] == line[0];
        }
      }
    }
  }

  /** The text after the start line parses to the headers. */
  lemma HeadersOfHead(start: Bytes, hs: seq<Header>)
    requires Clean(start) && forall h | h in hs :: Normal(h)
    ensures FindCrlf(HeadBytes(start, hs)) == |start|
    ensures HeadersOf(HeadBytes(start, hs)[|start| + 2..]) == hs
  {
    var tail := Serialized(hs) + CRLF;
    assert HeadBytes(start, hs) == start + CRLF + tail;
    FindCrlfAfter(start, tail);
    assert HeadBytes(start, hs)[|start| + 2..] == tail;
    SerializedParses(hs, CRLF);
    assert [] + CRLF + [] == CRLF;
    HeadersOfCons([], []);
    ParseLinesOne([]);
  }
}
