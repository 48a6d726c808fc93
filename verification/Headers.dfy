/** Header lists, the two parsers that read them and the serializer (`src/http.rs:43-57, 249-279`). */
module Headers {
  import opened Options
  import opened Text

  datatype Header = Header(name: Bytes, value: Bytes)

  const SEPARATOR: Bytes := [58, 32]

  // ---- parse_headers: CRLF lines --------------------------------------------------------------

  function ParseLine(line: Bytes): Option<Header> {
    var i := Find(line, COLON);
    if i == |line| then None else Some(Header(line[..i], TrimStart(line[i + 1..])))
  }

  function ParseLines(lines: seq<Bytes>): seq<Header> {
    if lines == [] then []
    else
      var last := ParseLine(lines[|lines| - 1]);
      ParseLines(lines[..|lines| - 1]) + (if last.Some? then [last.value] else [])
  }

  function HeadersOf(raw: Bytes): seq<Header> {
    ParseLines(SplitCrlf(raw))
  }

  method ParseHeaders(raw: Bytes) returns (out: seq<Header>)
    ensures out == HeadersOf(raw)
  {
    out := [];
    var lines := SplitCrlf(raw);
    for k := 0 to |lines|
      invariant out == ParseLines(lines[..k])
    {
      var line := lines[k];
      assert lines[..k + 1][..k] == lines[..k];
      if line != [] {
        var idx := Find(line, COLON);
        if idx < |line| {
          out := out + [Header(line[..idx], TrimStart(line[idx + 1..]))];
        }
      }
    }
    assert lines[..|lines|] == lines;
  }

  // ---- parse_header_lines: LF lines, trimmed --------------------------------------------------

  function ParseTrimmedLine(raw: Bytes): Option<Header> {
    var parsed := ParseLine(Trim(TrimEndCr(raw)));
    if parsed.Some? && parsed.value.name != [] then parsed else None
  }

  function ParseTrimmedLines(lines: seq<Bytes>): seq<Header> {
    if lines == [] then []
    else
      var last := ParseTrimmedLine(lines[|lines| - 1]);
      ParseTrimmedLines(lines[..|lines| - 1]) + (if last.Some? then [last.value] else [])
  }

  function HeaderLinesOf(input: Bytes): seq<Header> {
    ParseTrimmedLines(SplitOn(input, LF))
  }

  lemma OneMoreTrimmedLine(lines: seq<Bytes>, k: nat)
    requires k < |lines|
    ensures ParseTrimmedLines(lines[..k + 1]) ==
            ParseTrimmedLines(lines[..k])
            + (if ParseTrimmedLine(lines[k]).Some? then [ParseTrimmedLine(lines[k]).value] else [])
  {
    assert lines[..k + 1][..k] == lines[..k];
  }

  method ParseHeaderLines(input: Bytes) returns (headers: seq<Header>)
    ensures headers == HeaderLinesOf(input)
  {
    headers := [];
    var lines := SplitOn(input, LF);
    for k := 0 to |lines|
      invariant headers == ParseTrimmedLines(lines[..k])
    {
      OneMoreTrimmedLine(lines, k);
      var line := Trim(TrimEndCr(lines[k]));
      if line != [] {
        var idx := Find(line, COLON);
        if idx < |line| {
          var name, value := line[..idx], TrimStart(line[idx + 1..]);
          if name != [] {
            headers := headers + [Header(name, value)];
          }
        }
      }
    }
    assert lines[..|lines|] == lines;
  }

  // ---- serialize_headers ----------------------------------------------------------------------

  function HeaderLine(h: Header): Bytes {
    h.name + SEPARATOR + h.value
  }

  function Serialized(hs: seq<Header>): Bytes {
    if hs == [] then [] else HeaderLine(hs[0]) + CRLF + Serialized(hs[1..])
  }

  lemma {:induction false} SerializedAppend(hs: seq<Header>, h: Header)
    ensures Serialized(hs + [h]) == Serialized(hs) + HeaderLine(h) + CRLF
  {
    if hs == [] {
      assert hs + [h] == [h];
    } else {
      SerializedAppend(hs[1..], h);
      assert (hs + [h])[1..] == hs[1..] + [h];
    }
  }

  method SerializeHeaders(headers: seq<Header>) returns (s: Bytes)
    ensures s == Serialized(headers)
  {
    s := [];
    for k := 0 to |headers|
      invariant s == Serialized(headers[..k])
    {
      SerializedAppend(headers[..k], headers[k]);
      assert headers[..k + 1] == headers[..k] + [headers[k]];
      s := s + headers[k].name;
      s := s + SEPARATOR;
      s := s + headers[k].value;
      s := s + CRLF;
    }
    assert headers[..|headers|] == headers;
  }

  // ---- Normal forms ---------------------------------------------------------------------------

  /** What `parse_headers` gives back unchanged after serialization. */
  predicate Normal(h: Header) {
    Find(h.name, COLON) == |h.name| && NoCrlf(h.name) && NoCrlf(h.value) && TrimStart(h.value) == h.value
  }

  /** What `parse_header_lines` gives back unchanged. */
  predicate TrimmedNormal(h: Header) {
    && Find(h.name, COLON) == |h.name| && Lacks(h.name, LF) && Lacks(h.value, LF)
    && h.name != [] && !IsSpace(h.name[0])
    && (h.value != [] ==> !IsSpace(h.value[0]) && !IsSpace(h.value[|h.value| - 1]))
  }

  lemma NormalLine(h: Header)
    requires Normal(h)
    ensures NoCrlf(HeaderLine(h)) && ParseLine(HeaderLine(h)) == Some(h)
  {
    var line := HeaderLine(h);
    var n := |h.name|;
    forall i | 0 <= i < |line| ensures !IsCrlf(line, i) {
      if i + 1 < n {
        assert !IsCrlf(h.name, i);
      } else if i >= n + 2 {
        assert !IsCrlf(h.value, i - n - 2);
      }
    }
    assert line == h.name + [COLON] + ([SP] + h.value);
    ColonSplits(h.name, [SP] + h.value);
    assert ([SP] + h.value)[1..] == h.value;
  }

  lemma NameLacksColon(line: Bytes, i: nat)
    requires i == Find(line, COLON)
    ensures Find(line[..i], COLON) == |line[..i]|
  {
    FindLacks(line[..i], COLON);
  }

  lemma SuffixHasNoCrlf(s: Bytes, t: Bytes)
    requires NoCrlf(s) && IsSuffix(t, s)
    ensures NoCrlf(t)
  {
    NoCrlfSlice(s, |s| - |t|, |s|);
    assert s[|s| - |t|..|s|] == t;
  }

  lemma ParsedLineIsNormal(line: Bytes)
    requires NoCrlf(line) && ParseLine(line).Some?
    ensures Normal(ParseLine(line).value)
  {
    var i := Find(line, COLON);
    var rest := line[i + 1..];
    NameLacksColon(line, i);
    NoCrlfSlice(line, 0, i);
    assert line[0..i] == line[..i];
    SuffixHasNoCrlf(line, rest);
    TrimStartCuts(rest);
    SuffixHasNoCrlf(rest, TrimStart(rest));
  }

  lemma {:induction false} ParsedLinesAreNormal(lines: seq<Bytes>)
    requires forall k | 0 <= k < |lines| :: NoCrlf(lines[k])
    ensures forall h | h in ParseLines(lines) :: Normal(h)
  {
    if lines != [] {
      ParsedLinesAreNormal(lines[..|lines| - 1]);
      var last := lines[|lines| - 1];
      if ParseLine(last).Some? {
        ParsedLineIsNormal(last);
      }
    }
  }

  lemma ParsedHeadersAreNormal(raw: Bytes)
    ensures forall h | h in HeadersOf(raw) :: Normal(h)
  {
    SplitCrlfPieces(raw);
    ParsedLinesAreNormal(SplitCrlf(raw));
  }

  lemma {:induction false} ParseLinesCons(line: Bytes, lines: seq<Bytes>)
    ensures ParseLines([line] + lines) == ParseLines([line]) + ParseLines(lines)
  {
    if lines != [] {
      var all := [line] + lines;
      assert all[..|all| - 1] == [line] + lines[..|lines| - 1];
      ParseLinesCons(line, lines[..|lines| - 1]);
    } else {
      assert [line] + lines == [line];
    }
  }

  lemma ParseLinesOne(line: Bytes)
    ensures ParseLines([line]) == (if ParseLine(line).Some? then [ParseLine(line).value] else [])
    ensures ParseTrimmedLines([line]) ==
            (if ParseTrimmedLine(line).Some? then [ParseTrimmedLine(line).value] else [])
  {
    var lines := [line];
    assert lines[..|lines| - 1] == [];
  }

  lemma HeadersOfCons(line: Bytes, tail: Bytes)
    requires NoCrlf(line)
    ensures HeadersOf(line + CRLF + tail) == ParseLines([line]) + HeadersOf(tail)
  {
    SplitCrlfCons(line, tail);
    ParseLinesCons(line, SplitCrlf(tail));
  }

  /** A line without a colon contributes no header. */
  lemma LineWithoutColon(line: Bytes, tail: Bytes)
    requires NoCrlf(line) && Lacks(line, COLON)
    ensures HeadersOf(line + CRLF + tail) == HeadersOf(tail)
    ensures HeadersOf(line) == []
  {
    FindLacks(line, COLON);
    HeadersOfCons(line, tail);
    ParseLinesOne(line);
    FindCrlfNone(line);
  }

  /** A line with a colon contributes what is before its first colon, and what is after it without leading
      whitespace. */
  lemma LineWithColon(name: Bytes, rest: Bytes, tail: Bytes)
    requires Lacks(name, COLON) && NoCrlf(name + [COLON] + rest)
    ensures HeadersOf(name + [COLON] + rest + CRLF + tail) == [Header(name, TrimStart(rest))] + HeadersOf(tail)
    ensures HeadersOf(name + [COLON] + rest) == [Header(name, TrimStart(rest))]
  {
    var line := name + [COLON] + rest;
    FindLacks(name, COLON);
    ColonSplits(name, rest);
    HeadersOfCons(line, tail);
    ParseLinesOne(line);
    FindCrlfNone(line);
  }

  /** The serialization of normal headers, followed by any text, parses to those headers followed by
      what the text parses to. */
  lemma {:induction false} SerializedParses(hs: seq<Header>, rest: Bytes)
    requires forall h | h in hs :: Normal(h)
    ensures HeadersOf(Serialized(hs) + rest) == hs + HeadersOf(rest)
  {
    if hs == [] {
      assert Serialized(hs) + rest == rest;
    } else {
      var h, line, tail := hs[0], HeaderLine(hs[0]), Serialized(hs[1..]) + rest;
      calc {
        HeadersOf(Serialized(hs) + rest);
        { assert Serialized(hs) + rest == line + CRLF + tail; }
        HeadersOf(line + CRLF + tail);
        { NormalLine(h); HeadersOfCons(line, tail); ParseLinesOne(line); }
        [h] + HeadersOf(tail);
        { SerializedParses(hs[1..], rest); }
        [h] + (hs[1..] + HeadersOf(rest));
        { assert [h] + hs[1..] == hs; }
        hs + HeadersOf(rest);
      }
    }
  }

  /** Exactly the normal lists survive serialization and `parse_headers`. */
  lemma NormalFormExact(hs: seq<Header>)
    ensures HeadersOf(Serialized(hs)) == hs <==> forall h | h in hs :: Normal(h)
  {
    if forall h | h in hs :: Normal(h) {
      SerializedParses(hs, []);
      assert Serialized(hs) + [] == Serialized(hs);
      ParseLinesOne([]);
    } else {
      ParsedHeadersAreNormal(Serialized(hs));
    }
  }

  /** For every input: parsing, serializing and parsing again gives the first parse. */
  lemma HeadersStable(raw: Bytes)
    ensures HeadersOf(Serialized(HeadersOf(raw))) == HeadersOf(raw)
  {
    ParsedHeadersAreNormal(raw);
    NormalFormExact(HeadersOf(raw));
  }

  lemma TrimmedLine(h: Header)
    requires TrimmedNormal(h)
    ensures Lacks(HeaderLine(h) + [CR], LF)
    ensures ParseTrimmedLine(HeaderLine(h) + [CR]) == Some(h)
  {
    CrIsCut(HeaderLine(h));
    if h.value == [] {
      TrimmedEmptyValue(h.name);
      ColonSplits(h.name, []);
    } else {
      assert HeaderLine(h) == h.name + [COLON] + ([SP] + h.value);
      TrimNothing(HeaderLine(h));
      ColonSplits(h.name, [SP] + h.value);
      assert ([SP] + h.value)[1..] == h.value;
    }
  }

  lemma CrIsCut(line: Bytes)
    requires line != [] && line[|line| - 1] != CR
    ensures TrimEndCr(line + [CR]) == line
  {
    assert (line + [CR])[..|line|] == line;
  }

  lemma TrimNothing(s: Bytes)
    requires s != [] && !IsSpace(s[0]) && !IsSpace(s[|s| - 1])
    ensures Trim(s) == s
  {
  }

  lemma TrimmedEmptyValue(name: Bytes)
    requires name != [] && !IsSpace(name[0])
    ensures Trim(name + SEPARATOR + []) == name + [COLON] + []
  {
    var line, text := name + SEPARATOR + [], name + [COLON] + [];
    assert line[..|line| - 1] == text;
    assert TrimEnd(text) == text;
  }

  lemma ColonSplits(name: Bytes, rest: Bytes)
    requires Find(name, COLON) == |name|
    ensures ParseLine(name + [COLON] + rest) == Some(Header(name, TrimStart(rest)))
  {
    var text := name + [COLON] + rest;
    FindAt(text, COLON, |name|);
    assert text[..|name|] == name && text[|name| + 1..] == rest;
  }

  lemma ParsedTrimmedLineIsNormal(raw: Bytes)
    requires Lacks(raw, LF) && ParseTrimmedLine(raw).Some?
    ensures TrimmedNormal(ParseTrimmedLine(raw).value)
  {
    var cut := TrimEndCr(raw);
    TrimEndCrCuts(raw);
    LacksSlice(raw, LF, 0, |cut|);
    assert raw[0..|cut|] == cut;
    var from, to := TrimCuts(cut);
    LacksSlice(cut, LF, from, to);
    SplitTrimmedLine(Trim(cut), Find(Trim(cut), COLON));
  }

  lemma SplitTrimmedLine(line: Bytes, i: nat)
    requires Lacks(line, LF) && 0 < i < |line| && i == Find(line, COLON)
    requires !IsSpace(line[0]) && !IsSpace(line[|line| - 1])
    ensures TrimmedNormal(Header(line[..i], TrimStart(line[i + 1..])))
  {
    var name, rest := line[..i], line[i + 1..];
    NameLacksColon(line, i);
    LacksSlice(line, LF, 0, i);
    LacksSlice(line, LF, i + 1, |line|);
    assert line[0..i] == name && line[i + 1..|line|] == rest;
    assert name[0] == line[0];
    assert rest != [] ==> rest[|rest| - 1] == line[|line| - 1];
    TrimmedPartsAreNormal(name, rest);
  }

  lemma LacksSlice(s: Bytes, b: Byte, i: nat, j: nat)
    requires Lacks(s, b) && i <= j <= |s|
    ensures Lacks(s[i..j], b)
  {
  }

  lemma TrimmedPartsAreNormal(name: Bytes, rest: Bytes)
    requires name != [] && Find(name, COLON) == |name| && Lacks(name, LF) && !IsSpace(name[0])
    requires Lacks(rest, LF) && (rest != [] ==> !IsSpace(rest[|rest| - 1]))
    ensures TrimmedNormal(Header(name, TrimStart(rest)))
  {
    if rest != [] {
      TrimmedValue(rest);
    }
  }

  lemma TrimmedValue(rest: Bytes)
    requires rest != [] && Lacks(rest, LF) && !IsSpace(rest[|rest| - 1])
    ensures Lacks(TrimStart(rest), LF)
    ensures TrimStart(rest) != [] ==> !IsSpace(TrimStart(rest)[0]) && !IsSpace(TrimStart(rest)[|TrimStart(rest)| - 1])
  {
    TrimStartCuts(rest);
    var value := TrimStart(rest);
    LacksSlice(rest, LF, |rest| - |value|, |rest|);
    assert rest[|rest| - |value|..|rest|] == value;
  }

  lemma {:induction false} ParsedTrimmedLinesAreNormal(lines: seq<Bytes>)
    requires forall k | 0 <= k < |lines| :: Lacks(lines[k], LF)
    ensures forall h | h in ParseTrimmedLines(lines) :: TrimmedNormal(h)
  {
    if lines != [] {
      ParsedTrimmedLinesAreNormal(lines[..|lines| - 1]);
      var last := lines[|lines| - 1];
      if ParseTrimmedLine(last).Some? {
        ParsedTrimmedLineIsNormal(last);
      }
    }
  }

  lemma ParsedHeaderLinesAreNormal(input: Bytes)
    ensures forall h | h in HeaderLinesOf(input) :: TrimmedNormal(h)
  {
    SplitOnPieces(input, LF);
    ParsedTrimmedLinesAreNormal(SplitOn(input, LF));
  }

  lemma {:induction false} ParseTrimmedLinesCons(line: Bytes, lines: seq<Bytes>)
    ensures ParseTrimmedLines([line] + lines) == ParseTrimmedLines([line]) + ParseTrimmedLines(lines)
  {
    if lines != [] {
      var all := [line] + lines;
      assert all[..|all| - 1] == [line] + lines[..|lines| - 1];
      ParseTrimmedLinesCons(line, lines[..|lines| - 1]);
    } else {
      assert [line] + lines == [line];
    }
  }

  lemma HeaderLinesOfCons(line: Bytes, tail: Bytes)
    requires Lacks(line, LF)
    ensures HeaderLinesOf(line + [LF] + tail) == ParseTrimmedLines([line]) + HeaderLinesOf(tail)
  {
    SplitOnCons(line, LF, tail);
    ParseTrimmedLinesCons(line, SplitOn(tail, LF));
  }

  /** For `parse_header_lines`: a line contributes a header if and only if, trimmed, it has a colon that is
      not its first byte. */
  lemma TrimmedLineExact(line: Bytes, tail: Bytes)
    requires Lacks(line, LF)
    ensures
      var text := Trim(TrimEndCr(line));
      HeaderLinesOf(line + [LF] + tail) ==
        (if Lacks(text, COLON) || text[0] == COLON then []
         else [Header(text[..Find(text, COLON)], TrimStart(text[Find(text, COLON) + 1..]))])
        + HeaderLinesOf(tail)
  {
    FindLacks(Trim(TrimEndCr(line)), COLON);
    HeaderLinesOfCons(line, tail);
    ParseLinesOne(line);
  }

  lemma {:induction false} SerializedParsesTrimmed(hs: seq<Header>)
    requires forall h | h in hs :: TrimmedNormal(h)
    ensures HeaderLinesOf(Serialized(hs)) == hs
  {
    if hs == [] {
      ParseLinesOne([]);
    } else {
      var h, line, tail := hs[0], HeaderLine(hs[0]) + [CR], Serialized(hs[1..]);
      calc {
        HeaderLinesOf(Serialized(hs));
        { assert Serialized(hs) == line + [LF] + tail; }
        HeaderLinesOf(line + [LF] + tail);
        { TrimmedLine(h); HeaderLinesOfCons(line, tail); ParseLinesOne(line); }
        [h] + HeaderLinesOf(tail);
        { SerializedParsesTrimmed(hs[1..]); }
        [h] + hs[1..];
        hs;
      }
    }
  }

  /** Exactly the trimmed normal lists survive serialization and `parse_header_lines`. */
  lemma TrimmedNormalFormExact(hs: seq<Header>)
    ensures HeaderLinesOf(Serialized(hs)) == hs <==> forall h | h in hs :: TrimmedNormal(h)
  {
    if forall h | h in hs :: TrimmedNormal(h) {
      SerializedParsesTrimmed(hs);
    } else {
      ParsedHeaderLinesAreNormal(Serialized(hs));
    }
  }

  /** For every input, the same for `parse_header_lines`. */
  lemma HeaderLinesStable(input: Bytes)
    ensures HeaderLinesOf(Serialized(HeaderLinesOf(input))) == HeaderLinesOf(input)
  {
    ParsedHeaderLinesAreNormal(input);
    SerializedParsesTrimmed(HeaderLinesOf(input));
  }

  // ---- Agreement of the two parsers ------------------------------------------------------------

  /** A nonempty name and a value without CR and LF that trimming leaves alone. */
  predicate Trimmed(h: Header) {
    && h.name != [] && Clean(h.name) && Clean(h.value)
    && Trim(h.name) == h.name && Trim(h.value) == h.value
  }

  /** The name does not start with a colon, and has one only if there is a value. */
  predicate ReadAlike(h: Header) {
    h.name != [] && h.name[0] != COLON && (Lacks(h.name, COLON) || h.value != [])
  }

  lemma TrimmedEnds(s: Bytes)
    requires s != [] && Trim(s) == s
    ensures !IsSpace(s[0]) && !IsSpace(s[|s| - 1])
  {
    var i, j := TrimCuts(s);
  }

  lemma FirstColon(h: Header)
    ensures Find(HeaderLine(h), COLON) == Find(h.name, COLON) < |HeaderLine(h)|
    ensures ParseLine(HeaderLine(h)) ==
            Some(Header(h.name[..Find(h.name, COLON)], TrimStart(HeaderLine(h)[Find(h.name, COLON) + 1..])))
  {
    var line, i := HeaderLine(h), Find(h.name, COLON);
    assert forall j | 0 <= j < i :: line[j] == h.name[j];
    FindAt(line, COLON, i);
    assert line[..i] == h.name[..i];
  }

  lemma AlikeLine(h: Header)
    requires Trimmed(h) && ReadAlike(h)
    ensures ParseTrimmedLine(HeaderLine(h) + [CR]) == ParseLine(HeaderLine(h))
  {
    TrimmedEnds(h.name);
    if h.value == [] {
      FindLacks(h.name, COLON);
      NormalLine(h);
      TrimmedLine(h);
    } else {
      FirstColon(h);
      TrimmedEnds(h.value);
      CrIsCut(HeaderLine(h));
      TrimNothing(HeaderLine(h));
    }
  }

  /** A line the parsers read differently gives `parse_headers` a header the other never gives. */
  lemma DifferentLine(h: Header)
    requires Trimmed(h) && !ReadAlike(h)
    ensures ParseLine(HeaderLine(h)).Some? && !TrimmedNormal(ParseLine(HeaderLine(h)).value)
  {
    FirstColon(h);
    var i := Find(h.name, COLON);
    if i > 0 {
      FindLacks(h.name, COLON);
      var rest := HeaderLine(h)[i + 1..];
      assert rest[|rest| - 2] == COLON && rest[|rest| - 1] == SP;
      TrimStartKeeps(rest, |rest| - 2);
    }
  }

  /** Trimming the start keeps everything from a character on that is not a space. */
  lemma {:induction false} TrimStartKeeps(s: Bytes, k: nat)
    requires k < |s| && !IsSpace(s[k])
    ensures |TrimStart(s)| >= |s| - k && TrimStart(s)[|TrimStart(s)| - 1] == s[|s| - 1]
  {
    if IsSpace(s[0]) {
      TrimStartKeeps(s[1..], k - 1);
    }
  }

  lemma CleanLine(h: Header)
    requires Clean(h.name) && Clean(h.value)
    ensures NoCrlf(HeaderLine(h)) && Lacks(HeaderLine(h) + [CR], LF)
  {
    assert Clean(HeaderLine(h));
  }

  lemma CrlfParts(line: Bytes, tail: Bytes)
    ensures line + CRLF + tail == (line + [CR]) + [LF] + tail
  {
  }

  lemma SerializedCons(hs: seq<Header>)
    requires hs != [] && Clean(hs[0].name) && Clean(hs[0].value)
    ensures HeadersOf(Serialized(hs)) == ParseLines([HeaderLine(hs[0])]) + HeadersOf(Serialized(hs[1..]))
    ensures HeaderLinesOf(Serialized(hs)) ==
            ParseTrimmedLines([HeaderLine(hs[0]) + [CR]]) + HeaderLinesOf(Serialized(hs[1..]))
  {
    var line, tail := HeaderLine(hs[0]), Serialized(hs[1..]);
    CleanLine(hs[0]);
    HeadersOfCons(line, tail);
    CrlfParts(line, tail);
    HeaderLinesOfCons(line + [CR], tail);
  }

  lemma {:induction false} AlikeLists(hs: seq<Header>)
    requires forall h | h in hs :: Trimmed(h) && ReadAlike(h)
    ensures HeadersOf(Serialized(hs)) == HeaderLinesOf(Serialized(hs))
  {
    if hs == [] {
      ParseLinesOne([]);
    } else {
      var h := hs[0];
      assert Trimmed(h) && ReadAlike(h);
      SerializedCons(hs);
      AlikeLine(h);
      ParseLinesOne(HeaderLine(h));
      ParseLinesOne(HeaderLine(h) + [CR]);
      AlikeLists(hs[1..]);
    }
  }

  lemma {:induction false} LineIsParsed(hs: seq<Header>, h: Header)
    requires h in hs && forall g | g in hs :: Trimmed(g)
    ensures ParseLine(HeaderLine(h)).Some? ==> ParseLine(HeaderLine(h)).value in HeadersOf(Serialized(hs))
    decreases hs
  {
    assert Trimmed(hs[0]);
    SerializedCons(hs);
    if h == hs[0] {
      ParseLinesOne(HeaderLine(h));
    } else {
      LineIsParsed(hs[1..], h);
    }
  }

  /** For any list with nonempty trimmed names and trimmed values without CR and LF: the two parsers read
      the same from its serialization if and only if no name starts with a colon, and none that has a
      colon goes with an empty value. */
  lemma ParsersAgree(hs: seq<Header>)
    requires forall h | h in hs :: Trimmed(h)
    ensures HeadersOf(Serialized(hs)) == HeaderLinesOf(Serialized(hs)) <==>
              forall h | h in hs :: ReadAlike(h)
  {
    if forall h | h in hs :: ReadAlike(h) {
      AlikeLists(hs);
    } else {
      var h :| h in hs && !ReadAlike(h);
      DifferentLine(h);
      LineIsParsed(hs, h);
      ParsedHeaderLinesAreNormal(Serialized(hs));
    }
  }

  /** They differ on a name with a colon inside and no value: "a:b" is read with the value "b: " by one
      and "b:" by the other. */
  lemma InnerColonDiffers()
    ensures
      var s := Serialized([Header([97, 58, 98], [])]);
      && HeadersOf(s) == [Header([97], [98, 58, 32])]
      && HeaderLinesOf(s) == [Header([97], [98, 58])]
  {
    assert [97, 58, 98] == [97] + [COLON] + [98];
    ExampleCons(Header([97, 58, 98], []));
    InnerColonReadings([97], [98]);
    assert [98] + [COLON, SP] == [98, 58, 32] && [98] + [COLON] == [98, 58];
  }

  lemma InnerColonReadings(a: Bytes, b: Bytes)
    requires a != [] && Lacks(a, COLON) && !IsSpace(a[0]) && b != [] && !IsSpace(b[0])
    ensures
      var line := HeaderLine(Header(a + [COLON] + b, []));
      && ParseLine(line) == Some(Header(a, b + [COLON, SP]))
      && ParseTrimmedLine(line + [CR]) == Some(Header(a, b + [COLON]))
  {
    var name := a + [COLON] + b;
    var line := HeaderLine(Header(name, []));
    FindLacks(a, COLON);
    CrIsCut(line);
    TrimmedEmptyValue(name);
    assert line == a + [COLON] + (b + [COLON, SP]);
    ColonSplits(a, b + [COLON, SP]);
    assert name + [COLON] + [] == a + [COLON] + (b + [COLON]);
    ColonSplits(a, b + [COLON]);
  }

  /** And on a name that starts with one: ":x" with the value "v" is read with an empty name by one and
      not at all by the other. */
  lemma LeadingColonDiffers()
    ensures
      var s := Serialized([Header([58, 120], [118])]);
      HeadersOf(s) == [Header([], [120, 58, 32, 118])] && HeaderLinesOf(s) == []
  {
    assert [58, 120] == [COLON] + [120];
    ExampleCons(Header([58, 120], [118]));
    LeadingColonReadings([120], [118]);
    assert [120] + SEPARATOR + [118] == [120, 58, 32, 118];
  }

  lemma LeadingColonReadings(b: Bytes, value: Bytes)
    requires b != [] && !IsSpace(b[0]) && value != [] && !IsSpace(value[|value| - 1])
    ensures
      var line := HeaderLine(Header([COLON] + b, value));
      && ParseLine(line) == Some(Header([], b + SEPARATOR + value))
      && ParseTrimmedLine(line + [CR]) == None
  {
    var line := HeaderLine(Header([COLON] + b, value));
    CrIsCut(line);
    TrimNothing(line);
    assert line == [] + [COLON] + (b + SEPARATOR + value);
    ColonSplits([], b + SEPARATOR + value);
  }

  lemma ExampleCons(h: Header)
    requires Clean(h.name) && Clean(h.value)
    ensures HeadersOf(Serialized([h])) ==
            (if ParseLine(HeaderLine(h)).Some? then [ParseLine(HeaderLine(h)).value] else [])
    ensures
      var parsed := ParseTrimmedLine(HeaderLine(h) + [CR]);
      HeaderLinesOf(Serialized([h])) == if parsed.Some? then [parsed.value] else []
  {
    SerializedCons([h]);
    assert [h][1..] == [];
    ParseLinesOne([]);
    ParseLinesOne(HeaderLine(h));
    ParseLinesOne(HeaderLine(h) + [CR]);
  }
}
