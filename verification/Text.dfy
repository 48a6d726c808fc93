/** Bytes, and text as its UTF-8 bytes: the few `str` operations `src/http.rs` uses. Whitespace is
    ASCII whitespace. */
module Text {
  import opened Options

  type Byte = x: int | 0 <= x < 256
  type Bytes = seq<Byte>

  const CR: Byte := 13
  const LF: Byte := 10
  const SP: Byte := 32
  const COLON: Byte := 58
  const SEMICOLON: Byte := 59
  const PLUS: Byte := 43
  const CRLF: Bytes := [13, 10]

  /** The bytes of an ASCII literal. */
  function Ascii(s: string): (b: Bytes)
    requires forall i | 0 <= i < |s| :: s[i] as int < 128
    ensures |b| == |s| && forall i | 0 <= i < |s| :: b[i] == s[i] as int
  {
    seq(|s|, i requires 0 <= i < |s| => s[i] as int)
  }

  // ---- Searching and splitting ----------------------------------------------------------------

  /** The index of the first b, or |s|. */
  function Find(s: Bytes, b: Byte): (i: nat)
    ensures i <= |s| && (i < |s| ==> s[i] == b)
    ensures forall j | 0 <= j < i :: s[j] != b
  {
    if s == [] || s[0] == b then 0 else 1 + Find(s[1..], b)
  }

  predicate IsCrlf(s: Bytes, i: int) {
    0 <= i && i + 2 <= |s| && s[i] == CR && s[i + 1] == LF
  }

  /** The index of the first CRLF, or |s|. */
  function FindCrlf(s: Bytes): (i: nat)
    ensures i <= |s| && (i < |s| ==> IsCrlf(s, i))
    ensures forall j | 0 <= j < i :: !IsCrlf(s, j)
  {
    if s == [] || IsCrlf(s, 0) then 0
    else
      assert forall j | 0 <= j :: IsCrlf(s, j + 1) <==> IsCrlf(s[1..], j);
      var rest := FindCrlf(s[1..]);
      assert forall j | 0 < j < 1 + rest :: IsCrlf(s, j) ==> IsCrlf(s[1..], j - 1);
      1 + rest
  }

  predicate NoCrlf(s: Bytes) {
    forall i | 0 <= i < |s| :: !IsCrlf(s, i)
  }

  predicate Lacks(s: Bytes, b: Byte) {
    forall i | 0 <= i < |s| :: s[i] != b
  }

  lemma FindLacks(s: Bytes, b: Byte)
    ensures Find(s, b) == |s| <==> Lacks(s, b)
  {
  }

  lemma NoCrlfSlice(s: Bytes, i: nat, j: nat)
    requires NoCrlf(s) && i <= j <= |s|
    ensures NoCrlf(s[i..j])
  {
    forall k | 0 <= k < j - i ensures !IsCrlf(s[i..j], k) {
      assert !IsCrlf(s, i + k);
    }
  }

  /** Neither CR nor LF anywhere. */
  predicate Clean(s: Bytes) {
    forall i | 0 <= i < |s| :: s[i] != CR && s[i] != LF
  }

  /** The first CRLF is where it is expected. */
  lemma FindCrlfAt(s: Bytes, i: nat)
    requires IsCrlf(s, i) && forall j | 0 <= j < i :: !IsCrlf(s, j)
    ensures FindCrlf(s) == i
  {
    var k := FindCrlf(s);
    assert k >= i;
  }

  lemma FindCrlfAfter(line: Bytes, rest: Bytes)
    requires NoCrlf(line)
    ensures FindCrlf(line + CRLF + rest) == |line|
  {
    var s := line + CRLF + rest;
    forall j | 0 <= j < |line| ensures !IsCrlf(s, j) {
      assert !IsCrlf(line, j);
    }
    FindCrlfAt(s, |line|);
  }

  lemma FindCrlfNone(s: Bytes)
    ensures FindCrlf(s) == |s| <==> NoCrlf(s)
  {
  }

  /** Appending after the first CRLF does not move it. */
  lemma FindCrlfExtends(s: Bytes, more: Bytes)
    requires FindCrlf(s) < |s|
    ensures FindCrlf(s + more) == FindCrlf(s)
  {
    var i := FindCrlf(s);
    forall j | 0 <= j < i ensures !IsCrlf(s + more, j) {
      assert !IsCrlf(s, j);
    }
    FindCrlfAt(s + more, i);
  }

  /** `split("\r\n")`. */
  function SplitCrlf(s: Bytes): (lines: seq<Bytes>)
    ensures |lines| > 0
    decreases |s|
  {
    var i := FindCrlf(s);
    if i == |s| then [s] else [s[..i]] + SplitCrlf(s[i + 2..])
  }

  /** `split` on one byte. */
  function SplitOn(s: Bytes, b: Byte): (lines: seq<Bytes>)
    ensures |lines| > 0
    decreases |s|
  {
    var i := Find(s, b);
    if i == |s| then [s] else [s[..i]] + SplitOn(s[i + 1..], b)
  }

  /** `join("\r\n")`. */
  function JoinCrlf(lines: seq<Bytes>): Bytes {
    if lines == [] then []
    else if |lines| == 1 then lines[0]
    else lines[0] + CRLF + JoinCrlf(lines[1..])
  }

  lemma JoinCons(first: Bytes, rest: seq<Bytes>)
    requires rest != []
    ensures JoinCrlf([first] + rest) == first + CRLF + JoinCrlf(rest)
  {
    assert ([first] + rest)[1..] == rest;
  }

  lemma {:induction false} SplitCrlfPieces(s: Bytes)
    ensures forall k | 0 <= k < |SplitCrlf(s)| :: NoCrlf(SplitCrlf(s)[k])
    ensures JoinCrlf(SplitCrlf(s)) == s
    decreases |s|
  {
    var i := FindCrlf(s);
    if i == |s| {
      FindCrlfNone(s);
    } else {
      var first, rest := s[..i], s[i + 2..];
      forall j | 0 <= j < |first| ensures !IsCrlf(first, j) {
        assert !IsCrlf(s, j);
      }
      SplitCrlfPieces(rest);
      assert s == first + CRLF + rest;
      JoinCons(first, SplitCrlf(rest));
    }
  }

  lemma {:induction false} SplitOnPieces(s: Bytes, b: Byte)
    ensures forall k | 0 <= k < |SplitOn(s, b)| :: Lacks(SplitOn(s, b)[k], b)
    decreases |s|
  {
    var i := Find(s, b);
    if i < |s| {
      SplitOnPieces(s[i + 1..], b);
    }
  }

  lemma SplitCrlfCons(line: Bytes, rest: Bytes)
    requires NoCrlf(line)
    ensures SplitCrlf(line + CRLF + rest) == [line] + SplitCrlf(rest)
  {
    var s := line + CRLF + rest;
    FindCrlfAfter(line, rest);
    assert s[..|line|] == line && s[|line| + 2..] == rest;
  }

  lemma FindAt(s: Bytes, b: Byte, i: nat)
    requires i < |s| && s[i] == b && forall j | 0 <= j < i :: s[j] != b
    ensures Find(s, b) == i
  {
  }

  lemma SplitOnCons(line: Bytes, b: Byte, rest: Bytes)
    requires Lacks(line, b)
    ensures SplitOn(line + [b] + rest, b) == [line] + SplitOn(rest, b)
  {
    var s := line + [b] + rest;
    FindAt(s, b, |line|);
    assert s[..|line|] == line && s[|line| + 1..] == rest;
  }

  // ---- Trimming and case ----------------------------------------------------------------------

  predicate IsSpace(b: Byte) {
    9 <= b <= 13 || b == SP
  }

  function TrimStart(s: Bytes): Bytes {
    if s != [] && IsSpace(s[0]) then TrimStart(s[1..]) else s
  }

  function TrimEnd(s: Bytes): Bytes {
    if s != [] && IsSpace(s[|s| - 1]) then TrimEnd(s[..|s| - 1]) else s
  }

  function Trim(s: Bytes): Bytes {
    TrimEnd(TrimStart(s))
  }

  /** `trim_end_matches('\r')`. */
  function TrimEndCr(s: Bytes): Bytes {
    if s != [] && s[|s| - 1] == CR then TrimEndCr(s[..|s| - 1]) else s
  }

  /** t is what is left of s when a prefix is cut off. */
  predicate IsSuffix(t: Bytes, s: Bytes) {
    |t| <= |s| && t == s[|s| - |t|..]
  }

  predicate IsPrefix(t: Bytes, s: Bytes) {
    |t| <= |s| && t == s[..|t|]
  }

  lemma {:induction false} TrimStartCuts(s: Bytes)
    ensures IsSuffix(TrimStart(s), s)
    ensures TrimStart(s) != [] ==> !IsSpace(TrimStart(s)[0])
    ensures TrimStart(TrimStart(s)) == TrimStart(s)
  {
    if s != [] && IsSpace(s[0]) {
      TrimStartCuts(s[1..]);
    }
  }

  lemma {:induction false} TrimEndCuts(s: Bytes)
    ensures IsPrefix(TrimEnd(s), s)
    ensures TrimEnd(s) != [] ==> !IsSpace(TrimEnd(s)[|TrimEnd(s)| - 1])
  {
    if s != [] && IsSpace(s[|s| - 1]) {
      TrimEndCuts(s[..|s| - 1]);
    }
  }

  lemma {:induction false} TrimEndCrCuts(s: Bytes)
    ensures IsPrefix(TrimEndCr(s), s)
  {
    if s != [] && s[|s| - 1] == CR {
      TrimEndCrCuts(s[..|s| - 1]);
    }
  }

  function Lower(b: Byte): Byte {
    if 65 <= b <= 90 then b + 32 else b
  }

  /** The same byte, or the two cases of one ASCII letter. */
  predicate SameLetter(a: Byte, b: Byte) {
    a == b || (65 <= a <= 90 && b == a + 32) || (65 <= b <= 90 && a == b + 32)
  }

  predicate EqualIgnoringCase(a: Bytes, b: Bytes) {
    |a| == |b| && forall i | 0 <= i < |a| :: SameLetter(a[i], b[i])
  }

  /** `to_ascii_lowercase`. */
  function LowerAll(s: Bytes): (t: Bytes)
    ensures |t| == |s| && forall i | 0 <= i < |s| :: t[i] == Lower(s[i])
  {
    seq(|s|, i requires 0 <= i < |s| => Lower(s[i]))
  }

  lemma Middle(s: Bytes, t: Bytes, u: Bytes)
    requires IsSuffix(t, s) && IsPrefix(u, t)
    ensures u == s[|s| - |t|..|s| - |t| + |u|]
    ensures u != [] ==> u[0] == t[0]
  {
  }

  lemma TrimCutsTo(s: Bytes, t: Bytes, u: Bytes) returns (i: nat, j: nat)
    requires t == TrimStart(s) && u == TrimEnd(t)
    ensures i <= j <= |s| && u == s[i..j]
    ensures u != [] ==> !IsSpace(u[0]) && !IsSpace(u[|u| - 1])
  {
    TrimStartCuts(s);
    TrimEndCuts(t);
    Middle(s, t, u);
    i := |s| - |t|;
    j := i + |u|;
  }

  /** Trimming cuts a piece out of the middle. */
  lemma TrimCuts(s: Bytes) returns (i: nat, j: nat)
    ensures i <= j <= |s| && Trim(s) == s[i..j]
    ensures Trim(s) != [] ==> !IsSpace(Trim(s)[0]) && !IsSpace(Trim(s)[|Trim(s)| - 1])
  {
    i, j := TrimCutsTo(s, TrimStart(s), Trim(s));
  }

  predicate OccursAt(s: Bytes, part: Bytes, i: int) {
    0 <= i && i + |part| <= |s| && s[i..i + |part|] == part
  }

  predicate Contains(s: Bytes, part: Bytes) {
    exists i | 0 <= i <= |s| :: OccursAt(s, part, i)
  }

  // ---- Numbers --------------------------------------------------------------------------------

  const U16_MAX: nat := 0xFFFF
  const USIZE_MAX: nat := 0xFFFF_FFFF_FFFF_FFFF

  function DigitValue(b: Byte, base: nat): (v: Option<nat>)
    ensures v.Some? ==> v.value < base
  {
    var d := if 48 <= b <= 57 then b - 48
             else if 97 <= b <= 122 then b - 87
             else if 65 <= b <= 90 then b - 55
             else 36;
    if d < base && d < 36 then Some(d) else None
  }

  /** The value of a string of digits; no digits are worth 0. */
  function DigitsValue(s: Bytes, base: nat): Option<nat> {
    if s == [] then Some(0)
    else
      var high, low := DigitsValue(s[..|s| - 1], base), DigitValue(s[|s| - 1], base);
      if high.Some? && low.Some? then Some(high.value * base + low.value) else None
  }

  /** `from_str_radix` and `parse` for an unsigned type: an optional plus sign, at least one digit,
      nothing else, and a value that fits. */
  function ParseUnsigned(s: Bytes, base: nat, max: nat): (v: Option<nat>)
    ensures v.Some? ==> v.value <= max
  {
    var digits := if s != [] && s[0] == PLUS then s[1..] else s;
    if digits == [] then None
    else
      var v := DigitsValue(digits, base);
      if v.Some? && v.value <= max then v else None
  }

  function Digit(d: nat): Byte
    requires d < 16
  {
    if d < 10 then 48 + d else 87 + d
  }

  predicate IsDigit(b: Byte) {
    48 <= b <= 57 || 97 <= b <= 102
  }

  /** `to_string`, and its hexadecimal counterpart. */
  function ToDigits(n: nat, base: nat): (s: Bytes)
    requires base == 10 || base == 16
    ensures s != [] && forall i | 0 <= i < |s| :: IsDigit(s[i])
  {
    if n < base then [Digit(n)] else ToDigits(n / base, base) + [Digit(n % base)]
  }

  lemma {:induction false} DigitsRoundTrip(n: nat, base: nat)
    requires base == 10 || base == 16
    ensures DigitsValue(ToDigits(n, base), base) == Some(n)
  {
    if n < base {
      AppendDigit([], 0, n, base);
      assert ToDigits(n, base) == [] + [Digit(n)];
    } else {
      Recompose(n, base);
      DigitsRoundTrip(n / base, base);
      AppendDigit(ToDigits(n / base, base), n / base, n % base, base);
    }
  }

  lemma Recompose(n: nat, base: nat)
    requires base == 10 || base == 16
    ensures n / base * base + n % base == n
  {
    if base == 10 {
      assert n / 10 * 10 + n % 10 == n;
    }
  }

  lemma AppendDigit(s: Bytes, high: nat, low: nat, base: nat)
    requires 2 <= base <= 16 && low < base && DigitsValue(s, base) == Some(high)
    ensures DigitsValue(s + [Digit(low)], base) == Some(high * base + low)
  {
    assert (s + [Digit(low)])[..|s|] == s;
  }

  lemma ParseRoundTrip(n: nat, base: nat, max: nat)
    requires (base == 10 || base == 16) && n <= max
    ensures ParseUnsigned(ToDigits(n, base), base, max) == Some(n)
  {
    DigitsRoundTrip(n, base);
    assert IsDigit(ToDigits(n, base)[0]);
  }

  // ---- UTF-8 ----------------------------------------------------------------------------------

  predicate Within(s: Bytes, i: nat, lo: int, hi: int) {
    i < |s| && lo <= s[i] <= hi
  }

  /** Length of the well-formed UTF-8 sequence s starts with (section 4 of RFC 3629), or 0. */
  function SequenceLength(s: Bytes): (n: nat)
    ensures n <= 4 && n <= |s|
  {
    if Within(s, 0, 0x00, 0x7F) then 1
    else if Within(s, 0, 0xC2, 0xDF) && Within(s, 1, 0x80, 0xBF) then 2
    else if Within(s, 0, 0xE0, 0xEF) && Within(s, 2, 0x80, 0xBF)
            && Within(s, 1, if s[0] == 0xE0 then 0xA0 else 0x80, if s[0] == 0xED then 0x9F else 0xBF) then 3
    else if Within(s, 0, 0xF0, 0xF4) && Within(s, 2, 0x80, 0xBF) && Within(s, 3, 0x80, 0xBF)
            && Within(s, 1, if s[0] == 0xF0 then 0x90 else 0x80, if s[0] == 0xF4 then 0x8F else 0xBF) then 4
    else 0
  }

  /** `std::str::from_utf8` succeeds. */
  predicate ValidUtf8(s: Bytes)
    decreases |s|
  {
    s == [] || (SequenceLength(s) > 0 && ValidUtf8(s[SequenceLength(s)..]))
  }

  lemma {:induction false} AsciiIsValid(s: Bytes)
    requires forall i | 0 <= i < |s| :: s[i] < 128
    ensures ValidUtf8(s)
  {
    if s != [] {
      AsciiIsValid(s[1..]);
    }
  }

  lemma {:induction false} ValidConcat(s: Bytes, t: Bytes)
    requires ValidUtf8(s) && ValidUtf8(t)
    ensures ValidUtf8(s + t)
    decreases |s|
  {
    if s == [] {
      assert s + t == t;
    } else {
      var n := SequenceLength(s);
      assert SequenceLength(s + t) == n;
      assert (s + t)[n..] == s[n..] + t;
      ValidConcat(s[n..], t);
    }
  }
}
