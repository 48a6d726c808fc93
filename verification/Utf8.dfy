/** UTF-8 validation against the encoding itself (sections 3 and 4 of RFC 3629). */
module Utf8 {
  import opened Text

  /** A Unicode scalar value. */
  predicate Scalar(c: nat) {
    c < 0xD800 || 0xE000 <= c < 0x11_0000
  }

  /** The UTF-8 encoding of one scalar value. */
  function EncodeScalar(c: nat): (s: Bytes)
    requires Scalar(c)
    ensures 1 <= |s| <= 4
  {
    if c < 0x80 then [c]
    else if c < 0x800 then [0xC0 + c / 64, 0x80 + c % 64]
    else if c < 0x1_0000 then [0xE0 + c / 4096, 0x80 + c / 64 % 64, 0x80 + c % 64]
    else [0xF0 + c / 262144, 0x80 + c / 4096 % 64, 0x80 + c / 64 % 64, 0x80 + c % 64]
  }

  predicate AllScalars(cs: seq<nat>) {
    forall i | 0 <= i < |cs| :: Scalar(cs[i])
  }

  function Encode(cs: seq<nat>): Bytes
    requires AllScalars(cs)
  {
    if cs == [] then [] else EncodeScalar(cs[0]) + Encode(cs[1..])
  }

  lemma ScalarIsSequence(c: nat, rest: Bytes)
    requires Scalar(c)
    ensures SequenceLength(EncodeScalar(c) + rest) == |EncodeScalar(c)|
  {
    var s := EncodeScalar(c);
    assert forall i | 0 <= i < |s| :: (s + rest)[i] == s[i];
    if c >= 0x80 {
      Quotients(c);
    }
  }

  lemma Quotients(c: nat)
    requires Scalar(c)
    ensures c < 0x800 ==> c / 64 < 32 && (c >= 0x80 ==> c / 64 >= 2)
    ensures c < 0x1_0000 ==> c / 4096 < 16
    ensures c < 0x1_0000 && c / 4096 == 0 && c >= 0x800 ==> c / 64 % 64 >= 32
    ensures c < 0x1_0000 && c / 4096 == 13 ==> c / 64 % 64 < 32
    ensures c >= 0x1_0000 ==> c / 262144 <= 4
    ensures c >= 0x1_0000 && c / 262144 == 0 ==> c / 4096 % 64 >= 16
    ensures c >= 0x1_0000 && c / 262144 == 4 ==> c / 4096 % 64 < 16
  {
  }

  lemma TwoDigits(a: nat, b: nat)
    requires b < 64
    ensures (a * 64 + b) / 64 == a && (a * 64 + b) % 64 == b
  {
  }

  lemma TwoBytes(a: nat, b: nat) returns (c: nat)
    requires 2 <= a < 32 && b < 64
    ensures Scalar(c) && EncodeScalar(c) == [0xC0 + a, 0x80 + b]
  {
    c := a * 64 + b;
    TwoDigits(a, b);
  }

  lemma ThreeBytes(a: nat, b: nat, d: nat) returns (c: nat)
    requires a < 16 && b < 64 && d < 64
    requires (a == 0 ==> b >= 32) && (a == 13 ==> b < 32)
    ensures Scalar(c) && EncodeScalar(c) == [0xE0 + a, 0x80 + b, 0x80 + d]
  {
    var high := a * 64 + b;
    c := high * 64 + d;
    TwoDigits(high, d);
    TwoDigits(a, b);
    assert c / 4096 == c / 64 / 64;
  }

  lemma FourBytes(a: nat, b: nat, d: nat, f: nat) returns (c: nat)
    requires a <= 4 && b < 64 && d < 64 && f < 64
    requires (a == 0 ==> b >= 16) && (a == 4 ==> b < 16)
    ensures Scalar(c) && EncodeScalar(c) == [0xF0 + a, 0x80 + b, 0x80 + d, 0x80 + f]
  {
    var top := a * 64 + b;
    var high := top * 64 + d;
    c := high * 64 + f;
    TwoDigits(high, f);
    TwoDigits(top, d);
    TwoDigits(a, b);
    assert c / 4096 == c / 64 / 64;
    assert c / 262144 == c / 64 / 64 / 64;
  }

  lemma SequenceIsScalar(s: Bytes) returns (c: nat)
    requires SequenceLength(s) > 0
    ensures Scalar(c) && s[..SequenceLength(s)] == EncodeScalar(c)
  {
    var n := SequenceLength(s);
    if n == 1 {
      c := s[0];
    } else if n == 2 {
      c := TwoBytes(s[0] as int - 0xC0, s[1] as int - 0x80);
    } else if n == 3 {
      c := ThreeBytes(s[0] as int - 0xE0, s[1] as int - 0x80, s[2] as int - 0x80);
    } else {
      c := FourBytes(s[0] as int - 0xF0, s[1] as int - 0x80, s[2] as int - 0x80, s[3] as int - 0x80);
    }
  }

  lemma {:induction false} EncodingIsValid(cs: seq<nat>)
    requires AllScalars(cs)
    ensures ValidUtf8(Encode(cs))
  {
    if cs != [] {
      var first, rest := EncodeScalar(cs[0]), Encode(cs[1..]);
      ScalarIsSequence(cs[0], rest);
      assert (first + rest)[|first|..] == rest;
      EncodingIsValid(cs[1..]);
    }
  }

  lemma SplitsOff(s: Bytes) returns (c: nat, tail: Bytes)
    requires ValidUtf8(s) && s != []
    ensures Scalar(c) && s == EncodeScalar(c) + tail && ValidUtf8(tail)
  {
    var n := SequenceLength(s);
    c := SequenceIsScalar(s);
    tail := s[n..];
    assert s == s[..n] + s[n..];
  }

  lemma EncodeCons(c: nat, cs: seq<nat>)
    requires Scalar(c) && AllScalars(cs)
    ensures AllScalars([c] + cs) && Encode([c] + cs) == EncodeScalar(c) + Encode(cs)
  {
    assert ([c] + cs)[1..] == cs;
  }

  lemma {:induction false} ValidIsEncoding(s: Bytes) returns (cs: seq<nat>)
    requires ValidUtf8(s)
    ensures AllScalars(cs) && s == Encode(cs)
    decreases |s|
  {
    cs := [];
    if s != [] {
      var c, tail := SplitsOff(s);
      var rest := ValidIsEncoding(tail);
      cs := [c] + rest;
      EncodeCons(c, rest);
    }
  }

  /** Bytes are valid UTF-8 if and only if they are the encoding of some scalar values: no overlong form, no
      surrogate, nothing above U+10FFFF. */
  lemma Utf8Exact(s: Bytes)
    ensures ValidUtf8(s) <==> exists cs :: AllScalars(cs) && s == Encode(cs)
  {
    if ValidUtf8(s) {
      var cs := ValidIsEncoding(s);
    }
    forall cs | AllScalars(cs) ensures ValidUtf8(Encode(cs)) {
      EncodingIsValid(cs);
    }
  }
}
