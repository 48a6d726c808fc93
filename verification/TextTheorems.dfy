/** What the `str` operations of `Text` compute, in terms of the bytes. */
module TextTheorems {
  import opened Options
  import opened Text

  // ---- Case and whitespace --------------------------------------------------------------------

  lemma LowerExact(a: Byte, b: Byte)
    ensures Lower(a) == Lower(b) <==> SameLetter(a, b)
  {
  }

  /** Two texts have the same lower-case form if and only if they differ in the case of ASCII letters at
      most. */
  lemma LowerAllExact(a: Bytes, b: Bytes)
    ensures LowerAll(a) == LowerAll(b) <==> EqualIgnoringCase(a, b)
  {
    if |a| == |b| {
      forall i | 0 <= i < |a| ensures LowerAll(a)[i] == LowerAll(b)[i] <==> SameLetter(a[i], b[i]) {
        LowerExact(a[i], b[i]);
      }
      if EqualIgnoringCase(a, b) {
        assert LowerAll(a) == LowerAll(b);
      }
    }
  }

  /** Whitespace is tab, line feed, vertical tab, form feed, carriage return and space. */
  lemma WhitespaceExact(b: Byte)
    ensures IsSpace(b) <==> b in {9, 10, 11, 12, 13, 32}
  {
  }

  predicate AllSpace(s: Bytes) {
    forall i | 0 <= i < |s| :: IsSpace(s[i])
  }

  lemma {:induction false} TrimStartSkips(space: Bytes, s: Bytes)
    requires AllSpace(space) && (s == [] || !IsSpace(s[0]))
    ensures TrimStart(space + s) == s
  {
    if space == [] {
      assert space + s == s;
    } else {
      TrimStartSkips(space[1..], s);
      assert (space + s)[1..] == space[1..] + s;
    }
  }

  lemma {:induction false} TrimEndSkips(s: Bytes, space: Bytes)
    requires AllSpace(space) && (s == [] || !IsSpace(s[|s| - 1]))
    ensures TrimEnd(s + space) == s
  {
    if space == [] {
      assert s + space == s;
    } else {
      TrimEndSkips(s, space[..|space| - 1]);
      assert (s + space)[..|s + space| - 1] == s + space[..|space| - 1];
    }
  }

  /** Trimming takes away exactly the whitespace at both ends. */
  lemma TrimExact(before: Bytes, s: Bytes, after: Bytes)
    requires AllSpace(before) && AllSpace(after) && s != [] && !IsSpace(s[0]) && !IsSpace(s[|s| - 1])
    ensures Trim(before + s + after) == s && TrimStart(before + s + after) == s + after
  {
    assert before + s + after == before + (s + after);
    TrimStartSkips(before, s + after);
    TrimEndSkips(s, after);
  }

  lemma {:induction false} SpaceBefore(s: Bytes) returns (before: Bytes)
    ensures s == before + TrimStart(s) && AllSpace(before)
    ensures s != [] && IsSpace(s[0]) ==> before != []
  {
    before := [];
    if s != [] && IsSpace(s[0]) {
      var more := SpaceBefore(s[1..]);
      before := [s[0]] + more;
    }
  }

  lemma {:induction false} SpaceAfter(s: Bytes) returns (after: Bytes)
    ensures s == TrimEnd(s) + after && AllSpace(after)
  {
    after := [];
    if s != [] && IsSpace(s[|s| - 1]) {
      var more := SpaceAfter(s[..|s| - 1]);
      after := more + [s[|s| - 1]];
      assert s == s[..|s| - 1] + [s[|s| - 1]];
    }
  }

  lemma SpaceAround(s: Bytes) returns (before: Bytes, after: Bytes)
    ensures s == before + Trim(s) + after && AllSpace(before) && AllSpace(after)
  {
    before := SpaceBefore(s);
    after := SpaceAfter(TrimStart(s));
  }

  // ---- Numbers --------------------------------------------------------------------------------

  /** b is a digit worth d: 0 to 9, then the letters in either case. */
  predicate WorthDigit(b: Byte, d: nat) {
    (48 <= b <= 57 && d == b - 48) || (97 <= b <= 122 && d == b - 87) || (65 <= b <= 90 && d == b - 55)
  }

  lemma DigitExact(b: Byte, base: nat, d: nat)
    requires base <= 36
    ensures DigitValue(b, base) == Some(d) <==> WorthDigit(b, d) && d < base
  {
  }

  function Power(base: nat, n: nat): nat {
    if n == 0 then 1 else base * Power(base, n - 1)
  }

  /** The number the digits stand for, the first one worth the most. */
  function Worth(digits: seq<nat>, base: nat): nat {
    if digits == [] then 0 else digits[0] * Power(base, |digits| - 1) + Worth(digits[1..], base)
  }

  predicate Spells(s: Bytes, digits: seq<nat>, base: nat) {
    |s| == |digits| && forall i | 0 <= i < |s| :: WorthDigit(s[i], digits[i]) && digits[i] < base
  }

  lemma Scale(d: nat, p: nat, base: nat)
    ensures d * (base * p) == base * (d * p)
  {
    assert d * (base * p) == (d * base) * p == (base * d) * p == base * (d * p);
  }

  lemma {:induction false} WorthAppend(digits: seq<nat>, d: nat, base: nat)
    ensures Worth(digits + [d], base) == Worth(digits, base) * base + d
  {
    if digits == [] {
      assert digits + [d] == [d] && [d][1..] == [];
      assert Power(base, 0) == 1;
    } else {
      var rest := digits[1..];
      assert (digits + [d])[1..] == rest + [d];
      WorthAppend(rest, d, base);
      Scale(digits[0], Power(base, |rest|), base);
      Distribute(digits[0] * Power(base, |rest|), Worth(rest, base), base);
    }
  }

  lemma Distribute(a: nat, b: nat, base: nat)
    ensures (a + b) * base == base * a + b * base
  {
  }

  lemma {:induction false} SpelledValue(s: Bytes, digits: seq<nat>, base: nat)
    requires base <= 36 && Spells(s, digits, base)
    ensures DigitsValue(s, base) == Some(Worth(digits, base))
  {
    if s != [] {
      var n := |s| - 1;
      SpelledValue(s[..n], digits[..n], base);
      DigitExact(s[n], base, digits[n]);
      WorthAppend(digits[..n], digits[n], base);
      assert digits == digits[..n] + [digits[n]];
    }
  }

  lemma {:induction false} ValueIsSpelled(s: Bytes, base: nat) returns (digits: seq<nat>)
    requires base <= 36 && DigitsValue(s, base).Some?
    ensures Spells(s, digits, base)
  {
    digits := [];
    if s != [] {
      var n := |s| - 1;
      var front := ValueIsSpelled(s[..n], base);
      var d := DigitValue(s[n], base).value;
      DigitExact(s[n], base, d);
      digits := front + [d];
      assert forall i | 0 <= i < n :: s[i] == s[..n][i] && digits[i] == front[i];
    }
  }

  ghost predicate Means(s: Bytes, base: nat, v: nat) {
    exists digits :: digits != [] && Spells(s, digits, base) && Worth(digits, base) == v
  }

  lemma MeansExact(s: Bytes, base: nat, v: nat)
    requires base <= 36
    ensures Means(s, base, v) <==> s != [] && DigitsValue(s, base) == Some(v)
  {
    if s != [] && DigitsValue(s, base) == Some(v) {
      var digits := ValueIsSpelled(s, base);
      SpelledValue(s, digits, base);
    }
    forall digits | digits != [] && Spells(s, digits, base) ensures DigitsValue(s, base) == Some(Worth(digits, base)) {
      SpelledValue(s, digits, base);
    }
  }

  /** A text is read as the number v if and only if it is a nonempty row of digits of the base, upper-case or
      lower-case, perhaps after one plus sign, that stands for v, and v fits. */
  lemma NumberExact(s: Bytes, base: nat, max: nat, v: nat)
    requires base <= 36
    ensures ParseUnsigned(s, base, max) == Some(v) <==>
              v <= max && (Means(s, base, v) || (s != [] && s[0] == 43 && Means(s[1..], base, v)))
  {
    MeansExact(s, base, v);
    if s != [] && s[0] == 43 {
      MeansExact(s[1..], base, v);
      PlusIsNoDigit(s, base);
    }
  }

  lemma {:induction false} PlusIsNoDigit(s: Bytes, base: nat)
    requires s != [] && s[0] == 43
    ensures DigitsValue(s, base).None?
  {
    if |s| > 1 {
      PlusIsNoDigit(s[..|s| - 1], base);
    }
  }

  /** Numbers are written in decimal without leading zeros and with nothing but digits. */
  lemma {:induction false} DecimalIsCanonical(n: nat)
    ensures n == 0 ==> ToDigits(n, 10) == [48]
    ensures n > 0 ==> ToDigits(n, 10)[0] != 48
    ensures forall i | 0 <= i < |ToDigits(n, 10)| :: 48 <= ToDigits(n, 10)[i] <= 57
  {
    if n >= 10 {
      DecimalIsCanonical(n / 10);
    }
  }
}
