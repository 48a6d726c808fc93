/** Response counters and moving averages (`src/metrics.rs:52-112, 190-214`); `f64` is `real`. */
module Metrics {

  const ALPHA: real := 0.1

  // ---- Averages -------------------------------------------------------------------------------

  function Mix(ema: real, x: real): real {
    ALPHA * x + (1.0 - ALPHA) * ema
  }

  /** The exponential moving average of a sequence; it starts with the first value. */
  function Ema(xs: seq<real>): real {
    if xs == [] then 0.0
    else if |xs| == 1 then xs[0]
    else Mix(Ema(xs[..|xs| - 1]), xs[|xs| - 1])
  }

  /** The same with an average of zero taken for no average yet, as the status classes do. */
  function ZeroStartEma(xs: seq<real>): real {
    if xs == [] then 0.0
    else
      var ema := ZeroStartEma(xs[..|xs| - 1]);
      if ema == 0.0 then xs[|xs| - 1] else Mix(ema, xs[|xs| - 1])
  }

  // ---- The statistics object ------------------------------------------------------------------

  datatype Sample = Sample(ms: real, status: nat)

  /** Class 2 is 2xx, and so on. */
  predicate InClass(status: nat, c: nat) {
    100 * c <= status < 100 * c + 100
  }

  function Times(samples: seq<Sample>): (xs: seq<real>)
    ensures |xs| == |samples| && forall k | 0 <= k < |xs| :: xs[k] == samples[k].ms
  {
    seq(|samples|, k requires 0 <= k < |samples| => samples[k].ms)
  }

  function ClassTimes(samples: seq<Sample>, c: nat): seq<real> {
    if samples == [] then []
    else
      var front, last := samples[..|samples| - 1], samples[|samples| - 1];
      ClassTimes(front, c) + if InClass(last.status, c) then [last.ms] else []
  }

  lemma TimesAppend(samples: seq<Sample>, s: Sample)
    ensures Times(samples + [s]) == Times(samples) + [s.ms]
    ensures forall c :: ClassTimes(samples + [s], c) ==
                          ClassTimes(samples, c) + if InClass(s.status, c) then [s.ms] else []
  {
    assert (samples + [s])[..|samples|] == samples;
  }

  lemma EmaAppend(xs: seq<real>, x: real)
    ensures Ema(xs + [x]) == if xs == [] then x else Mix(Ema(xs), x)
    ensures ZeroStartEma(xs + [x]) == if ZeroStartEma(xs) == 0.0 then x else Mix(ZeroStartEma(xs), x)
  {
    assert (xs + [x])[..|xs|] == xs;
  }

  lemma OneMoreSample(samples: seq<Sample>, s: Sample, c: nat)
    ensures Ema(Times(samples + [s])) == if samples == [] then s.ms else Mix(Ema(Times(samples)), s.ms)
    ensures
      var before := ZeroStartEma(ClassTimes(samples, c));
      ZeroStartEma(ClassTimes(samples + [s], c)) ==
        if !InClass(s.status, c) then before else if before == 0.0 then s.ms else Mix(before, s.ms)
  {
    TimesAppend(samples, s);
    EmaAppend(Times(samples), s.ms);
    EmaAppend(ClassTimes(samples, c), s.ms);
    assert ClassTimes(samples, c) + [] == ClassTimes(samples, c);
  }

  /** A class average after a sample of that class; zero stands for no average yet. */
  function Folded(ema: real, ms: real, inClass: bool): real {
    if !inClass then ema else if ema == 0.0 then ms else 0.1 * ms + 0.9 * ema
  }

  class ResponseTimeStats {
    var emaAll: real
    var ema2xx: real
    var ema4xx: real
    var ema5xx: real
    var sampleCount: nat

    constructor ()
      ensures Shows([])
    {
      emaAll, ema2xx, ema4xx, ema5xx, sampleCount := 0.0, 0.0, 0.0, 0.0, 0;
    }

    /** The fields are what these samples make them. */
    ghost predicate Shows(samples: seq<Sample>)
      reads this
    {
      && emaAll == Ema(Times(samples))
      && ema2xx == ZeroStartEma(ClassTimes(samples, 2))
      && ema4xx == ZeroStartEma(ClassTimes(samples, 4))
      && ema5xx == ZeroStartEma(ClassTimes(samples, 5))
      && sampleCount == |samples|
    }

    method Update(durationMs: real, statusCode: nat, ghost samples: seq<Sample>)
      requires Shows(samples)
      modifies this
      ensures Shows(samples + [Sample(durationMs, statusCode)])
      ensures old(sampleCount) > 0 ==> emaAll == 0.1 * durationMs + 0.9 * old(emaAll)
      ensures old(sampleCount) == 0 ==> emaAll == durationMs
      ensures ema2xx == Folded(old(ema2xx), durationMs, 200 <= statusCode < 300)
      ensures ema4xx == Folded(old(ema4xx), durationMs, 400 <= statusCode < 500)
      ensures ema5xx == Folded(old(ema5xx), durationMs, 500 <= statusCode < 600)
    {
      OneMoreSample(samples, Sample(durationMs, statusCode), 2);
      OneMoreSample(samples, Sample(durationMs, statusCode), 4);
      OneMoreSample(samples, Sample(durationMs, statusCode), 5);
      if sampleCount == 0 {
        emaAll := durationMs;
      } else {
        emaAll := ALPHA * durationMs + (1.0 - ALPHA) * emaAll;
      }
      if 200 <= statusCode < 300 {
        if ema2xx == 0.0 {
          ema2xx := durationMs;
        } else {
          ema2xx := ALPHA * durationMs + (1.0 - ALPHA) * ema2xx;
        }
      } else if 400 <= statusCode < 500 {
        if ema4xx == 0.0 {
          ema4xx := durationMs;
        } else {
          ema4xx := ALPHA * durationMs + (1.0 - ALPHA) * ema4xx;
        }
      } else if 500 <= statusCode < 600 {
        if ema5xx == 0.0 {
          ema5xx := durationMs;
        } else {
          ema5xx := ALPHA * durationMs + (1.0 - ALPHA) * ema5xx;
        }
      }
      sampleCount := sampleCount + 1;
    }
  }

  class ResponseMetrics {
    var responses2xx: nat
    var responses3xx: nat
    var responses4xx: nat
    var responses5xx: nat
    const responseTimes: ResponseTimeStats

    constructor ()
      ensures Counts([]) && fresh(responseTimes)
    {
      responses2xx, responses3xx, responses4xx, responses5xx := 0, 0, 0, 0;
      responseTimes := new ResponseTimeStats();
    }

    ghost predicate Counts(samples: seq<Sample>)
      reads this, responseTimes
    {
      && responseTimes.Shows(samples)
      && responses2xx == |ClassTimes(samples, 2)|
      && responses3xx == |ClassTimes(samples, 3)|
      && responses4xx == |ClassTimes(samples, 4)|
      && responses5xx == |ClassTimes(samples, 5)|
    }

    /** `record_proxy_response`. */
    method RecordProxyResponse(statusCode: nat, durationMs: real, ghost samples: seq<Sample>)
      requires Counts(samples)
      modifies this, responseTimes
      ensures Counts(samples + [Sample(durationMs, statusCode)])
      ensures responses2xx == old(responses2xx) + if 200 <= statusCode <= 299 then 1 else 0
      ensures responses3xx == old(responses3xx) + if 300 <= statusCode <= 399 then 1 else 0
      ensures responses4xx == old(responses4xx) + if 400 <= statusCode <= 499 then 1 else 0
      ensures responses5xx == old(responses5xx) + if 500 <= statusCode <= 599 then 1 else 0
    {
      TimesAppend(samples, Sample(durationMs, statusCode));
      if 200 <= statusCode <= 299 {
        responses2xx := responses2xx + 1;
      } else if 300 <= statusCode <= 399 {
        responses3xx := responses3xx + 1;
      } else if 400 <= statusCode <= 499 {
        responses4xx := responses4xx + 1;
      } else if 500 <= statusCode <= 599 {
        responses5xx := responses5xx + 1;
      }
      responseTimes.Update(durationMs, statusCode, samples);
    }
  }

  // ---- What the averages are ------------------------------------------------------------------

  /** y times 0.9 to the power n. */
  function Faded(n: nat, y: real): (f: real)
    ensures y > 0.0 ==> f > 0.0
  {
    if n == 0 then y else (1.0 - ALPHA) * Faded(n - 1, y)
  }

  /** What value k of n contributes. */
  function Part(n: nat, k: nat, x: real): real
    requires k < n
  {
    if k == 0 then Faded(n - 1, x) else Faded(n - 1 - k, ALPHA * x)
  }

  /** What the first m of n values contribute. */
  function PartSum(xs: seq<real>, n: nat, m: nat): real
    requires m <= n && m <= |xs|
  {
    if m == 0 then 0.0 else PartSum(xs, n, m - 1) + Part(n, m - 1, xs[m - 1])
  }

  lemma {:induction false} PartSumFades(xs: seq<real>, ys: seq<real>, n: nat, m: nat)
    requires 0 < n && m <= n && m <= |xs| && m <= |ys| && xs[..m] == ys[..m]
    ensures PartSum(ys, n + 1, m) == (1.0 - ALPHA) * PartSum(xs, n, m)
  {
    if m > 0 {
      assert xs[..m][..m - 1] == xs[..m - 1] && ys[..m][..m - 1] == ys[..m - 1];
      assert xs[..m][m - 1] == xs[m - 1] && ys[..m][m - 1] == ys[m - 1];
      PartSumFades(xs, ys, n, m - 1);
    }
  }

  /** The average is the closed weighted sum: the newest value weighs 0.1, every older one 0.9 times as
      much as the next, the first one what is left. */
  lemma {:induction false} EmaIsWeightedSum(xs: seq<real>)
    ensures Ema(xs) == PartSum(xs, |xs|, |xs|)
  {
    var n := |xs|;
    if n >= 2 {
      var front := xs[..n - 1];
      EmaIsWeightedSum(front);
      assert xs[..n - 1] == front[..n - 1];
      PartSumFades(front, xs, n - 1, n - 1);
      assert Part(n, n - 1, xs[n - 1]) == ALPHA * xs[n - 1];
    } else if n == 1 {
      assert PartSum(xs, 1, 0) == 0.0;
    }
  }

  /** The weights sum to one. */
  lemma {:induction false} WeightsSumToOne(n: nat)
    requires n > 0
    ensures PartSum(seq(n, k => 1.0), n, n) == 1.0
  {
    var ones := seq(n, k => 1.0);
    EmaIsWeightedSum(ones);
    EmaWithin(ones, 1.0, 1.0);
  }

  /** The average stays between any bounds of the values. */
  lemma {:induction false} EmaWithin(xs: seq<real>, lo: real, hi: real)
    requires xs != [] && forall k | 0 <= k < |xs| :: lo <= xs[k] <= hi
    ensures lo <= Ema(xs) <= hi
  {
    if |xs| > 1 {
      EmaWithin(xs[..|xs| - 1], lo, hi);
    }
  }

  // ---- The zero start of the class averages ---------------------------------------------------

  predicate NonNegative(xs: seq<real>) {
    forall k | 0 <= k < |xs| :: xs[k] >= 0.0
  }

  function DropZeros(xs: seq<real>): seq<real> {
    if xs != [] && xs[0] == 0.0 then DropZeros(xs[1..]) else xs
  }

  lemma {:induction false} DropZerosAppend(xs: seq<real>, x: real)
    ensures DropZeros(xs + [x]) == if DropZeros(xs) == [] && x == 0.0 then [] else DropZeros(xs) + [x]
  {
    if xs == [] {
      assert xs + [x] == [x];
      assert [x][1..] == [];
    } else {
      assert (xs + [x])[1..] == xs[1..] + [x];
      if xs[0] == 0.0 {
        DropZerosAppend(xs[1..], x);
      }
    }
  }

  lemma {:induction false} EmaIsPositive(xs: seq<real>)
    requires NonNegative(xs) && xs != [] && xs[0] > 0.0
    ensures Ema(xs) > 0.0
  {
    if |xs| > 1 {
      EmaIsPositive(xs[..|xs| - 1]);
    }
  }

  lemma {:induction false} DropZerosCuts(xs: seq<real>)
    requires NonNegative(xs)
    ensures NonNegative(DropZeros(xs)) && (DropZeros(xs) != [] ==> DropZeros(xs)[0] > 0.0)
  {
    if xs != [] && xs[0] == 0.0 {
      DropZerosCuts(xs[1..]);
    }
  }

  /** A class average is the plain average of the class's times without the zero times it starts
      with. */
  lemma {:induction false} ClassEmaDropsZeros(xs: seq<real>)
    requires NonNegative(xs)
    ensures ZeroStartEma(xs) == Ema(DropZeros(xs))
  {
    if xs != [] {
      var front, last := xs[..|xs| - 1], xs[|xs| - 1];
      assert xs == front + [last];
      ClassEmaDropsZeros(front);
      DropZerosAppend(front, last);
      DropZerosCuts(front);
      var kept := DropZeros(front);
      EmaAppend(kept, last);
      EmaAppend(front, last);
      if kept != [] {
        EmaIsPositive(kept);
      }
    }
  }

  /** How much zeros in front take away. */
  lemma {:induction false} ZerosShrink(zeros: seq<real>, ys: seq<real>)
    requires zeros != [] && ys != [] && forall k | 0 <= k < |zeros| :: zeros[k] == 0.0
    ensures Ema(zeros + ys) == Ema(ys) - Faded(|ys|, ys[0])
  {
    var front, last := ys[..|ys| - 1], ys[|ys| - 1];
    assert zeros + ys == (zeros + front) + [last];
    EmaAppend(zeros + front, last);
    if front == [] {
      assert zeros + front == zeros;
      EmaWithin(zeros, 0.0, 0.0);
      assert Faded(0, last) == last;
    } else {
      ZerosShrink(zeros, front);
      assert ys == front + [last];
      EmaAppend(front, last);
    }
  }

  lemma {:induction false} LeadingZeros(xs: seq<real>) returns (zeros: seq<real>)
    ensures xs == zeros + DropZeros(xs) && forall k | 0 <= k < |zeros| :: zeros[k] == 0.0
  {
    zeros := [];
    if xs != [] && xs[0] == 0.0 {
      var more := LeadingZeros(xs[1..]);
      zeros := [0.0] + more;
    }
  }

  /** So it is the plain average exactly when the class does not start with a zero time, or has no
      other; in all other cases it is larger. */
  lemma ClassEmaIsPlain(xs: seq<real>)
    requires NonNegative(xs)
    ensures ZeroStartEma(xs) == Ema(xs) <==> DropZeros(xs) == xs || DropZeros(xs) == []
    ensures ZeroStartEma(xs) >= Ema(xs)
  {
    ClassEmaDropsZeros(xs);
    DropZerosCuts(xs);
    var zeros := LeadingZeros(xs);
    var kept := DropZeros(xs);
    if kept == [] {
      assert xs == zeros;
      if xs != [] {
        EmaWithin(xs, 0.0, 0.0);
      }
    } else if zeros == [] {
      assert xs == kept;
    } else {
      ZerosShrink(zeros, kept);
      assert |kept| < |xs|;
    }
  }

  // ---- The counters ---------------------------------------------------------------------------

  function Answered(samples: seq<Sample>): nat {
    |ClassTimes(samples, 2)| + |ClassTimes(samples, 3)| + |ClassTimes(samples, 4)| + |ClassTimes(samples, 5)|
  }

  /** The class counters never sum past the sample count, and reach it exactly if every status was
      between 200 and 599. */
  lemma {:induction false} CountersWithinSamples(samples: seq<Sample>)
    ensures Answered(samples) <= |samples|
    ensures Answered(samples) == |samples| <==> forall k | 0 <= k < |samples| :: 200 <= samples[k].status <= 599
  {
    if samples != [] {
      var front, last := samples[..|samples| - 1], samples[|samples| - 1];
      CountersWithinSamples(front);
      TimesAppend(front, last);
      assert samples == front + [last];
    }
  }
}
