/** The named-pipe worker pool (`src/winpipe.rs:55-157, 171-232`): one channel per worker, round-robin
    submission, shutdown by closing the channels and joining, callers that stop waiting on their own. */
module WorkerPools {
  import opened Options

  const WORKERS: nat := 4
  const WORD: nat := 0x1_0000_0000_0000_0000

  /** A work item, known by its request. */
  type Item = nat

  datatype PoolError = NotInitialized | ShutDown | ChannelClosed

  // ---- The pool object ------------------------------------------------------------------------

  /** What was sent on each channel, and the next index, after one more item. */
  function Submitted(sent: seq<seq<Item>>, next: nat, item: Item): (r: (seq<seq<Item>>, nat))
    requires sent != []
  {
    var idx := next % |sent|;
    (sent[idx := sent[idx] + [item]], (next + 1) % WORD)
  }

  class WorkerPool {
    var senders: seq<seq<Item>>
    var nextIdx: nat

    constructor (workers: nat)
      ensures |senders| == workers && nextIdx == 0 && forall w | 0 <= w < workers :: senders[w] == []
    {
      var made: seq<seq<Item>> := [];
      for k := 0 to workers
        invariant |made| == k && forall w | 0 <= w < k :: made[w] == []
      {
        made := made + [[]];
      }
      senders := made;
      nextIdx := 0;
    }

    method SubmitWork(item: Item) returns (r: Result<(), PoolError>)
      modifies this
      ensures old(senders) == [] ==> r == Err(ShutDown) && senders == old(senders) && nextIdx == old(nextIdx)
      ensures old(senders) != [] ==> r == Ok(()) && (senders, nextIdx) == Submitted(old(senders), old(nextIdx), item)
    {
      if |senders| == 0 {
        return Err(ShutDown);
      }
      var idx := nextIdx % |senders|;
      nextIdx := (nextIdx + 1) % WORD;
      senders := senders[idx := senders[idx] + [item]];
      return Ok(());
    }
  }

  // ---- Round robin ----------------------------------------------------------------------------

  /** How many of the first n submissions go to worker w. */
  function Share(n: nat, w: nat): nat
    requires w < WORKERS
  {
    (n + WORKERS - 1 - w) / WORKERS
  }

  /** Channel w carries the submissions w, w + 4, w + 8 ... */
  ghost predicate Dealt(log: seq<Item>, sent: seq<Item>, w: nat)
    requires w < WORKERS
  {
    && |log| == Share(|sent|, w)
    && forall k {:trigger log[k]} | 0 <= k < |log| :: w + WORKERS * k < |sent| && log[k] == sent[w + WORKERS * k]
  }

  ghost predicate AllDealt(logs: seq<seq<Item>>, sent: seq<Item>) {
    |logs| == WORKERS && forall w | 0 <= w < WORKERS :: Dealt(logs[w], sent, w)
  }

  /** One more submission keeps the deal, however often the index has wrapped around. */
  lemma DealOne(logs: seq<seq<Item>>, sent: seq<Item>, item: Item)
    requires AllDealt(logs, sent)
    ensures
      var after := Submitted(logs, |sent| % WORD, item);
      && AllDealt(after.0, sent + [item]) && after.1 == |sent + [item]| % WORD
      && after.0[|sent| % WORKERS] == logs[|sent| % WORKERS] + [item]
  {
    var n := |sent|;
    var idx := n % WORKERS;
    assert n % WORD % WORKERS == idx;
    var after := Submitted(logs, n % WORD, item).0;
    forall w | 0 <= w < WORKERS ensures Dealt(after[w], sent + [item], w) {
      if w == idx {
        assert Share(n, w) == n / WORKERS && Share(n + 1, w) == n / WORKERS + 1;
      } else {
        assert Share(n + 1, w) == Share(n, w);
      }
    }
  }

  /** The deal in other words: submission k is number k / 4 on channel k mod 4, and no channel has
      more than one item more than another. */
  lemma RoundRobin(logs: seq<seq<Item>>, sent: seq<Item>)
    requires AllDealt(logs, sent)
    ensures forall k | 0 <= k < |sent| ::
              k / WORKERS < |logs[k % WORKERS]| && logs[k % WORKERS][k / WORKERS] == sent[k]
    ensures forall a, b | 0 <= a < WORKERS && 0 <= b < WORKERS :: |logs[a]| <= |logs[b]| + 1
  {
    forall k | 0 <= k < |sent|
      ensures k / WORKERS < |logs[k % WORKERS]| && logs[k % WORKERS][k / WORKERS] == sent[k]
    {
      var w, q := k % WORKERS, k / WORKERS;
      assert k == w + WORKERS * q;
      assert q < Share(|sent|, w);
      assert logs[w][q] == sent[w + WORKERS * q];
    }
  }

  /** A wrapping index deals evenly among n workers for ever exactly when n divides 2^64. */
  lemma WrapIsHarmless(word: nat, n: nat)
    requires word > 0 && n > 0
    ensures (forall k: nat :: k % word % n == k % n) <==> word % n == 0
  {
    if word % n == 0 {
      forall k: nat ensures k % word % n == k % n {
        var q, m := k / word, word / n;
        assert k == n * (m * q) + k % word by {
          assert word == n * m;
          assert n * m * q == n * (m * q);
        }
        ModShift(n, m * q, k % word);
      }
    } else {
      assert word % word == 0;
      assert word % word % n == 0;
    }
  }

  lemma {:induction false} ModShift(n: nat, q: nat, r: nat)
    requires n > 0
    ensures (n * q + r) % n == r % n
  {
    if q > 0 {
      ModShift(n, q - 1, r);
      assert n * q + r == n * (q - 1) + r + n;
      ModPlus(n * (q - 1) + r, n);
    }
  }

  lemma ModPlus(x: nat, n: nat)
    requires n > 0
    ensures (x + n) % n == x % n
  {
    var q := x / n;
    assert x == n * q + x % n;
    assert x + n == n * (q + 1) + x % n;
    Unique(x + n, n, q + 1, x % n);
  }

  lemma Unique(x: nat, n: nat, q: nat, r: nat)
    requires n > 0 && r < n && x == n * q + r
    ensures x % n == r
  {
    var q1, r1 := x / n, x % n;
    assert x == n * q1 + r1;
    if q1 > q {
      Grows(n, q, q1 - q - 1);
    } else if q1 < q {
      Grows(n, q1, q - q1 - 1);
    }
  }

  lemma Grows(n: nat, q: nat, d: nat)
    ensures n * (q + d + 1) >= n * q + n
  {
    assert n * (q + d + 1) == n * q + n * d + n;
  }
}
