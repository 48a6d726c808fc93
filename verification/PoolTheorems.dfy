/** What holds in every run of the worker pool. */
module PoolTheorems {
  import opened Options
  import opened WorkerPools
  import opened PoolRuns

  ghost function StateAfter(events: seq<Event>): Option<State> {
    if events == [] then Some(START)
    else
      var before, last := StateAfter(events[..|events| - 1]), events[|events| - 1];
      if before.Some? && Enabled(before.value, last) then Some(Next(before.value, last)) else None
  }

  ghost predicate IsRun(events: seq<Event>) {
    StateAfter(events).Some?
  }

  lemma {:induction false} RunKeepsInv(events: seq<Event>)
    requires IsRun(events)
    ensures Inv(StateAfter(events).value)
  {
    if events != [] {
      var before := events[..|events| - 1];
      RunKeepsInv(before);
      InvKept(StateAfter(before).value, events[|events| - 1]);
    }
  }

  // ---- Each accepted item is run once ---------------------------------------------------------

  /** In every run: an accepted item was finished once, or is in exactly one place of one channel of
      the present pool, not yet finished; nothing else was finished. */
  lemma ItemsAreConserved(events: seq<Event>, x: Item)
    requires IsRun(events)
    ensures
      var s := StateAfter(events).value;
      && multiset(s.finished)[x] <= multiset(s.accepted)[x] <= 1
      && (x in s.accepted <==> x in s.finished || Pending(s, x))
      && !(x in s.finished && Pending(s, x))
  {
    RunKeepsInv(events);
    var s := StateAfter(events).value;
    CountOne(s.accepted, x);
    CountOne(s.finished, x);
    if x in s.accepted && x !in s.finished {
      ResultIsComing(s, x);
    }
    if Pending(s, x) {
      PendingIsAccepted(s, x);
    }
  }

  lemma {:induction false} CountOne(s: seq<Item>, x: Item)
    requires NoRepeats(s)
    ensures multiset(s)[x] == if x in s then 1 else 0
  {
    if s != [] {
      var front, last := s[..|s| - 1], s[|s| - 1];
      CountOne(front, x);
      assert s == front + [last];
      assert last !in front;
    }
  }

  lemma PendingIsAccepted(s: State, x: Item)
    requires Inv(s) && Pending(s, x)
    ensures x in s.accepted && x !in s.finished
  {
    var pool := s.pool.value;
    var w :| 0 <= w < WORKERS && pool.workers[w].ran <= |pool.logs[w]| && x in pool.logs[w][pool.workers[w].ran..];
    var k :| pool.workers[w].ran <= k < |pool.logs[w]| && pool.logs[w][k] == x;
    var i := DealtItem(s, w, k);
  }

  /** Number k of channel w as an accepted item. */
  lemma DealtItem(s: State, w: nat, k: nat) returns (i: nat)
    requires Inv(s) && s.pool.Some? && w < WORKERS && k < |s.pool.value.logs[w]|
    ensures i == s.epoch + w + WORKERS * k < |s.accepted| && s.accepted[i] == s.pool.value.logs[w][k]
    ensures s.accepted[i] in s.finished <==> k < s.pool.value.workers[w].ran
  {
    i := s.epoch + w + WORKERS * k;
    assert Dealt(s.pool.value.logs[w], s.accepted[s.epoch..], w);
    assert s.pool.value.logs[w][k] == s.accepted[s.epoch..][w + WORKERS * k];
    assert (i - s.epoch) % WORKERS == w && (i - s.epoch) / WORKERS == k;
  }

  /** i is the item worker w finishes; of the items of its pool dealt to it, exactly those before i were
      finished. */
  ghost predicate InOrder(s: State, w: nat, i: nat)
    requires Enabled(s, Finish(w))
  {
    && s.epoch <= i < |s.accepted| && (i - s.epoch) % WORKERS == w
    && Next(s, Finish(w)).finished == s.finished + [s.accepted[i]]
    && (forall j {:trigger s.accepted[j]} | s.epoch <= j < |s.accepted| && (j - s.epoch) % WORKERS == w ::
          s.accepted[j] in s.finished <==> j < i)
  }

  /** In every run, each worker runs its items first in, first out. */
  lemma FifoPerWorker(events: seq<Event>, w: nat) returns (i: nat)
    requires IsRun(events) && Enabled(StateAfter(events).value, Finish(w))
    ensures InOrder(StateAfter(events).value, w, i)
  {
    RunKeepsInv(events);
    i := FinishInOrder(StateAfter(events).value, w);
  }

  lemma FinishInOrder(s: State, w: nat) returns (i: nat)
    requires Inv(s) && Enabled(s, Finish(w))
    ensures InOrder(s, w, i)
  {
    i := NextItem(s, w);
    var ran := s.pool.value.workers[w].ran;
    forall j | s.epoch <= j < |s.accepted| && (j - s.epoch) % WORKERS == w
      ensures s.accepted[j] in s.finished <==> j < i
    {
      var k := (j - s.epoch) / WORKERS;
      assert s.accepted[j] in s.finished <==> Ran(s, j);
      assert k < ran <==> w + WORKERS * k < w + WORKERS * ran;
    }
  }

  /** Since the present pool was made, submission k went to worker k mod 4, as number k / 4, and no
      worker got more than one item more than another. */
  lemma LoadIsBalanced(events: seq<Event>)
    requires IsRun(events) && StateAfter(events).value.pool.Some?
    ensures
      var s := StateAfter(events).value;
      var logs := s.pool.value.logs;
      && |logs| == WORKERS && s.epoch <= |s.accepted|
      && (var sent := s.accepted[s.epoch..];
          forall k | 0 <= k < |sent| :: k / WORKERS < |logs[k % WORKERS]| && logs[k % WORKERS][k / WORKERS] == sent[k])
      && (forall a, b | 0 <= a < WORKERS && 0 <= b < WORKERS :: |logs[a]| <= |logs[b]| + 1)
  {
    RunKeepsInv(events);
    var s := StateAfter(events).value;
    RoundRobin(s.pool.value.logs, s.accepted[s.epoch..]);
  }

  // ---- Callers --------------------------------------------------------------------------------

  predicate Settled(c: Call) {
    !c.Ensured? && !c.Waiting?
  }

  /** A caller that has its outcome keeps it, and what it means: an answer only for a finished item,
      an error before submission only if nothing was accepted, and only because there was no pool. No
      caller finds a closed pool, a closed channel or a result that will never come. */
  lemma OneOutcome(events: seq<Event>, e: Event, id: Item)
    requires IsRun(events + [e]) && id in StateAfter(events).value.calls
    ensures
      var s, t := StateAfter(events).value, StateAfter(events + [e]).value;
      && id in t.calls
      && (Settled(s.calls[id]) ==> t.calls[id] == s.calls[id])
      && (!Settled(s.calls[id]) ==>
            && (t.calls[id] == Answered <==> e == Receive(id))
            && (t.calls[id] == TimedOut <==> e == TimeOut(id))
            && (e == Submit(id) <==> s.calls[id] == Ensured && t.calls[id] != Ensured))
      && (t.calls[id] == Answered ==> id in t.finished)
      && (t.calls[id].Refused? ==> t.calls[id].error == NotInitialized && id !in t.accepted)
      && t.calls[id] != Disconnected
      && (t.calls[id] == TimedOut ==> id in t.finished || Pending(t, id))
  {
    assert (events + [e])[..|events|] == events;
    RunKeepsInv(events);
    RunKeepsInv(events + [e]);
    var t := StateAfter(events + [e]).value;
    if t.calls[id] == TimedOut && id !in t.finished {
      ResultIsComing(t, id);
    }
  }

  /** Event a made sure of a pool for id, and a shutdown ended since. */
  ghost predicate ShutSince(events: seq<Event>, a: nat, id: Item) {
    a < |events| && events[a] == Ensure(id) && exists b | a < b < |events| :: events[b] == ShutdownEnds
  }

  ghost predicate WasShut(events: seq<Event>, id: Item) {
    exists a: nat :: ShutSince(events, a, id)
  }

  lemma ShutStays(events: seq<Event>, e: Event, id: Item)
    requires WasShut(events, id)
    ensures WasShut(events + [e], id)
  {
    var a: nat :| ShutSince(events, a, id);
    var b :| a < b < |events| && events[b] == ShutdownEnds;
    assert (events + [e])[a] == Ensure(id) && (events + [e])[b] == ShutdownEnds;
    assert ShutSince(events + [e], a, id);
  }

  /** The call made sure of a pool and there is none, or it was refused. */
  predicate Stranded(s: State, id: Item) {
    id in s.calls && (s.calls[id].Refused? || (s.calls[id] == Ensured && s.pool.None?))
  }

  /** Only the end of a shutdown strands a call; only its first step makes one. */
  lemma StrandedBy(s: State, e: Event, id: Item)
    requires Inv(s) && Enabled(s, e) && id in Next(s, e).calls
    ensures id in s.calls || e == Ensure(id)
    ensures Stranded(Next(s, e), id) ==> id in s.calls && (Stranded(s, id) || e == ShutdownEnds)
  {
    if e.Submit? && s.pool.Some? {
      SubmitIsAccepted(s, e.id);
    }
  }

  lemma {:induction false} WasMade(events: seq<Event>, id: Item) returns (a: nat)
    requires IsRun(events) && id in StateAfter(events).value.calls
    ensures a < |events| && events[a] == Ensure(id)
  {
    var before, e := events[..|events| - 1], events[|events| - 1];
    RunKeepsInv(before);
    StrandedBy(StateAfter(before).value, e, id);
    if e == Ensure(id) {
      a := |events| - 1;
    } else {
      a := WasMade(before, id);
    }
  }

  lemma {:induction false} StrandedWasShut(events: seq<Event>, id: Item)
    requires IsRun(events) && Stranded(StateAfter(events).value, id)
    ensures WasShut(events, id)
  {
    var before, e := events[..|events| - 1], events[|events| - 1];
    assert events == before + [e];
    var s := StateAfter(before).value;
    RunKeepsInv(before);
    StrandedBy(s, e, id);
    if Stranded(s, id) {
      StrandedWasShut(before, id);
      ShutStays(before, e, id);
    } else {
      var a := WasMade(before, id);
      assert events[a] == Ensure(id) && events[|events| - 1] == ShutdownEnds;
      assert ShutSince(events, a, id);
    }
  }

  /** A caller is refused only if a shutdown ended after it had made sure of a pool and before it
      submitted. */
  lemma RefusedAfterShutdown(events: seq<Event>, id: Item)
    requires IsRun(events + [Submit(id)]) && StateAfter(events + [Submit(id)]).value.calls[id].Refused?
    ensures WasShut(events, id)
  {
    assert (events + [Submit(id)])[..|events|] == events;
    RunKeepsInv(events);
    StrandedBy(StateAfter(events).value, Submit(id), id);
    StrandedWasShut(events, id);
  }

  /** What a caller can do next: nothing while a shutdown has the lock it needs; otherwise each of its two
      lock sections, and once it waits, to give up at any time, or to take the result exactly if the item
      is finished, and if not some worker has the item and can take a step. */
  ghost predicate GoesOn(s: State, id: Item) {
    && (id !in s.calls ==> (Enabled(s, Ensure(id)) <==> s.joined.None?))
    && (id in s.calls && s.calls[id].Ensured? ==> (Enabled(s, Submit(id)) <==> s.joined.None?))
    && (id in s.calls && s.calls[id].Waiting? ==>
          && Enabled(s, TimeOut(id))
          && (Enabled(s, Receive(id)) <==> id in s.finished)
          && (id in s.finished || exists w :: HasItem(s, w, id) && (Enabled(s, Take(w)) || Enabled(s, Finish(w)))))
    && (id in s.calls && Settled(s.calls[id]) ==>
          forall e | e in {Ensure(id), Submit(id), Receive(id), TimeOut(id)} :: !Enabled(s, e))
  }

  predicate HasItem(s: State, w: nat, id: Item) {
    && s.pool.Some? && w < |s.pool.value.workers| && w < |s.pool.value.logs|
    && s.pool.value.workers[w].ran <= |s.pool.value.logs[w]|
    && id in s.pool.value.logs[w][s.pool.value.workers[w].ran..]
  }

  lemma ItemHasWorker(s: State, id: Item) returns (w: nat)
    requires Inv(s) && id in s.accepted && id !in s.finished
    ensures HasItem(s, w, id) && (Enabled(s, Take(w)) || Enabled(s, Finish(w)))
  {
    var i :| 0 <= i < |s.accepted| && s.accepted[i] == id;
    var k;
    w, k := Place(s, i);
    InTail(s.pool.value.logs[w], s.pool.value.workers[w].ran, k);
    WorkerCanStep(s, w);
  }

  lemma InTail(log: seq<Item>, ran: nat, k: nat)
    requires ran <= k < |log|
    ensures log[k] in log[ran..]
  {
    assert log[ran..][k - ran] == log[k];
  }

  lemma WorkerCanStep(s: State, w: nat)
    requires PoolInv(s) && s.pool.Some? && w < WORKERS && s.pool.value.workers[w].ran < |s.pool.value.logs[w]|
    ensures Enabled(s, Take(w)) || Enabled(s, Finish(w))
  {
    assert WorkerInv(s, w);
  }

  lemma WaitersGoOn(s: State, id: Item)
    requires IsWaiting(s, id)
    requires id in s.finished || exists w :: HasItem(s, w, id) && (Enabled(s, Take(w)) || Enabled(s, Finish(w)))
    ensures GoesOn(s, id)
  {
  }

  lemma OthersGoOn(s: State, id: Item)
    requires !IsWaiting(s, id)
    ensures GoesOn(s, id)
  {
  }

  /** In every run no caller is ever stuck, and a shutdown can begin whenever there is a pool and no other
      shutdown is under way. */
  lemma NoCallerIsStuck(events: seq<Event>, id: Item)
    requires IsRun(events)
    ensures GoesOn(StateAfter(events).value, id)
    ensures Enabled(StateAfter(events).value, ShutdownBegins) <==>
            StateAfter(events).value.pool.Some? && StateAfter(events).value.joined.None?
  {
    RunKeepsInv(events);
    var s := StateAfter(events).value;
    if !IsWaiting(s, id) {
      OthersGoOn(s, id);
    } else {
      WaitingIsAccepted(s, id);
      if id !in s.finished {
        var w := ItemHasWorker(s, id);
      }
      WaitersGoOn(s, id);
    }
  }

  lemma WaitingIsAccepted(s: State, id: Item)
    requires Inv(s) && IsWaiting(s, id)
    ensures id in s.accepted
  {
  }

  // ---- Progress -------------------------------------------------------------------------------

  /** Worker steps until item number k of a channel is finished. */
  function StepsTo(worker: Worker, k: nat): int {
    2 * (k + 1 - worker.ran) - (if worker.busy then 1 else 0)
  }

  /** An accepted item that was not run is never stuck: its worker can take its next step, cannot have
      left, every step of that worker brings the item closer, and no other step puts it back, whatever
      its caller does and even while a shutdown waits. */
  lemma ItemComesCloser(events: seq<Event>, i: nat, e: Event)
    requires IsRun(events + [e])
    requires i < |StateAfter(events).value.accepted|
    requires StateAfter(events).value.accepted[i] !in StateAfter(events).value.finished
    ensures Closer(StateAfter(events).value, e, StateAfter(events + [e]).value, i)
  {
    assert (events + [e])[..|events|] == events;
    RunKeepsInv(events);
    StepBringsCloser(StateAfter(events).value, e, i);
  }

  predicate Closer(s: State, e: Event, t: State, i: nat) {
    && i >= s.epoch && t.epoch == s.epoch && s.pool.Some? && t.pool.Some?
    && |s.pool.value.workers| == |t.pool.value.workers| == WORKERS
    && var w, k := (i - s.epoch) % WORKERS, (i - s.epoch) / WORKERS;
    && (Enabled(s, Take(w)) || Enabled(s, Finish(w)))
    && StepsTo(s.pool.value.workers[w], k) > 0
    && StepsTo(t.pool.value.workers[w], k) ==
         StepsTo(s.pool.value.workers[w], k) - (if e == Take(w) || e == Finish(w) then 1 else 0)
  }

  lemma StepBringsCloser(s: State, e: Event, i: nat)
    requires Inv(s) && Enabled(s, e) && i < |s.accepted| && s.accepted[i] !in s.finished
    ensures Closer(s, e, Next(s, e), i)
  {
    var w, k := Place(s, i);
    assert WorkerInv(s, w);
    if e == ShutdownEnds {
      AllRanWhenJoined(s);
    } else if e.Submit? {
      SubmitIsAccepted(s, e.id);
    }
  }

  predicate FullPool(s: State) {
    s.pool.Some? && s.joined.Some? && |s.pool.value.workers| == |s.pool.value.logs| == WORKERS
  }

  /** What a worker still has to do before it can be joined. */
  function WorkLeft(pool: Pool, w: nat): int
    requires |pool.workers| == |pool.logs| == WORKERS && w < WORKERS
  {
    2 * (|pool.logs[w]| - pool.workers[w].ran)
    - (if pool.workers[w].busy then 1 else 0) + (if pool.workers[w].exited then 0 else 1)
  }

  /** What is left to do before the shutdown in progress can return. */
  function DrainLeft(s: State): int
    requires FullPool(s)
  {
    var pool := s.pool.value;
    WORKERS - s.joined.value + WorkLeft(pool, 0) + WorkLeft(pool, 1) + WorkLeft(pool, 2) + WorkLeft(pool, 3)
  }

  predicate DrainStep(e: Event) {
    e.Take? || e.Finish? || e.Exit? || e.Join?
  }

  lemma DrainGoesOn(s: State) returns (e: Event)
    requires Inv(s) && s.joined.Some?
    ensures FullPool(s) && Enabled(s, e) && (DrainStep(e) || e == ShutdownEnds)
  {
    var w := s.joined.value;
    if w == WORKERS {
      return ShutdownEnds;
    }
    assert WorkerInv(s, w);
    var worker := s.pool.value.workers[w];
    return if worker.exited then Join
           else if worker.busy then Finish(w)
           else if worker.ran < |s.pool.value.logs[w]| then Take(w)
           else Exit(w);
  }

  lemma WorkIsLeft(s: State, w: nat)
    requires Inv(s) && s.joined.Some? && w < WORKERS
    ensures FullPool(s) && WorkLeft(s.pool.value, w) >= 0
  {
    assert WorkerInv(s, w);
  }

  /** A shutdown always returns: while it runs, some worker step, join or its return is possible; and
      it can return only when every accepted item was finished. */
  lemma ShutdownDrains(events: seq<Event>) returns (e: Event)
    requires IsRun(events) && StateAfter(events).value.joined.Some?
    ensures
      var s := StateAfter(events).value;
      && FullPool(s) && DrainLeft(s) >= 0
      && Enabled(s, e) && (DrainStep(e) || e == ShutdownEnds)
      && (Enabled(s, ShutdownEnds) ==> forall x | x in s.accepted :: x in s.finished)
  {
    RunKeepsInv(events);
    var s := StateAfter(events).value;
    e := DrainGoesOn(s);
    WorkIsLeft(s, 0);
    WorkIsLeft(s, 1);
    WorkIsLeft(s, 2);
    WorkIsLeft(s, 3);
    if Enabled(s, ShutdownEnds) {
      AllRanWhenJoined(s);
    }
  }

  lemma WorkerStepDrains(s: State, e: Event, w: nat)
    requires Inv(s) && s.joined.Some? && Enabled(s, e) && (e == Take(w) || e == Finish(w) || e == Exit(w))
    ensures FullPool(s) && FullPool(Next(s, e)) && DrainLeft(Next(s, e)) == DrainLeft(s) - 1
  {
    assert WorkerInv(s, w);
    var t := Next(s, e);
    assert WorkLeft(t.pool.value, w) == WorkLeft(s.pool.value, w) - 1;
    assert forall v: nat | v < WORKERS && v != w :: WorkLeft(t.pool.value, v) == WorkLeft(s.pool.value, v);
  }

  lemma StepDrains(s: State, e: Event)
    requires Inv(s) && s.joined.Some? && Enabled(s, e) && e != ShutdownEnds
    ensures FullPool(s) && FullPool(Next(s, e))
    ensures DrainLeft(Next(s, e)) == DrainLeft(s) - (if DrainStep(e) then 1 else 0)
  {
    if e.Take? || e.Finish? || e.Exit? {
      WorkerStepDrains(s, e, e.w);
    }
  }

  /** Each of those steps leaves less to do, and no other step adds to it: no new work gets in while
      the shutdown waits. */
  lemma DrainDescends(events: seq<Event>, e: Event)
    requires IsRun(events + [e]) && StateAfter(events).value.joined.Some? && e != ShutdownEnds
    ensures
      var s, t := StateAfter(events).value, StateAfter(events + [e]).value;
      FullPool(s) && FullPool(t) && DrainLeft(t) == DrainLeft(s) - (if DrainStep(e) then 1 else 0)
  {
    assert (events + [e])[..|events|] == events;
    RunKeepsInv(events);
    StepDrains(StateAfter(events).value, e);
  }
}
