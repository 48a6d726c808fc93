/** Every run of the worker pool: any number of callers, any number of shutdowns and new pools, four
    workers a pool, one step per lock section, channel operation or join. */
module PoolRuns {
  import opened Options
  import opened WorkerPools

  // ---- State ----------------------------------------------------------------------------------

  /** A worker has run the first `ran` items of its channel, and is running one more if busy. */
  datatype Worker = Worker(ran: nat, busy: bool, exited: bool)

  /** `logs` is what was ever sent on each channel. */
  datatype Pool = Pool(open: bool, next: nat, logs: seq<seq<Item>>, workers: seq<Worker>)

  /** Where a request is: the pool was made sure of, it waits, or it has its one outcome. */
  datatype Call = Ensured | Waiting | Answered | TimedOut | Disconnected | Refused(error: PoolError)

  /** `joined`: a shutdown holds the pool's lock and has joined that many workers. `accepted` and
      `finished` are over all pools; `epoch` is |accepted| when the present pool was made. */
  datatype State = State(pool: Option<Pool>, joined: Option<nat>, calls: map<Item, Call>,
                         accepted: seq<Item>, finished: seq<Item>, epoch: nat)

  datatype Event =
    | Ensure(id: Item)
    | Submit(id: Item)
    | Receive(id: Item)
    | TimeOut(id: Item)
    | HangUp(id: Item)
    | Take(w: nat)
    | Finish(w: nat)
    | Exit(w: nat)
    | ShutdownBegins
    | Join
    | ShutdownEnds

  const START := State(None, None, map[], [], [], 0)

  function NewPool(): Pool {
    Pool(true, 0, seq(WORKERS, w => []), seq(WORKERS, w => Worker(0, false, false)))
  }

  // ---- Steps ----------------------------------------------------------------------------------

  predicate HasWorker(s: State, w: nat) {
    s.pool.Some? && w < |s.pool.value.workers| && w < |s.pool.value.logs| && !s.pool.value.workers[w].exited
  }

  predicate IsWaiting(s: State, id: Item) {
    id in s.calls && s.calls[id] == Waiting
  }

  /** The item is in a channel or being run, so the sender of its result is still there. */
  predicate Pending(s: State, id: Item) {
    s.pool.Some? && exists w | 0 <= w < |s.pool.value.workers| && w < |s.pool.value.logs| ::
      s.pool.value.workers[w].ran <= |s.pool.value.logs[w]| && id in s.pool.value.logs[w][s.pool.value.workers[w].ran..]
  }

  predicate Enabled(s: State, e: Event) {
    match e
    case Ensure(id) => s.joined == None && id !in s.calls
    case Submit(id) => s.joined == None && id in s.calls && s.calls[id] == Ensured
    case Receive(id) => IsWaiting(s, id) && id in s.finished
    case TimeOut(id) => IsWaiting(s, id)
    case HangUp(id) => IsWaiting(s, id) && id !in s.finished && !Pending(s, id)
    case Take(w) =>
      HasWorker(s, w) && !s.pool.value.workers[w].busy && s.pool.value.workers[w].ran < |s.pool.value.logs[w]|
    case Finish(w) =>
      HasWorker(s, w) && s.pool.value.workers[w].busy && s.pool.value.workers[w].ran < |s.pool.value.logs[w]|
    case Exit(w) =>
      HasWorker(s, w) && !s.pool.value.workers[w].busy && !s.pool.value.open
      && s.pool.value.workers[w].ran >= |s.pool.value.logs[w]|
    case ShutdownBegins => s.joined == None && s.pool.Some?
    case Join =>
      && s.joined.Some? && s.pool.Some? && s.joined.value < |s.pool.value.workers|
      && s.pool.value.workers[s.joined.value].exited
    case ShutdownEnds => s.joined.Some? && s.pool.Some? && s.joined.value >= |s.pool.value.workers|
  }

  function WithWorker(s: State, w: nat, worker: Worker): State
    requires HasWorker(s, w)
  {
    s.(pool := Some(s.pool.value.(workers := s.pool.value.workers[w := worker])))
  }

  function SubmitStep(s: State, id: Item): State {
    if s.pool.None? then s.(calls := s.calls[id := Refused(NotInitialized)])
    else if !s.pool.value.open || s.pool.value.logs == [] then s.(calls := s.calls[id := Refused(ShutDown)])
    else
      var after := Submitted(s.pool.value.logs, s.pool.value.next, id);
      var idx := s.pool.value.next % |s.pool.value.logs|;
      if idx < |s.pool.value.workers| && s.pool.value.workers[idx].exited then
        s.(pool := Some(s.pool.value.(next := after.1)), calls := s.calls[id := Refused(ChannelClosed)])
      else
        s.(pool := Some(s.pool.value.(logs := after.0, next := after.1)),
           calls := s.calls[id := Waiting], accepted := s.accepted + [id])
  }

  function Next(s: State, e: Event): State
    requires Enabled(s, e)
  {
    match e
    case Ensure(id) =>
      if s.pool.None? then s.(pool := Some(NewPool()), epoch := |s.accepted|, calls := s.calls[id := Ensured])
      else s.(calls := s.calls[id := Ensured])
    case Submit(id) => SubmitStep(s, id)
    case Receive(id) => s.(calls := s.calls[id := Answered])
    case TimeOut(id) => s.(calls := s.calls[id := TimedOut])
    case HangUp(id) => s.(calls := s.calls[id := Disconnected])
    case Take(w) => WithWorker(s, w, s.pool.value.workers[w].(busy := true))
    case Finish(w) =>
      var worker := s.pool.value.workers[w];
      WithWorker(s, w, worker.(ran := worker.ran + 1, busy := false))
        .(finished := s.finished + [s.pool.value.logs[w][worker.ran]])
    case Exit(w) => WithWorker(s, w, s.pool.value.workers[w].(exited := true))
    case ShutdownBegins => s.(pool := Some(s.pool.value.(open := false, next := 0)), joined := Some(0))
    case Join => s.(joined := Some(s.joined.value + 1))
    case ShutdownEnds => s.(pool := None, joined := None)
  }

  // ---- Invariant ------------------------------------------------------------------------------

  ghost predicate NoRepeats(s: seq<Item>) {
    forall i, j | 0 <= i < j < |s| :: s[i] != s[j]
  }

  /** The lock, the joined workers and the channels fit together. */
  predicate PoolInv(s: State) {
    && (s.joined.Some? ==> s.pool.Some?)
    && (s.pool.Some? ==>
          && |s.pool.value.workers| == |s.pool.value.logs| == WORKERS
          && s.pool.value.open == s.joined.None?
          && (s.joined.Some? ==> s.joined.value <= WORKERS)
          && forall w | 0 <= w < WORKERS :: WorkerInv(s, w))
  }

  predicate WorkerInv(s: State, w: nat)
    requires s.pool.Some? && w < |s.pool.value.workers| && w < |s.pool.value.logs|
  {
    var worker, log := s.pool.value.workers[w], s.pool.value.logs[w];
    && worker.ran + (if worker.busy then 1 else 0) <= |log|
    && (worker.exited ==> !s.pool.value.open && worker.ran == |log|)
    && (s.joined.Some? && w < s.joined.value ==> worker.exited)
  }

  /** The present pool's channels carry what was accepted since it was made, dealt in turn. */
  ghost predicate DealInv(s: State) {
    && s.epoch <= |s.accepted|
    && (s.pool.Some? ==>
          && AllDealt(s.pool.value.logs, s.accepted[s.epoch..])
          && (s.pool.value.open ==> s.pool.value.next == (|s.accepted| - s.epoch) % WORD))
  }

  /** Accepted item i was run: by an earlier pool, or by the worker it was dealt to. */
  predicate Ran(s: State, i: nat)
    requires i < |s.accepted| && PoolInv(s)
  {
    s.pool.None? || i < s.epoch || (i - s.epoch) / WORKERS < s.pool.value.workers[(i - s.epoch) % WORKERS].ran
  }

  /** Accepted items differ; each is finished once if it was run, and not otherwise. */
  ghost predicate RunInv(s: State)
    requires PoolInv(s)
  {
    && NoRepeats(s.accepted) && NoRepeats(s.finished)
    && (forall x | x in s.finished :: x in s.accepted)
    && forall i {:trigger s.accepted[i]} | 0 <= i < |s.accepted| :: s.accepted[i] in s.finished <==> Ran(s, i)
  }

  ghost predicate CallInv(s: State) {
    && (forall x | x in s.accepted :: x in s.calls)
    && forall id | id in s.calls ::
         match s.calls[id]
         case Ensured => id !in s.accepted
         case Waiting => id in s.accepted
         case TimedOut => id in s.accepted
         case Answered => id in s.finished
         case Refused(error) => id !in s.accepted && error == NotInitialized
         case Disconnected => false
  }

  ghost predicate Inv(s: State) {
    PoolInv(s) && DealInv(s) && RunInv(s) && CallInv(s)
  }

  lemma StartInv()
    ensures Inv(START)
  {
  }

  lemma EnsureKeeps(s: State, id: Item)
    requires Inv(s) && Enabled(s, Ensure(id))
    ensures Inv(Next(s, Ensure(id)))
  {
    var t := Next(s, Ensure(id));
    if s.pool.None? {
      assert t.accepted[t.epoch..] == [];
    }
    forall w | 0 <= w < WORKERS ensures WorkerInv(t, w) {
      assert s.pool.Some? ==> WorkerInv(s, w);
    }
    SameRuns(s, t);
  }

  /** Nothing about the items changed. */
  lemma SameRuns(s: State, t: State)
    requires Inv(s) && PoolInv(t) && t.accepted == s.accepted && t.finished == s.finished
    requires forall i | 0 <= i < |s.accepted| :: Ran(t, i) == Ran(s, i)
    ensures RunInv(t)
  {
  }

  /** A submission that finds a pool is accepted: the pool is open and the worker it is dealt to is
      still there. */
  lemma SubmitIsAccepted(s: State, id: Item)
    requires Inv(s) && Enabled(s, Submit(id)) && s.pool.Some?
    ensures
      var after := Submitted(s.pool.value.logs, s.pool.value.next, id);
      Next(s, Submit(id)) == s.(pool := Some(s.pool.value.(logs := after.0, next := after.1)),
                                calls := s.calls[id := Waiting], accepted := s.accepted + [id])
  {
    assert WorkerInv(s, s.pool.value.next % WORKERS);
  }

  lemma SubmitKeeps(s: State, id: Item)
    requires Inv(s) && Enabled(s, Submit(id))
    ensures Inv(Next(s, Submit(id)))
  {
    if s.pool.Some? {
      SubmitIsAccepted(s, id);
      SubmitKeepsPool(s, id);
      SubmitKeepsRuns(s, id);
    } else {
      SameRuns(s, Next(s, Submit(id)));
    }
  }

  lemma SubmitKeepsPool(s: State, id: Item)
    requires Inv(s) && Enabled(s, Submit(id)) && s.pool.Some?
    ensures PoolInv(Next(s, Submit(id))) && DealInv(Next(s, Submit(id)))
  {
    SubmitIsAccepted(s, id);
    var t, sent := Next(s, Submit(id)), s.accepted[s.epoch..];
    DealOne(s.pool.value.logs, sent, id);
    assert t.accepted[t.epoch..] == sent + [id];
    forall w | 0 <= w < WORKERS ensures WorkerInv(t, w) {
      assert WorkerInv(s, w);
    }
  }

  lemma SubmitKeepsRuns(s: State, id: Item)
    requires Inv(s) && Enabled(s, Submit(id)) && s.pool.Some? && PoolInv(Next(s, Submit(id)))
    ensures RunInv(Next(s, Submit(id)))
  {
    SubmitIsAccepted(s, id);
    var t, n := Next(s, Submit(id)), |s.accepted|;
    forall i | 0 <= i < |t.accepted| ensures t.accepted[i] in t.finished <==> Ran(t, i) {
      if i < n {
        assert t.accepted[i] == s.accepted[i];
      } else {
        var w := (n - s.epoch) % WORKERS;
        assert WorkerInv(s, w);
        assert |s.pool.value.logs[w]| == Share(n - s.epoch, w) == (n - s.epoch) / WORKERS;
      }
    }
  }

  lemma CallKeeps(s: State, e: Event)
    requires Inv(s) && Enabled(s, e) && (e.Receive? || e.TimeOut? || e.HangUp?)
    ensures Inv(Next(s, e))
  {
    var t := Next(s, e);
    assert s.pool.Some? ==> forall w | 0 <= w < WORKERS :: WorkerInv(s, w) ==> WorkerInv(t, w);
    SameRuns(s, t);
    if e.HangUp? {
      ResultIsComing(s, e.id);
    }
  }

  /** An accepted item that is not finished is still in the channel of the worker it was dealt to. */
  lemma ResultIsComing(s: State, id: Item)
    requires Inv(s) && id in s.accepted && id !in s.finished
    ensures Pending(s, id)
  {
    var i :| 0 <= i < |s.accepted| && s.accepted[i] == id;
    var w, k := Place(s, i);
    assert s.pool.value.logs[w][s.pool.value.workers[w].ran..][k - s.pool.value.workers[w].ran] == id;
  }

  /** Where an accepted item that was not run is. */
  lemma Place(s: State, i: nat) returns (w: nat, k: nat)
    requires Inv(s) && i < |s.accepted| && !Ran(s, i)
    ensures w == (i - s.epoch) % WORKERS && k == (i - s.epoch) / WORKERS
    ensures s.pool.value.workers[w].ran <= k < |s.pool.value.logs[w]| && s.pool.value.logs[w][k] == s.accepted[i]
  {
    w, k := (i - s.epoch) % WORKERS, (i - s.epoch) / WORKERS;
    RoundRobin(s.pool.value.logs, s.accepted[s.epoch..]);
    assert s.accepted[s.epoch..][i - s.epoch] == s.accepted[i];
  }

  lemma WorkerKeepsPool(s: State, e: Event)
    requires Inv(s) && Enabled(s, e) && (e.Take? || e.Finish? || e.Exit?)
    ensures PoolInv(Next(s, e)) && DealInv(Next(s, e))
  {
    var t := Next(s, e);
    forall w | 0 <= w < WORKERS ensures WorkerInv(t, w) {
      assert WorkerInv(s, w);
    }
  }

  lemma WorkerKeeps(s: State, e: Event)
    requires Inv(s) && Enabled(s, e) && (e.Take? || e.Exit?)
    ensures Inv(Next(s, e))
  {
    WorkerKeepsPool(s, e);
    SameRuns(s, Next(s, e));
  }

  /** The item a worker finishes next was accepted and not run before. */
  lemma NextItem(s: State, w: nat) returns (i: nat)
    requires Inv(s) && Enabled(s, Finish(w))
    ensures i == s.epoch + w + WORKERS * s.pool.value.workers[w].ran < |s.accepted|
    ensures s.accepted[i] == s.pool.value.logs[w][s.pool.value.workers[w].ran] && !Ran(s, i)
    ensures s.accepted[i] !in s.finished
  {
    var ran := s.pool.value.workers[w].ran;
    i := s.epoch + w + WORKERS * ran;
    assert Dealt(s.pool.value.logs[w], s.accepted[s.epoch..], w);
    assert s.pool.value.logs[w][ran] == s.accepted[s.epoch..][w + WORKERS * ran];
  }

  lemma FinishKeeps(s: State, w: nat)
    requires Inv(s) && Enabled(s, Finish(w))
    ensures Inv(Next(s, Finish(w)))
  {
    WorkerKeepsPool(s, Finish(w));
    var t := Next(s, Finish(w));
    var i := NextItem(s, w);
    var item := s.accepted[i];
    assert t.finished == s.finished + [item];
    forall j | 0 <= j < |s.accepted| ensures s.accepted[j] in t.finished <==> Ran(t, j) {
      FinishRuns(s, w, i, j);
      assert s.accepted[j] == item <==> j == i;
    }
  }

  lemma FinishRuns(s: State, w: nat, i: nat, j: nat)
    requires Inv(s) && Enabled(s, Finish(w)) && PoolInv(Next(s, Finish(w))) && j < |s.accepted|
    requires i == s.epoch + w + WORKERS * s.pool.value.workers[w].ran
    ensures Ran(Next(s, Finish(w)), j) <==> Ran(s, j) || j == i
  {
    if j >= s.epoch {
      var k, ran := j - s.epoch, s.pool.value.workers[w].ran;
      assert k % WORKERS == w && k / WORKERS == ran <==> k == w + WORKERS * ran;
    }
  }

  lemma ShutdownKeeps(s: State, e: Event)
    requires Inv(s) && Enabled(s, e) && (e.ShutdownBegins? || e.Join?)
    ensures Inv(Next(s, e))
  {
    var t := Next(s, e);
    forall w | 0 <= w < WORKERS ensures WorkerInv(t, w) {
      assert WorkerInv(s, w);
    }
    SameRuns(s, t);
  }

  /** When a shutdown is about to return, every accepted item was run. */
  lemma AllRanWhenJoined(s: State)
    requires Inv(s) && Enabled(s, ShutdownEnds)
    ensures forall i | 0 <= i < |s.accepted| :: Ran(s, i)
  {
    forall w | 0 <= w < WORKERS ensures s.pool.value.workers[w].ran == |s.pool.value.logs[w]| {
      assert WorkerInv(s, w);
    }
    forall i | 0 <= i < |s.accepted| ensures Ran(s, i) {
      if !Ran(s, i) {
        var w, k := Place(s, i);
      }
    }
  }

  lemma InvKept(s: State, e: Event)
    requires Inv(s) && Enabled(s, e)
    ensures Inv(Next(s, e))
  {
    match e
    case Ensure(id) => EnsureKeeps(s, id);
    case Submit(id) => SubmitKeeps(s, id);
    case Receive(_) => CallKeeps(s, e);
    case TimeOut(_) => CallKeeps(s, e);
    case HangUp(_) => CallKeeps(s, e);
    case Take(_) => WorkerKeeps(s, e);
    case Finish(w) => FinishKeeps(s, w);
    case Exit(_) => WorkerKeeps(s, e);
    case ShutdownBegins => ShutdownKeeps(s, e);
    case Join => ShutdownKeeps(s, e);
    case ShutdownEnds =>
      AllRanWhenJoined(s);
      SameRuns(s, Next(s, e));
  }
}
