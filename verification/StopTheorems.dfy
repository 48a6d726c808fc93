/** What became of every process: which events decide it, and what `stop` leaves behind. */
module StopTheorems {
  import opened Options
  import opened Supervision
  import opened ManagerSteps
  import opened Lifecycle
  import opened LifecycleTheorems

  // ---- Which events decide a process's fate ----------------------------------------------------

  /** The next step of a is the check of role r of manager i, by `start` or by the monitor, and finds p
      in the role's slot. */
  predicate ChecksChild(m: Manager, i: Mid, a: Actor, r: RoleName, p: Pid) {
    && m.SeatOf(r).role.child == Some(p)
    && match a
       case Caller(t) => m.work == StartWork(t, SCheck(r))
       case MonitorOf(j) => j == i && m.monitor.at == MAct(Check, r)
  }

  predicate ChecksAny(m: Manager, i: Mid, a: Actor, p: Pid) {
    ChecksChild(m, i, a, Agent, p) || ChecksChild(m, i, a, TraceAgent, p)
  }

  /** The next step of a is `graceful_kill` on p by the thread inside `stop` of manager i. */
  predicate KillsChild(m: Manager, a: Actor, p: Pid) {
    && a.Caller? && m.work.StopWork? && m.work.t == a.t
    && m.work.stopAt.PKill? && m.SeatOf(m.work.stopAt.role).role.child == Some(p)
  }

  /** The next step of a is the monitor's second look at `should_run`, with a trace agent to spawn; it
      finds it clear, and p is the agent just spawned and not committed. */
  predicate DropsAgent(m: Manager, i: Mid, a: Actor, p: Pid) {
    a == MonitorOf(i) && LosesAgent(m) && m.monitor.agentRes == Some(Spawned(p))
  }

  /** What it takes for a step of a, meeting e, to give p the final fate f. */
  predicate Settles(m: Manager, i: Mid, a: Actor, e: Env, p: Pid, f: Fate) {
    match f
    case Reaped => ChecksAny(m, i, a, p) && e.probe.wait.Exited?
    case Abandoned => ChecksAny(m, i, a, p) && e.probe.wait.WaitFailed?
    case Killed => KillsChild(m, a, p)
    case Dropped => DropsAgent(m, i, a, p)
    case _ => false
  }

  lemma StartSettles(m: Manager, i: Mid, e: Env, nextPid: Pid, p: Pid, f: Fate)
    requires ManagerInv(m, nextPid) && m.work.StartWork? && FreshEnv(e, nextPid) && Final(f)
    ensures HasFate(StartStep(m, e).fate, p, f) <==> HasFate(m.fate, p, f) || Settles(m, i, Caller(m.work.t), e, p, f)
  {
    StartMoved(m, e, nextPid);
    MoveGives(PlacesOf(m), PlacesOf(StartStep(m, e)), StartMove(m, e), nextPid, p, f);
  }

  lemma StopSettles(m: Manager, i: Mid, e: Env, nextPid: Pid, p: Pid, f: Fate)
    requires ManagerInv(m, nextPid) && m.work.StopWork? && Final(f)
    ensures HasFate(StopStep(m).fate, p, f) <==> HasFate(m.fate, p, f) || Settles(m, i, Caller(m.work.t), e, p, f)
  {
    StopMoved(m, nextPid);
    MoveGives(PlacesOf(m), PlacesOf(StopStep(m)), StopMove(m), nextPid, p, f);
  }

  lemma MonitorSettles(m: Manager, i: Mid, e: Env, nextPid: Pid, p: Pid, f: Fate)
    requires ManagerInv(m, nextPid) && MonitorAlive(m) && FreshEnv(e, nextPid) && Final(f)
    ensures HasFate(MonitorStep(m, e).fate, p, f) <==> HasFate(m.fate, p, f) || Settles(m, i, MonitorOf(i), e, p, f)
  {
    MonitorMoved(m, e, nextPid);
    MoveGives(PlacesOf(m), PlacesOf(MonitorStep(m, e)), MonitorMove(m, e), nextPid, p, f);
  }

  /** The threads of other managers settle nothing here. */
  lemma OwnersSettle(s: State, i: Mid, a: Actor, e: Env, p: Pid, f: Fate)
    requires Inv(s) && i < |s.managers| && Settles(s.managers[i], i, a, e, p, f)
    ensures a == MonitorOf(i) || (a.Caller? && a.t in s.callers && s.callers[a.t] in {InStart(i), InStop(i)})
  {
    assert OwnersInv(i, s.managers[i], s.cell, s.callers);
  }

  lemma CallerSettles(s: State, t: Tid, e: Env, i: Mid, p: Pid, f: Fate)
    requires Inv(s) && Enabled(s, Caller(t)) && FreshEnv(e, s.nextPid) && i < |s.managers| && Final(f)
    ensures
      var m, x := s.managers[i], Next(s, Caller(t), e);
      && i < |x.managers|
      && (HasFate(x.managers[i].fate, p, f) <==> HasFate(m.fate, p, f) || Settles(m, i, Caller(t), e, p, f))
  {
    var m := s.managers[i];
    assert ManagerInv(m, s.nextPid);
    assert CallerInv(t, s.callers[t], s.cellHolder, s.managers);
    if s.callers[t] == InStart(i) {
      StartSettles(m, i, e, s.nextPid, p, f);
    } else if s.callers[t] == InStop(i) {
      StopSettles(m, i, e, s.nextPid, p, f);
    } else {
      OtherCallersKeepFates(s, t, e, i);
      if Settles(m, i, Caller(t), e, p, f) {
        OwnersSettle(s, i, Caller(t), e, p, f);
      }
    }
  }

  predicate AtCell(pc: Pc) {
    pc.InitEnter? || pc.InitLoad? || pc.StopEnter? || pc.ProbeEnter?
  }

  lemma CellKeepsFates(s: State, t: Tid, e: Env, i: Mid)
    requires Enabled(s, Caller(t)) && i < |s.managers| && AtCell(s.callers[t])
    ensures i < |Next(s, Caller(t), e).managers| && Next(s, Caller(t), e).managers[i].fate == s.managers[i].fate
  {
  }

  lemma QueueKeepsFates(s: State, t: Tid, e: Env, i: Mid)
    requires Enabled(s, Caller(t)) && i < |s.managers|
    requires s.callers[t].StartQueue? || s.callers[t].StopQueue? || s.callers[t].ProbeQueue?
    ensures i < |Next(s, Caller(t), e).managers| && Next(s, Caller(t), e).managers[i].fate == s.managers[i].fate
  {
  }

  lemma ProbeKeepsFates(s: State, t: Tid, e: Env, i: Mid)
    requires Enabled(s, Caller(t)) && i < |s.managers| && s.callers[t].InProbe?
    ensures i < |Next(s, Caller(t), e).managers| && Next(s, Caller(t), e).managers[i].fate == s.managers[i].fate
  {
    ProbeFramed(s.managers[s.callers[t].m], e);
  }

  lemma OtherCallersKeepFates(s: State, t: Tid, e: Env, i: Mid)
    requires Enabled(s, Caller(t)) && i < |s.managers| && s.callers[t] !in {InStart(i), InStop(i)}
    ensures i < |Next(s, Caller(t), e).managers| && Next(s, Caller(t), e).managers[i].fate == s.managers[i].fate
  {
    if AtCell(s.callers[t]) {
      CellKeepsFates(s, t, e, i);
    } else if s.callers[t].InProbe? {
      ProbeKeepsFates(s, t, e, i);
    } else if !s.callers[t].InStart? && !s.callers[t].InStop? {
      QueueKeepsFates(s, t, e, i);
    }
  }

  /** An event gives p a final fate in manager i exactly if it is one of those listed in `Settles`. */
  lemma EventSettles(s: State, ev: Event, i: Mid, p: Pid, f: Fate)
    requires Inv(s) && Allowed(s, ev) && i < |s.managers| && Final(f)
    ensures
      var m, x := s.managers[i], Apply(s, ev);
      && i < |x.managers|
      && (HasFate(x.managers[i].fate, p, f) <==> HasFate(m.fate, p, f) || (ev.Act? && Settles(m, i, ev.a, ev.e, p, f)))
  {
    var m := s.managers[i];
    assert ManagerInv(m, s.nextPid);
    match ev
    case Arrive(_, _) =>
    case Act(Caller(t), e) => CallerSettles(s, t, e, i, p, f);
    case Act(MonitorOf(j), e) =>
      if j == i {
        MonitorSettles(m, i, e, s.nextPid, p, f);
      } else if Settles(m, i, MonitorOf(j), e, p, f) {
        OwnersSettle(s, i, MonitorOf(j), e, p, f);
      }
  }

  /** In every run, whatever happens next: p becomes a dropped process of manager i exactly when i's
      monitor looks at `should_run` for the second time, with a trace agent to spawn, finds it clear,
      and p is the agent it has just spawned and not committed. */
  lemma DropExactly(events: seq<Event>, ev: Event, i: Mid, p: Pid)
    requires IsRun(events) && Allowed(StateAfter(events).value, ev) && i < |StateAfter(events).value.managers|
    requires !HasFate(StateAfter(events).value.managers[i].fate, p, Dropped)
    ensures
      var s := StateAfter(events).value;
      var m, x := s.managers[i], Apply(s, ev);
      && i < |x.managers|
      && (HasFate(x.managers[i].fate, p, Dropped) <==> ev.Act? && DropsAgent(m, i, ev.a, p))
  {
    RunKeepsInv(events);
    EventSettles(StateAfter(events).value, ev, i, p, Dropped);
  }

  /** In every run, whatever happens next: p is forgotten, neither seen to exit nor killed, exactly when
      `start` or the monitor of manager i checks the role whose slot holds p, and `try_wait` fails. */
  lemma AbandonExactly(events: seq<Event>, ev: Event, i: Mid, p: Pid)
    requires IsRun(events) && Allowed(StateAfter(events).value, ev) && i < |StateAfter(events).value.managers|
    requires !HasFate(StateAfter(events).value.managers[i].fate, p, Abandoned)
    ensures
      var s := StateAfter(events).value;
      var m, x := s.managers[i], Apply(s, ev);
      && i < |x.managers|
      && (HasFate(x.managers[i].fate, p, Abandoned) <==>
            ev.Act? && ev.e.probe.wait.WaitFailed? && ChecksAny(m, i, ev.a, p))
  {
    RunKeepsInv(events);
    EventSettles(StateAfter(events).value, ev, i, p, Abandoned);
  }

  // ---- Over whole runs ------------------------------------------------------------------------

  /** Event n of the run gave p the fate f in manager i. */
  ghost predicate SettledAt(events: seq<Event>, n: nat, i: Mid, p: Pid, f: Fate)
    requires n < |events|
  {
    && IsRun(events[..n]) && i < |StateAfter(events[..n]).value.managers|
    && events[n].Act?
    && Settles(StateAfter(events[..n]).value.managers[i], i, events[n].a, events[n].e, p, f)
  }

  ghost predicate HasCause(events: seq<Event>, i: Mid, p: Pid, f: Fate) {
    exists n: nat | n < |events| :: SettledAt(events, n, i, p, f)
  }

  lemma CausesAdd(events: seq<Event>, i: Mid, p: Pid, f: Fate)
    requires events != []
    ensures HasCause(events, i, p, f) <==>
              HasCause(events[..|events| - 1], i, p, f) || SettledAt(events, |events| - 1, i, p, f)
  {
    var before := events[..|events| - 1];
    forall n: nat | n < |before| ensures SettledAt(before, n, i, p, f) == SettledAt(events, n, i, p, f) {
      assert before[..n] == events[..n];
    }
  }

  /** A process has a final fate at the end of a run exactly if some event of the run gave it. */
  lemma {:induction false} FateHasCause(events: seq<Event>, i: Mid, p: Pid, f: Fate)
    requires IsRun(events) && i < |StateAfter(events).value.managers| && Final(f)
    ensures HasFate(StateAfter(events).value.managers[i].fate, p, f) <==> HasCause(events, i, p, f)
    decreases |events|
  {
    if events != [] {
      var before, last := events[..|events| - 1], events[|events| - 1];
      RunKeepsInv(before);
      CausesAdd(events, i, p, f);
      if i < |StateAfter(before).value.managers| {
        FateHasCause(before, i, p, f);
        EventSettles(StateAfter(before).value, last, i, p, f);
      } else {
        var _ := NewManagerIsFresh(StateAfter(before).value, last, i);
        NoCauseYet(before, i, p, f);
      }
    }
  }

  lemma NoCauseYet(events: seq<Event>, i: Mid, p: Pid, f: Fate)
    requires IsRun(events) && i >= |StateAfter(events).value.managers|
    ensures !HasCause(events, i, p, f)
  {
    forall n: nat | n < |events| ensures !SettledAt(events, n, i, p, f) {
      RunAdvances(events, n);
    }
  }

  /** No `try_wait` in the run fails. */
  ghost predicate NoWaitFails(events: seq<Event>) {
    forall n | 0 <= n < |events| && events[n].Act? :: !events[n].e.probe.wait.WaitFailed?
  }

  lemma NothingAbandoned(events: seq<Event>, i: Mid, p: Pid)
    requires IsRun(events) && i < |StateAfter(events).value.managers| && NoWaitFails(events)
    ensures !HasFate(StateAfter(events).value.managers[i].fate, p, Abandoned)
  {
    FateHasCause(events, i, p, Abandoned);
  }

  // ---- What stop leaves behind ----------------------------------------------------------------

  lemma QuietHasNoLiveFate(m: Manager, nextPid: Pid)
    requires ManagerInv(m, nextPid) && Quiet(m) && !m.work.StartWork?
    ensures forall p | p in m.fate :: Final(m.fate[p])
  {
  }

  lemma StopEndsQuietly(s: State, t: Tid, i: Mid)
    requires Inv(s) && t in s.callers && s.callers[t] == StopDone(Some(i))
    ensures i < |s.managers| && Quiet(s.managers[i]) && !s.managers[i].work.StartWork?
  {
    assert CallerInv(t, s.callers[t], s.cellHolder, s.managers);
    assert s.callers[t].RefersTo(i);
    assert OwnersInv(i, s.managers[i], s.cell, s.callers);
    if s.managers[i].work.StartWork? {
      StartIsAlone(s, i);
    }
  }

  /** When `stop` has returned, and in every later state, its manager is fully stopped, even if another
      thread did the work: nothing runs, and every process it ever spawned was seen exited, given to
      `graceful_kill`, forgotten on a `try_wait` error, or is the one agent process the monitor may drop;
      with no agent configured there is no such exception. If no `try_wait` failed, every process was
      seen exited or given to `graceful_kill`, except at most that one. */
  lemma StopLeavesNothing(events: seq<Event>, t: Tid, i: Mid)
    requires IsRun(events)
    requires t in StateAfter(events).value.callers && StateAfter(events).value.callers[t] == StopDone(Some(i))
    ensures
      var s := StateAfter(events).value;
      i < |s.managers| &&
      var m := s.managers[i];
      && Quiet(m)
      && (forall p | p in m.fate :: m.fate[p] in {Reaped, Abandoned, Killed, Dropped})
      && (NoWaitFails(events) ==> forall p | p in m.fate :: m.fate[p] in {Reaped, Killed, Dropped})
      && (forall p: Pid, q: Pid | HasFate(m.fate, p, Dropped) && HasFate(m.fate, q, Dropped) :: p == q)
      && (!m.agentEnabled ==> forall p: Pid :: !HasFate(m.fate, p, Dropped))
  {
    RunKeepsInv(events);
    var s := StateAfter(events).value;
    StopEndsQuietly(s, t, i);
    var m := s.managers[i];
    assert ManagerInv(m, s.nextPid);
    QuietHasNoLiveFate(m, s.nextPid);
    if NoWaitFails(events) {
      forall p | p in m.fate ensures m.fate[p] != Abandoned {
        NothingAbandoned(events, i, p);
        assert m.fate[p] == Abandoned ==> HasFate(m.fate, p, Abandoned);
      }
    }
  }
}
