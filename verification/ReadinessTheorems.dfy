/** What the readiness flag means, what a readiness probe does with it, and what a finished `stop` leaves
    of it and of the backoffs. */
module ReadinessTheorems {
  import opened Options
  import opened Supervision
  import opened ManagerSteps
  import opened Lifecycle
  import opened LifecycleTheorems
  import opened StopTheorems
  import opened BackoffRuns
  import opened ReadinessRuns
  import opened EntryTheorems

  // ---- What the flag vouches for ---------------------------------------------------------------

  /** In every run: the flag is true if and only if the last event that set it, resets included, was a wait
      for the endpoint that ended well; and then the process in the slot, if there is one, is the very
      process that wait was for. */
  lemma ReadyMeansWaitedFor(events: seq<Event>, i: Mid)
    requires IsRun(events) && i < |StateAfter(events).value.managers|
    ensures
      var m, tr := StateAfter(events).value.managers[i], TrailOf(events, i);
      && (m.ready <==> tr.last == Some(Waited(true)))
      && (m.ready ==> tr.accepted.Some? && (m.trace.role.child.Some? ==> m.trace.role.child == tr.accepted))
  {
    TrailIsTold(events, i);
  }

  /** In every run: once a trace agent was spawned, the flag is reset before the agent is recorded in its
      slot; the next step of the thread that spawned it is the reset. */
  lemma SpawnResetsFlag(events: seq<Event>, i: Mid)
    requires IsRun(events) && i < |StateAfter(events).value.managers|
    ensures
      var m := StateAfter(events).value.managers[i];
      TrailOf(events, i).stale ==>
        && m.trace.role.child.None?
        && (m.monitor.at.MSpawnReady? || (m.work.StartWork? && m.work.startAt.SSpawnReady?))
  {
    TrailIsTold(events, i);
    RunKeepsInv(events);
    var s := StateAfter(events).value;
    assert ManagerInv(s.managers[i], s.nextPid);
    if TrailOf(events, i).stale {
      StaleIsUnrecorded(s.managers[i], TrailOf(events, i));
    }
  }

  lemma StaleIsUnrecorded(m: Manager, tr: Trail)
    requires BaseInv(m) && TrailInv(m, tr) && tr.stale
    ensures m.trace.role.child.None?
    ensures m.monitor.at.MSpawnReady? || (m.work.StartWork? && m.work.startAt.SSpawnReady?)
  {
  }

  lemma TicksRecord(m: Manager, t: Tid, at: StartPoint, e: Env)
    requires m.trace.role.child.None? && StartTicks(m, t, at, e).trace.role.child.Some?
    ensures StartTicks(m, t, at, e).work == StartWork(t, SCommitReady)
  {
  }

  lemma StartRecords(m: Manager, e: Env)
    requires m.work.StartWork? && m.trace.role.child.None? && StartStep(m, e).trace.role.child.Some?
    ensures StartStep(m, e).work == StartWork(m.work.t, SCommitReady)
  {
    if Ticks(m.work.startAt) {
      TicksRecord(m, m.work.t, m.work.startAt, e);
    }
  }

  lemma ActRecords(m: Manager, e: Env, phase: Phase, r: RoleName)
    requires m.trace.role.child.None? && MonitorActs(m, e, phase, r).trace.role.child.Some?
    ensures MonitorActs(m, e, phase, r).monitor.at.MResetReady?
  {
  }

  lemma MonitorRecords(m: Manager, e: Env)
    requires m.trace.role.child.None? && MonitorStep(m, e).trace.role.child.Some?
    ensures MonitorStep(m, e).monitor.at.MResetReady?
  {
    if m.monitor.at.MAct? {
      ActRecords(m, e, m.monitor.at.phase, m.monitor.at.role);
    }
  }

  lemma OthersRecordNothing(m: Manager, i: Mid, t: Tid, pc: Pc, e: Env)
    requires m.trace.role.child.None? && pc != InStart(i)
    ensures CallerOn(m, i, t, pc, e).trace.role.child.None?
  {
  }

  /** In every run: once a trace agent is recorded in its slot, the next step of the thread that recorded it
      resets the flag, once more. */
  lemma RecordResetsFlag(events: seq<Event>, a: Actor, e: Env, i: Mid)
    requires IsRun(events) && Enabled(StateAfter(events).value, a) && i < |StateAfter(events).value.managers|
    ensures i < |Next(StateAfter(events).value, a, e).managers|
    ensures
      var m, x := StateAfter(events).value.managers[i], Next(StateAfter(events).value, a, e).managers[i];
      m.trace.role.child.None? && x.trace.role.child.Some? ==> Resets(x, i, a)
  {
    var s := StateAfter(events).value;
    RunKeepsInv(events);
    match a
    case Caller(t) =>
      CallerStepOn(s, t, e, i);
      assert CallerInv(t, s.callers[t], s.cellHolder, s.managers);
      Records(s.managers[i], i, t, s.callers[t], e);
    case MonitorOf(k) => MonitorRecorded(s, k, e, i);
  }

  lemma MonitorRecorded(s: State, k: Mid, e: Env, i: Mid)
    requires Enabled(s, MonitorOf(k)) && i < |s.managers|
    ensures i < |Next(s, MonitorOf(k), e).managers|
    ensures
      var m, x := s.managers[i], Next(s, MonitorOf(k), e).managers[i];
      m.trace.role.child.None? && x.trace.role.child.Some? ==> Resets(x, i, MonitorOf(k))
  {
    var m := s.managers[i];
    if k == i && m.trace.role.child.None? && MonitorStep(m, e).trace.role.child.Some? {
      MonitorRecords(m, e);
    }
  }

  lemma Records(m: Manager, i: Mid, t: Tid, pc: Pc, e: Env)
    requires pc == InStart(i) ==> m.work.StartWork? && m.work.t == t
    ensures
      var x := CallerOn(m, i, t, pc, e);
      m.trace.role.child.None? && x.trace.role.child.Some? ==> Resets(x, i, Caller(t))
  {
    if m.trace.role.child.None? {
      if pc != InStart(i) {
        OthersRecordNothing(m, i, t, pc, e);
      } else if StartStep(m, e).trace.role.child.Some? {
        StartRecords(m, e);
      }
    }
  }

  /** Each of the resets in `start`, in `stop` and around the monitor's spawn clears the flag, whoever set
      it. */
  lemma ResetClearsFlag(events: seq<Event>, a: Actor, e: Env, i: Mid)
    requires IsRun(events) && Enabled(StateAfter(events).value, a) && i < |StateAfter(events).value.managers|
    requires Resets(StateAfter(events).value.managers[i], i, a)
    ensures i < |Next(StateAfter(events).value, a, e).managers|
    ensures !Next(StateAfter(events).value, a, e).managers[i].ready
  {
    var s := StateAfter(events).value;
    RunKeepsInv(events);
    if a.Caller? {
      assert OwnersInv(i, s.managers[i], s.cell, s.callers);
      CallerStepOn(s, a.t, e, i);
    }
    StepClears(s.managers[i], i, a, e);
  }

  lemma StepClears(m: Manager, i: Mid, a: Actor, e: Env)
    requires Resets(m, i, a)
    ensures m.work.StartWork? && a == Caller(m.work.t) ==> !StartStep(m, e).ready
    ensures m.work.StopWork? && a == Caller(m.work.t) ==> !StopStep(m).ready
    ensures a == MonitorOf(i) ==> !MonitorStep(m, e).ready
  {
  }

  /** In every run the flag is clear from the moment a thread is inside `start` until it returns. */
  lemma StartLeavesFlagClear(events: seq<Event>, i: Mid)
    requires IsRun(events) && i < |StateAfter(events).value.managers|
    ensures
      var m := StateAfter(events).value.managers[i];
      m.work.StartWork? ==> !m.ready && m.prober.NoProber?
  {
    TrailIsTold(events, i);
    LockInversion(events, i);
  }

  // ---- One call of `ensure_trace_agent_ready` --------------------------------------------------

  /** What one step of a call met, and the flag it left. */
  datatype Seen = Seen(flag: bool, slotFilled: bool, accepts: bool, after: bool)

  /** The steps of t's call since it took the readiness lock. */
  ghost function SeenBy(events: seq<Event>, t: Tid): seq<Seen> {
    if events == [] then []
    else
      var before, last := events[..|events| - 1], events[|events| - 1];
      var s := StateAfter(before);
      if s.Some? && Allowed(s.value, last) && last.Act? && last.a == Caller(t) && s.value.callers[t].InProbe? then
        SeenBy(before, t) + [Look(s.value, last)]
      else SeenBy(before, t)
  }

  ghost function Look(s: State, ev: Event): Seen
    requires Allowed(s, ev) && ev.Act? && ev.a.Caller? && s.callers[ev.a.t].InProbe?
  {
    var i := s.callers[ev.a.t].m;
    Seen(s.managers[i].ready, s.managers[i].trace.role.child.Some?, ev.e.accepts, Apply(s, ev).managers[i].ready)
  }

  /** A finished call: with the flag true it did nothing more; with the flag false and the slot empty it
      left the flag false; otherwise it waited, and left the flag equal to the outcome. */
  predicate CallOver(seen: seq<Seen>) {
    && seen != []
    && if seen[0].flag then |seen| == 1 && seen[0].after
       else
         && |seen| >= 2 && !seen[0].after
         && if !seen[1].slotFilled then |seen| == 2 && !seen[1].after
            else |seen| == 3 && !seen[1].after && seen[2].after == seen[2].accepts
  }

  predicate CallInv(s: State, t: Tid, seen: seq<Seen>)
    requires t in s.callers
  {
    match s.callers[t]
    case InProbe(i) =>
      i < |s.managers| && s.managers[i].prober.Prober? &&
      (match s.managers[i].prober.at
       case RTest => seen == []
       case RPeek => |seen| == 1 && !seen[0].flag && !seen[0].after
       case RWait => |seen| == 2 && !seen[0].flag && !seen[0].after && seen[1].slotFilled && !seen[1].after)
    case ProbeDone => CallOver(seen)
    case _ => seen == []
  }

  lemma OwnProbeStep(s: State, t: Tid, e: Env, seen: seq<Seen>, tr: Trail)
    requires Inv(s) && Enabled(s, Caller(t)) && FreshEnv(e, s.nextPid) && s.callers[t].InProbe?
    requires CallInv(s, t, seen) && Told(s.managers[s.callers[t].m], tr)
    ensures CallInv(Next(s, Caller(t), e), t, seen + [Look(s, Act(Caller(t), e))])
  {
  }

  lemma OwnOtherStep(s: State, t: Tid, e: Env)
    requires Inv(s) && Enabled(s, Caller(t)) && !s.callers[t].InProbe?
    ensures
      var x := Next(s, Caller(t), e);
      && t in x.callers && !x.callers[t].ProbeDone?
      && (x.callers[t].InProbe? ==>
            var i := x.callers[t].m;
            i < |x.managers| && x.managers[i].prober == Prober(t, RTest))
  {
  }

  /** Threads inside a section keep every prober. */
  lemma SectionKeepsProbers(s: State, u: Tid, e: Env, k: Mid)
    requires Enabled(s, Caller(u)) && FreshEnv(e, s.nextPid) && Inv(s) && s.callers[u] in {InStart(k), InStop(k)}
    ensures
      var x := Next(s, Caller(u), e);
      |x.managers| == |s.managers| && forall i | 0 <= i < |s.managers| :: x.managers[i].prober == s.managers[i].prober
  {
    assert CallerInv(u, s.callers[u], s.cellHolder, s.managers);
    assert ManagerInv(s.managers[k], s.nextPid);
    if s.callers[u].InStart? {
      StartFramed(s.managers[k], e);
    } else {
      StopFramed(s.managers[k]);
    }
  }

  /** Threads at the cell or in a queue keep every prober that is under way. */
  lemma OutsideKeepsProbers(s: State, u: Tid, e: Env, i: Mid)
    requires Enabled(s, Caller(u)) && i < |s.managers| && s.managers[i].prober.Prober?
    requires !s.callers[u].InStart? && !s.callers[u].InStop? && s.callers[u] != InProbe(i)
    ensures i < |Next(s, Caller(u), e).managers| && Next(s, Caller(u), e).managers[i].prober == s.managers[i].prober
  {
    if s.callers[u] == StartQueue(i) || s.callers[u] == StopQueue(i) {
    } else {
      ElsewhereKeepsManager(s, u, e, i);
    }
  }

  lemma OtherCallerKeepsProbe(s: State, u: Tid, e: Env, t: Tid)
    requires Inv(s) && Enabled(s, Caller(u)) && FreshEnv(e, s.nextPid) && t in s.callers && u != t
    requires s.callers[t].InProbe?
    ensures
      var i, x := s.callers[t].m, Next(s, Caller(u), e);
      i < |s.managers| && i < |x.managers| && x.managers[i].prober == s.managers[i].prober
  {
    var i := s.callers[t].m;
    assert CallerInv(t, s.callers[t], s.cellHolder, s.managers);
    assert OwnersInv(i, s.managers[i], s.cell, s.callers);
    assert CallerInv(u, s.callers[u], s.cellHolder, s.managers);
    match s.callers[u]
    case InStart(k) => SectionKeepsProbers(s, u, e, k);
    case InStop(k) => SectionKeepsProbers(s, u, e, k);
    case _ => OutsideKeepsProbers(s, u, e, i);
  }

  /** Steps of other threads leave a call where it is. */
  lemma OthersKeepCall(s: State, ev: Event, t: Tid, seen: seq<Seen>)
    requires Inv(s) && Allowed(s, ev) && t in s.callers && (ev.Act? ==> ev.a != Caller(t)) && CallInv(s, t, seen)
    ensures t in Apply(s, ev).callers && CallInv(Apply(s, ev), t, seen)
  {
    match ev
    case Arrive(_, _) =>
    case Act(Caller(u), e) =>
      OtherStepsKeepPoint(s, ev, t);
      if s.callers[t].InProbe? {
        OtherCallerKeepsProbe(s, u, e, t);
      }
    case Act(MonitorOf(j), e) => MonitorFramed(s.managers[j], e);
  }

  lemma {:induction false} CallsFollow(events: seq<Event>, t: Tid)
    requires IsRun(events)
    ensures t !in StateAfter(events).value.callers ==> SeenBy(events, t) == []
    ensures t in StateAfter(events).value.callers ==> CallInv(StateAfter(events).value, t, SeenBy(events, t))
    decreases |events|
  {
    if events != [] {
      var before, last := events[..|events| - 1], events[|events| - 1];
      RunKeepsInv(before);
      CallsFollow(before, t);
      var s, seen := StateAfter(before).value, SeenBy(before, t);
      if t in s.callers && last.Act? && last.a == Caller(t) {
        if s.callers[t].InProbe? {
          var i := s.callers[t].m;
          TrailIsTold(before, i);
          OwnProbeStep(s, t, last.e, seen, TrailOf(before, i));
        } else {
          OwnOtherStep(s, t, last.e);
        }
      } else if t in s.callers {
        OthersKeepCall(s, last, t, seen);
      }
    }
  }

  /** In every run, for every call of `ensure_trace_agent_ready` that has returned: if it found the flag
      true it returned without another step. If it found it false and then the slot empty, it returned
      without waiting and left it false. Otherwise it waited, and left the flag equal to the outcome. */
  lemma ProbeCallExact(events: seq<Event>, t: Tid)
    requires IsRun(events)
    requires t in StateAfter(events).value.callers && StateAfter(events).value.callers[t].ProbeDone?
    ensures CallOver(SeenBy(events, t))
  {
    CallsFollow(events, t);
  }

  // ---- What a finished `stop` resets -----------------------------------------------------------

  /** How many of the four resets the thread inside `stop` has made, once the children are gone. */
  function ResetsMade(m: Manager): nat {
    if !Ended(m.run, m.monitor.at) then 0
    else
      match m.work
      case StopWork(_, PJoin) => 0
      case StopWork(_, PTakeChild(_)) => 0
      case StopWork(_, PKill(_)) => 0
      case StopWork(_, PResetReady) => 0
      case StopWork(_, PReset(AgentBackoff)) => 0
      case StopWork(_, PReset(AgentDeadline)) => 1
      case StopWork(_, PReset(TraceBackoff)) => 2
      case StopWork(_, PReset(TraceDeadline)) => 3
      case _ => 4
  }

  predicate ResetInv(m: Manager) {
    var n := ResetsMade(m);
    && (n > 0 ==> m.agent.role.backoffSecs == BACKOFF_INITIAL_SECS)
    && (n > 1 ==> m.agent.role.nextAttempt.None?)
    && (n > 2 ==> m.trace.role.backoffSecs == BACKOFF_INITIAL_SECS)
    && (n > 3 ==> m.trace.role.nextAttempt.None?)
  }

  lemma StopResets(m: Manager)
    requires BaseInv(m) && m.work.StopWork? && SectionEnabled(m) && ResetInv(m)
    ensures ResetInv(StopStep(m))
  {
  }

  lemma StartKeepsResets(m: Manager, e: Env)
    requires BaseInv(m) && m.work.StartWork? && ResetInv(m)
    ensures ResetInv(StartStep(m, e))
  {
    StartControl(m, e);
  }

  lemma MonitorKeepsResets(m: Manager, e: Env)
    requires BaseInv(m) && MonitorAlive(m)
    ensures ResetInv(MonitorStep(m, e))
  {
    MonitorControl(m, e);
    MonitorFramed(m, e);
  }

  lemma CallerKeepsResets(m: Manager, i: Mid, t: Tid, pc: Pc, e: Env)
    requires BaseInv(m) && ResetInv(m)
    requires pc == InStop(i) && m.work.StopWork? ==> SectionEnabled(m)
    requires pc == StartQueue(i) ==> m.run.starts == 0
    requires pc == StopQueue(i) ==> m.work.Idle?
    ensures ResetInv(CallerOn(m, i, t, pc, e))
  {
    match pc
    case InStart(k) => if k == i && m.work.StartWork? { StartKeepsResets(m, e); }
    case InStop(k) => if k == i && m.work.StopWork? { StopResets(m); }
    case InProbe(k) => if k == i && m.prober.Prober? { ProbeFramed(m, e); }
    case _ =>
  }

  lemma {:induction false} ResetsHold(events: seq<Event>, i: Mid)
    requires IsRun(events) && i < |StateAfter(events).value.managers|
    ensures ResetInv(StateAfter(events).value.managers[i])
    decreases |events|
  {
    var before, last := events[..|events| - 1], events[|events| - 1];
    RunKeepsInv(before);
    var s := StateAfter(before).value;
    if i < |s.managers| {
      ResetsHold(before, i);
      assert ManagerInv(s.managers[i], s.nextPid);
      match last
      case Arrive(_, _) =>
      case Act(Caller(t), e) =>
        CallerStepOn(s, t, e, i);
        assert CallerInv(t, s.callers[t], s.cellHolder, s.managers);
        CallerKeepsResets(s.managers[i], i, t, s.callers[t], e);
      case Act(MonitorOf(j), e) => if j == i { MonitorKeepsResets(s.managers[i], e); }
    } else {
      var agentEnabled := NewManagerIsFresh(s, last, i);
    }
  }

  /** Stopped for good, or never started: nobody resets anything any more. */
  predicate AtRest(m: Manager) {
    && (m.run.starts == 0 || Ended(m.run, m.monitor.at))
    && (m.work.StopWork? ==> m.work.stopAt.PSwap? || m.work.stopAt.PReturn?)
    && !m.work.StartWork?
  }

  lemma StopKeepsRest(m: Manager)
    requires BaseInv(m) && m.work.StopWork?
    ensures AtRest(m) ==> AtRest(StopStep(m))
    ensures StopStep(m).work.Idle? ==> AtRest(StopStep(m))
  {
  }

  lemma MonitorKeepsRest(m: Manager)
    requires BaseInv(m) && AtRest(m)
    ensures !MonitorAlive(m)
  {
  }

  lemma CallerKeepsRest(m: Manager, i: Mid, t: Tid, pc: Pc, e: Env)
    requires BaseInv(m) && AtRest(m) && pc != StartQueue(i) && pc != InStart(i)
    ensures AtRest(CallerOn(m, i, t, pc, e))
  {
    match pc
    case InStop(k) => if k == i && m.work.StopWork? { StopKeepsRest(m); }
    case InProbe(k) => if k == i && m.prober.Prober? { ProbeFramed(m, e); }
    case _ =>
  }

  /** After the step by which t's `stop` of manager i returns, and after every later one, i is at rest. */
  lemma EventKeepsRest(s: State, ev: Event, t: Tid, i: Mid)
    requires Inv(s) && Allowed(s, ev)
    requires t in Apply(s, ev).callers && Apply(s, ev).callers[t] == StopDone(Some(i))
    requires t in s.callers && s.callers[t] == StopDone(Some(i)) ==> i < |s.managers| && AtRest(s.managers[i])
    ensures i < |Apply(s, ev).managers| && AtRest(Apply(s, ev).managers[i])
  {
    if t in s.callers && s.callers[t] == StopDone(Some(i)) {
      assert s.callers[t].RefersTo(i);
      assert ManagerInv(s.managers[i], s.nextPid);
      MonitorKeepsRest(s.managers[i]);
      match ev
      case Arrive(_, _) =>
      case Act(Caller(u), e) =>
        CallerStepOn(s, u, e, i);
        assert CallerInv(u, s.callers[u], s.cellHolder, s.managers);
        CallerKeepsRest(s.managers[i], i, u, s.callers[u], e);
      case Act(MonitorOf(_), _) =>
    } else {
      LastStopStep(s, ev, t, i);
    }
  }

  lemma LastStopStep(s: State, ev: Event, t: Tid, i: Mid)
    requires Inv(s) && Allowed(s, ev)
    requires t in Apply(s, ev).callers && Apply(s, ev).callers[t] == StopDone(Some(i))
    requires t in s.callers ==> s.callers[t] != StopDone(Some(i))
    ensures i < |Apply(s, ev).managers| && AtRest(Apply(s, ev).managers[i])
  {
    OnlyOwnStepReturns(s, ev, t, i);
    assert CallerInv(t, s.callers[t], s.cellHolder, s.managers);
    assert ManagerInv(s.managers[i], s.nextPid);
    CallerStepOn(s, t, ev.e, i);
    StopKeepsRest(s.managers[i]);
  }

  lemma OnlyOwnStepReturns(s: State, ev: Event, t: Tid, i: Mid)
    requires Inv(s) && Allowed(s, ev)
    requires t in Apply(s, ev).callers && Apply(s, ev).callers[t] == StopDone(Some(i))
    requires t in s.callers ==> s.callers[t] != StopDone(Some(i))
    ensures ev.Act? && ev.a == Caller(t) && s.callers[t] == InStop(i)
    ensures i < |s.managers| && s.managers[i].work.StopWork? && StopStep(s.managers[i]).work.Idle?
  {
    match ev
    case Arrive(_, _) =>
    case Act(Caller(u), e) =>
      assert CallerInv(u, s.callers[u], s.cellHolder, s.managers);
      if u != t && t in s.callers {
        OtherStepsKeepPoint(s, ev, t);
      }
    case Act(MonitorOf(_), _) =>
  }

  lemma {:induction false} StoppedIsAtRest(events: seq<Event>, t: Tid, i: Mid)
    requires IsRun(events)
    requires t in StateAfter(events).value.callers && StateAfter(events).value.callers[t] == StopDone(Some(i))
    ensures i < |StateAfter(events).value.managers| && AtRest(StateAfter(events).value.managers[i])
    decreases |events|
  {
    var before, last := events[..|events| - 1], events[|events| - 1];
    RunKeepsInv(before);
    var s := StateAfter(before).value;
    if t in s.callers && s.callers[t] == StopDone(Some(i)) {
      StoppedIsAtRest(before, t, i);
    }
    EventKeepsRest(s, last, t, i);
  }

  predicate RoleReset(r: Role) {
    r.child.None? && r.backoffSecs == 1 && r.nextAttempt.None?
  }

  /** When `stop` has returned, and in every later state, its manager is as a new one would be: the
      readiness flag clear, no child, the backoffs at one second and no deadline. */
  lemma FinishedStopIsReset(events: seq<Event>, t: Tid, i: Mid)
    requires IsRun(events)
    requires t in StateAfter(events).value.callers && StateAfter(events).value.callers[t] == StopDone(Some(i))
    ensures
      var s := StateAfter(events).value;
      && i < |s.managers|
      && !s.managers[i].ready && RoleReset(s.managers[i].agent.role) && RoleReset(s.managers[i].trace.role)
  {
    RunKeepsInv(events);
    StoppedIsAtRest(events, t, i);
    StopEndsQuietly(StateAfter(events).value, t, i);
    ResetsHold(events, i);
    TrailIsTold(events, i);
    RolesFollowVisits(events, i, Agent);
    RolesFollowVisits(events, i, TraceAgent);
  }
}
