/** When the roles are visited, and when a visit attempts a spawn, in every run. */
module VisitTheorems {
  import opened Options
  import opened Supervision
  import opened ManagerSteps
  import opened Lifecycle
  import opened LifecycleTheorems
  import opened BackoffRuns

  // ---- A spawn is attempted exactly when one is due --------------------------------------------

  ghost predicate TriedWhenDue(v: Visits) {
    && |v.tried| == |v.done|
    && (forall k | 0 <= k < |v.done| :: v.tried[k] <==> Due(v.done[..k], v.done[k].probe))
    && (v.pending.Some? ==> Due(v.done, v.pending.value))
  }

  lemma OneMoreTried(v: Visits, w: Visits, tick: Tick, tried: bool)
    requires TriedWhenDue(v) && (tried <==> Due(v.done, tick.probe))
    requires w.done == v.done + [tick] && w.tried == v.tried + [tried] && w.pending.None?
    ensures TriedWhenDue(w)
  {
    forall k | 0 <= k < |w.done| ensures w.tried[k] <==> Due(w.done[..k], w.done[k].probe) {
      assert w.done[..k] == v.done[..k];
      assert k == |v.done| ==> v.done[..k] == v.done;
    }
  }

  lemma LookedWhenDue(v: Visits, role: Role, p: Probe)
    requires TriedWhenDue(v) && v.pending.None? && role == RoleAfter(v.done)
    ensures TriedWhenDue(Looked(v, role, p))
  {
    var tick := Tick(p, SpawnFailed, p.now);
    AttemptsWhenDue(v.done, tick);
    if !Checked(role, p).1 {
      OneMoreTried(v, Looked(v, role, p), tick, false);
    }
  }

  lemma RecordedWhenDue(v: Visits, now: Millis)
    requires TriedWhenDue(v) && v.pending.Some? && v.outcome.Some?
    ensures TriedWhenDue(Recorded(v, now))
  {
    OneMoreTried(v, Recorded(v, now), Tick(v.pending.value, v.outcome.value, now), true);
  }

  lemma LooksInSession(m: Manager, i: Mid, a: Actor, v: Visits, r: RoleName)
    requires BaseInv(m) && Follows(m, v, r) && Looks(m, i, a, r)
    ensures InSession(m) && v.pending.None? && m.SeatOf(r).role == RoleAfter(v.done)
  {
    LookFindsNothingPending(m, i, a, v, r);
    if a.MonitorOf? {
      MonitorInSession(m);
    }
  }

  lemma AdvanceWhenDue(m: Manager, i: Mid, a: Actor, e: Env, v: Visits, r: RoleName)
    requires BaseInv(m) && Follows(m, v, r) && TriedWhenDue(v)
    ensures TriedWhenDue(Advance(v, m, i, a, e, r))
  {
    if Looks(m, i, a, r) {
      LooksInSession(m, i, a, v, r);
      LookedWhenDue(v, m.SeatOf(r).role, e.probe);
    } else if Commits(m, i, a, r) && v.pending.Some? && v.outcome.Some? {
      RecordedWhenDue(v, if a.Caller? then v.pending.value.now else e.now);
    }
  }

  /** In every run: a visit to a role attempts a spawn if and only if one is due after the visits before it.
      So no attempt is made while a process runs, while the endpoint is served or before the wait after k
      failures is over, and the first visit after that makes one. */
  lemma {:induction false} AttemptsInRuns(events: seq<Event>, i: Mid, r: RoleName)
    requires IsRun(events)
    ensures TriedWhenDue(VisitsOf(events, i, r))
    decreases |events|
  {
    if events != [] {
      var before, last := events[..|events| - 1], events[|events| - 1];
      AttemptsInRuns(before, i, r);
      RunKeepsInv(before);
      var s := StateAfter(before).value;
      if i < |s.managers| && last.Act? {
        RolesFollowVisits(before, i, r);
        assert ManagerInv(s.managers[i], s.nextPid);
        AdvanceWhenDue(s.managers[i], i, last.a, last.e, VisitsOf(before, i, r), r);
      }
    }
  }

  // ---- `start` visits every configured role ----------------------------------------------------

  /** `start` is past its visit to r. */
  predicate PastVisit(at: StartPoint, r: RoleName) {
    match at
    case STake(_, q) => r == Agent && q == TraceAgent
    case SCheck(q) => r == Agent && q == TraceAgent
    case SSpawn(q, _) => r == Agent && q == TraceAgent
    case SSpawnReady(_, _) => r == Agent
    case SCommit(q, _, _) => r == Agent && q == TraceAgent
    case SCommitReady => true
    case SUnlock(q) => r == Agent || q == TraceAgent
    case STakeMonitorThread => true
    case SStartMonitor => true
    case SReturn => true
    case _ => false
  }

  predicate Configured(m: Manager, r: RoleName) {
    r == Agent ==> m.agentEnabled
  }

  predicate StartVisited(m: Manager, v: Visits, r: RoleName) {
    m.work.StartWork? && Configured(m, r) ==>
      if PastVisit(m.work.startAt, r) then v.done != [] else v.done == []
  }

  lemma StartGoesOn(m: Manager, e: Env, v: Visits, r: RoleName)
    requires BaseInv(m) && m.work.StartWork? && Follows(m, v, r) && StartVisited(m, v, r)
    ensures StartVisited(StartStep(m, e), StartVisits(v, m.SeatOf(r).role, m.work.startAt, e, r), r)
  {
    var t, at := m.work.t, m.work.startAt;
    if Ticks(at) {
      TicksGoOn(m, t, at, e, v, r);
    } else if !at.SSwap? && !at.SStartMonitor? && !at.SReturn? && Configured(m, r) {
      MovesGoOn(at, m.agentEnabled, r);
    }
  }

  lemma TicksGoOn(m: Manager, t: Tid, at: StartPoint, e: Env, v: Visits, r: RoleName)
    requires BaseInv(m) && m.work == StartWork(t, at) && Ticks(at) && Follows(m, v, r) && StartVisited(m, v, r)
    ensures StartVisited(StartTicks(m, t, at, e), StartVisits(v, m.SeatOf(r).role, at, e, r), r)
  {
    if at.SCheck? {
      CheckGoesOn(m, t, at.role, e, v, r);
    } else if at.SCommit? {
      CommitGoesOn(m, t, at, e, v, r);
    }
  }

  lemma CheckGoesOn(m: Manager, t: Tid, q: RoleName, e: Env, v: Visits, r: RoleName)
    requires BaseInv(m) && m.work == StartWork(t, SCheck(q)) && StartVisited(m, v, r)
    ensures StartVisited(StartTicks(m, t, SCheck(q), e), StartVisits(v, m.SeatOf(r).role, SCheck(q), e, r), r)
  {
  }

  lemma CommitGoesOn(m: Manager, t: Tid, at: StartPoint, e: Env, v: Visits, r: RoleName)
    requires BaseInv(m) && m.work == StartWork(t, at) && at.SCommit? && Follows(m, v, r) && StartVisited(m, v, r)
    ensures StartVisited(StartTicks(m, t, at, e), StartVisits(v, m.SeatOf(r).role, at, e, r), r)
  {
  }

  lemma MovesGoOn(at: StartPoint, agentEnabled: bool, r: RoleName)
    requires !Ticks(at) && !at.SSwap? && !at.SStartMonitor? && !at.SReturn?
    requires r == Agent ==> agentEnabled
    ensures PastVisit(NextStart(at, agentEnabled), r) <==> PastVisit(at, r)
  {
  }

  lemma VisitsNeverVanish(v: Visits, m: Manager, i: Mid, a: Actor, e: Env, r: RoleName)
    ensures v.done <= Advance(v, m, i, a, e, r).done && v.tried <= Advance(v, m, i, a, e, r).tried
  {
  }

  lemma EventGoesOn(s: State, ev: Event, i: Mid, v: Visits, r: RoleName)
    requires Inv(s) && Allowed(s, ev) && i < |s.managers| && Follows(s.managers[i], v, r)
    requires StartVisited(s.managers[i], v, r)
    ensures i < |Apply(s, ev).managers|
    ensures
      StartVisited(Apply(s, ev).managers[i], if ev.Act? then Advance(v, s.managers[i], i, ev.a, ev.e, r) else v, r)
  {
    match ev
    case Arrive(_, _) =>
    case Act(Caller(t), e) => CallerGoesOn(s, t, e, i, v, r);
    case Act(MonitorOf(j), e) =>
      VisitsNeverVanish(v, s.managers[i], i, ev.a, e, r);
      if j == i {
        assert ManagerInv(s.managers[i], s.nextPid);
        MonitorStepGoesOn(s.managers[i], e, v, Advance(v, s.managers[i], i, ev.a, e, r), r);
      }
  }

  lemma MonitorStepGoesOn(m: Manager, e: Env, v: Visits, w: Visits, r: RoleName)
    requires BaseInv(m) && MonitorEnabled(m) && StartVisited(m, v, r) && v.done <= w.done
    ensures StartVisited(MonitorStep(m, e), w, r)
  {
    MonitorFramed(m, e);
    MonitorGoesOn(m, v, r);
  }

  /** While the monitor runs, `start` is at its return or over. */
  lemma MonitorGoesOn(m: Manager, v: Visits, r: RoleName)
    requires BaseInv(m) && MonitorAlive(m)
    ensures m.work.StartWork? ==> m.work.startAt.SReturn?
  {
  }

  lemma CallerGoesOn(s: State, t: Tid, e: Env, i: Mid, v: Visits, r: RoleName)
    requires Inv(s) && Enabled(s, Caller(t)) && i < |s.managers| && Follows(s.managers[i], v, r)
    requires StartVisited(s.managers[i], v, r)
    ensures
      var x := Next(s, Caller(t), e);
      i < |x.managers| && StartVisited(x.managers[i], Advance(v, s.managers[i], i, Caller(t), e, r), r)
  {
    var m := s.managers[i];
    assert ManagerInv(m, s.nextPid);
    assert CallerInv(t, s.callers[t], s.cellHolder, s.managers);
    if s.callers[t] == InStart(i) {
      StartAdvances(m, i, e, v, r);
      StartGoesOn(m, e, v, r);
    } else {
      OthersVisitNothing(s, t, e, i, v, r);
      if s.callers[t] == StartQueue(i) {
        QueuedIsUnchecked(s, t, i);
      } else {
        OthersKeepStart(s, t, e, i);
      }
    }
  }

  lemma QueuedIsUnchecked(s: State, t: Tid, i: Mid)
    requires Inv(s) && t in s.callers && s.callers[t] == StartQueue(i)
    ensures i < |s.managers| && s.managers[i].run.starts == 0
  {
    assert CallerInv(t, s.callers[t], s.cellHolder, s.managers);
  }

  lemma OthersKeepStart(s: State, t: Tid, e: Env, i: Mid)
    requires Inv(s) && Enabled(s, Caller(t)) && i < |s.managers| && s.callers[t] !in {InStart(i), StartQueue(i)}
    ensures
      var x := Next(s, Caller(t), e);
      && i < |x.managers| && x.managers[i].agentEnabled == s.managers[i].agentEnabled
      && (x.managers[i].work.StartWork? ==> x.managers[i].work == s.managers[i].work)
  {
    var m := s.managers[i];
    assert CallerInv(t, s.callers[t], s.cellHolder, s.managers);
    if s.callers[t] == InStop(i) {
      StopFramed(m);
    } else if s.callers[t] == InProbe(i) {
      ProbeFramed(m, e);
    } else if s.callers[t] != StopQueue(i) && s.callers[t] != ProbeQueue(i) {
      ElsewhereKeepsManager(s, t, e, i);
    }
  }

  lemma {:induction false} StartVisitsRoles(events: seq<Event>, i: Mid, r: RoleName)
    requires IsRun(events) && i < |StateAfter(events).value.managers|
    ensures StartVisited(StateAfter(events).value.managers[i], VisitsOf(events, i, r), r)
    decreases |events|
  {
    var before, last := events[..|events| - 1], events[|events| - 1];
    RunKeepsInv(before);
    var s := StateAfter(before).value;
    if i < |s.managers| {
      StartVisitsRoles(before, i, r);
      RolesFollowVisits(before, i, r);
      EventGoesOn(s, last, i, VisitsOf(before, i, r), r);
    } else {
      var agentEnabled := NewManagerIsFresh(s, last, i);
    }
  }

  lemma FirstVisitIsFree(events: seq<Event>, i: Mid, r: RoleName)
    requires IsRun(events) && VisitsOf(events, i, r).done != []
    ensures
      var v := VisitsOf(events, i, r);
      |v.tried| > 0 && (v.tried[0] <==> !v.done[0].probe.busy)
  {
    AttemptsInRuns(events, i, r);
    var v := VisitsOf(events, i, r);
    assert v.done[..0] == [];
    assert v.tried[0] <==> Due([], v.done[0].probe);
  }

  /** In every run: when `start` is about to start the monitor or to return, it has visited every configured
      role, and its visit spawned a process if and only if the role's endpoint was free. */
  lemma StartServesEveryRole(events: seq<Event>, i: Mid, r: RoleName)
    requires IsRun(events) && i < |StateAfter(events).value.managers|
    requires
      var m := StateAfter(events).value.managers[i];
      && m.work.StartWork? && (r == Agent ==> m.agentEnabled)
      && (m.work.startAt.STakeMonitorThread? || m.work.startAt.SStartMonitor? || m.work.startAt.SReturn?)
    ensures
      var v := VisitsOf(events, i, r);
      v.done != [] && |v.tried| > 0 && (v.tried[0] <==> !v.done[0].probe.busy)
  {
    StartVisitsRoles(events, i, r);
    FirstVisitIsFree(events, i, r);
  }
}
