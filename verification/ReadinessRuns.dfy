/** The readiness flag of the trace agent over whole runs (`src/manager.rs:236-302, 409, 508`,
    `src/monitor.rs:483, 525-528`): who changes it, and what it vouches for. */
module ReadinessRuns {
  import opened Options
  import opened Supervision
  import opened ManagerSteps
  import opened Lifecycle
  import opened LifecycleTheorems
  import opened BackoffRuns

  // ---- The trail of the flag ------------------------------------------------------------------

  datatype Touch = Reset | Waited(accepts: bool)

  /** What the run did so far: the process the last readiness probe found in the slot, the one the last
      accepting wait was for, the last event that set the flag, and whether a trace agent was spawned since
      the last reset. */
  datatype Trail = Trail(peeked: Option<Pid>, accepted: Option<Pid>, last: Option<Touch>, stale: bool)

  const NO_TRAIL := Trail(None, None, None, false)

  /** The next step of a is the readiness probe's step at this point. */
  predicate Probes(m: Manager, a: Actor, at: ProbePoint) {
    a.Caller? && m.prober == Prober(a.t, at)
  }

  /** The next step of a resets the flag. */
  predicate Resets(m: Manager, i: Mid, a: Actor) {
    match a
    case Caller(t) =>
      || m.work == StartWork(t, SResetReady)
      || (m.work.StartWork? && m.work.t == t && (m.work.startAt.SSpawnReady? || m.work.startAt.SCommitReady?))
      || m.work == StopWork(t, PResetReady)
    case MonitorOf(j) => j == i && (m.monitor.at.MSpawnReady? || m.monitor.at.MResetReady?)
  }

  function Follow(tr: Trail, m: Manager, i: Mid, a: Actor, e: Env): Trail {
    if Probes(m, a, RPeek) then tr.(peeked := m.trace.role.child)
    else if Probes(m, a, RWait) then
      tr.(accepted := if e.accepts then tr.peeked else tr.accepted, last := Some(Waited(e.accepts)))
    else if Resets(m, i, a) then tr.(last := Some(Reset), stale := false)
    else if Spawning(m, i, a, TraceAgent) && e.spawn.Spawned? then tr.(stale := true)
    else tr
  }

  ghost function TrailOf(events: seq<Event>, i: Mid): Trail {
    if events == [] then NO_TRAIL
    else
      var before, last := events[..|events| - 1], events[|events| - 1];
      var s := StateAfter(before);
      if s.None? || i >= |s.value.managers| then NO_TRAIL
      else if last.Act? then Follow(TrailOf(before, i), s.value.managers[i], i, last.a, last.e)
      else TrailOf(before, i)
  }

  // ---- Invariant ------------------------------------------------------------------------------

  /** `stop` has reset the flag and all that follows. */
  predicate PastReset(m: Manager) {
    && Ended(m.run, m.monitor.at)
    && (m.work.StopWork? ==> m.work.stopAt.PReset? || m.work.stopAt.PReturn? || m.work.stopAt.PSwap?)
  }

  /** The monitor has a new trace agent to record, and has reset the flag for it. */
  predicate TraceCommitting(mon: Monitor) {
    && PidOf(mon.traceRes).Some?
    && ((mon.at.MTake? && mon.at.phase == Commit) || (mon.at.MAct? && mon.at.phase == Commit))
  }

  /** Times at which the flag is clear and nobody waits for the endpoint. */
  predicate FlagRests(m: Manager) {
    m.run.starts == 0 || m.work.StartWork? || PastReset(m) || TraceCommitting(m.monitor)
  }

  predicate ProberWaits(m: Manager) {
    m.prober.Prober? && m.prober.at.RWait?
  }

  predicate FlagInv(m: Manager) {
    && (m.prober.Prober? && !m.prober.at.RTest? ==> !m.ready)
    && (FlagRests(m) ==> !m.ready && !ProberWaits(m))
  }

  predicate TrailInv(m: Manager, tr: Trail) {
    && (m.ready <==> tr.last == Some(Waited(true)))
    && (ProberWaits(m) ==> tr.peeked.Some? && (m.trace.role.child.Some? ==> m.trace.role.child == tr.peeked))
    && (m.ready ==> tr.accepted.Some? && (m.trace.role.child.Some? ==> m.trace.role.child == tr.accepted))
    && (tr.stale ==>
          || (m.monitor.at.MSpawnReady? && m.monitor.traceRes.Some?)
          || (m.work.StartWork? && m.work.startAt.SSpawnReady?))
  }

  predicate Told(m: Manager, tr: Trail) {
    FlagInv(m) && TrailInv(m, tr)
  }

  lemma FreshIsTold(agentEnabled: bool)
    ensures Told(NewManager(agentEnabled), NO_TRAIL)
  {
  }

  // ---- Every step keeps it --------------------------------------------------------------------

  lemma StartTold(m: Manager, i: Mid, e: Env, tr: Trail)
    requires BaseInv(m) && m.work.StartWork? && m.prober.NoProber? && Told(m, tr)
    ensures Told(StartStep(m, e), Follow(tr, m, i, Caller(m.work.t), e))
  {
    var t, at := m.work.t, m.work.startAt;
    if Ticks(at) {
      StartTicksTold(m, i, t, at, e, tr);
    } else {
      StartMovesTold(m, i, e, tr);
    }
  }

  lemma StartTicksTold(m: Manager, i: Mid, t: Tid, at: StartPoint, e: Env, tr: Trail)
    requires BaseInv(m) && m.work == StartWork(t, at) && Ticks(at) && m.prober.NoProber? && Told(m, tr)
    ensures Told(StartTicks(m, t, at, e), Follow(tr, m, i, Caller(t), e))
  {
  }

  lemma StartMovesTold(m: Manager, i: Mid, e: Env, tr: Trail)
    requires BaseInv(m) && m.work.StartWork? && !Ticks(m.work.startAt) && m.prober.NoProber? && Told(m, tr)
    ensures Told(StartStep(m, e), Follow(tr, m, i, Caller(m.work.t), e))
  {
  }

  lemma StopTold(m: Manager, i: Mid, e: Env, tr: Trail)
    requires BaseInv(m) && m.work.StopWork? && SectionEnabled(m) && Told(m, tr)
    requires m.prober.Prober? ==> m.prober.t != m.work.t
    ensures Told(StopStep(m), Follow(tr, m, i, Caller(m.work.t), e))
  {
    if !m.work.stopAt.PSwap? && !m.work.stopAt.PTakeHandle? && !m.work.stopAt.PJoin? && !m.work.stopAt.PReturn? {
      StopMovesTold(m, i, e, tr);
    }
  }

  lemma StopMovesTold(m: Manager, i: Mid, e: Env, tr: Trail)
    requires BaseInv(m) && m.work.StopWork? && SectionEnabled(m) && Told(m, tr)
    requires m.prober.Prober? ==> m.prober.t != m.work.t
    requires m.work.stopAt.PTakeChild? || m.work.stopAt.PKill? || m.work.stopAt.PResetReady? || m.work.stopAt.PReset?
    ensures Told(StopMoves(m, m.work.t, m.work.stopAt), Follow(tr, m, i, Caller(m.work.t), e))
  {
  }

  /** `start` is over, or about to return. */
  predicate MonitorMayRun(m: Manager) {
    m.work.StartWork? ==> m.work.startAt.SReturn?
  }

  /** The trail after a step of the monitor. */
  function MonitorTrail(tr: Trail, at: MonitorPoint, e: Env): Trail {
    match at
    case MSpawnReady => tr.(last := Some(Reset), stale := false)
    case MResetReady => tr.(last := Some(Reset), stale := false)
    case MSpawn(r) => if r == TraceAgent && e.spawn.Spawned? then tr.(stale := true) else tr
    case _ => tr
  }

  lemma MonitorFollowsTrail(tr: Trail, m: Manager, i: Mid, e: Env)
    ensures Follow(tr, m, i, MonitorOf(i), e) == MonitorTrail(tr, m.monitor.at, e)
  {
  }

  lemma MonitorChecksTold(m: Manager, e: Env, q: RoleName, tr: Trail)
    requires BaseInv(m) && m.monitor.at == MAct(Check, q) && Told(m, tr) && MonitorMayRun(m)
    ensures Told(MonitorActs(m, e, Check, q), tr)
  {
  }

  lemma MonitorCommitsTold(m: Manager, e: Env, q: RoleName, tr: Trail)
    requires BaseInv(m) && m.monitor.at == MAct(Commit, q) && Told(m, tr) && MonitorMayRun(m)
    ensures Told(MonitorActs(m, e, Commit, q), tr)
  {
    if q == TraceAgent {
      assert PlanInv(TraceAgent, m.agentEnabled, m.monitor);
    }
  }

  lemma MonitorSpawnsTold(m: Manager, e: Env, q: RoleName, tr: Trail)
    requires BaseInv(m) && m.monitor.at == MSpawn(q) && Told(m, tr) && MonitorMayRun(m)
    ensures Told(MonitorSpawns(m, e, q), MonitorTrail(tr, m.monitor.at, e))
  {
  }

  lemma MonitorDecidesTold(m: Manager, tr: Trail)
    requires BaseInv(m) && (m.monitor.at.MTest? || m.monitor.at.MGate?) && Told(m, tr) && MonitorMayRun(m)
    ensures Told(MonitorLeaves(m), tr)
    ensures m.monitor.at.MTest? ==> Told(MonitorAt(m, MTake(ChildField, Check, Agent)), tr)
    ensures m.monitor.at.MGate? ==> Told(MonitorAtGate(m, m.monitor.at.role), tr)
  {
    assert PlanInv(TraceAgent, m.agentEnabled, m.monitor);
  }

  lemma MonitorMovesTold(m: Manager, e: Env, tr: Trail)
    requires BaseInv(m) && MonitorEnabled(m) && Told(m, tr) && MonitorMayRun(m)
    requires !m.monitor.at.MTest? && !m.monitor.at.MAct? && !m.monitor.at.MGate? && !m.monitor.at.MSpawn?
    ensures Told(MonitorMoves(m), MonitorTrail(tr, m.monitor.at, e))
  {
  }

  lemma MonitorTold(m: Manager, i: Mid, e: Env, tr: Trail)
    requires BaseInv(m) && MonitorEnabled(m) && Told(m, tr) && MonitorMayRun(m)
    ensures Told(MonitorStep(m, e), Follow(tr, m, i, MonitorOf(i), e))
  {
    MonitorFollowsTrail(tr, m, i, e);
    match m.monitor.at
    case MTest => MonitorDecidesTold(m, tr);
    case MAct(Check, q) => MonitorChecksTold(m, e, q, tr);
    case MAct(Commit, q) => MonitorCommitsTold(m, e, q, tr);
    case MGate(_) => MonitorDecidesTold(m, tr);
    case MSpawn(q) => MonitorSpawnsTold(m, e, q, tr);
    case _ => MonitorMovesTold(m, e, tr);
  }

  lemma ProberTold(m: Manager, i: Mid, e: Env, tr: Trail)
    requires BaseInv(m) && m.prober.Prober? && Told(m, tr) && !m.work.StartWork?
    requires m.work.StopWork? ==> m.work.t != m.prober.t
    ensures Told(ProbeStep(m, e), Follow(tr, m, i, Caller(m.prober.t), e))
  {
  }

  // ---- Every event keeps it --------------------------------------------------------------------

  lemma MonitorRunsLate(m: Manager)
    requires BaseInv(m) && MonitorAlive(m)
    ensures MonitorMayRun(m)
  {
  }

  lemma EnterTold(m: Manager, w: Work, tr: Trail)
    requires BaseInv(m) && m.work.Idle? && Told(m, tr)
    requires (w.StopWork? && w.stopAt.PSwap?) || (w.StartWork? && w.startAt.SSwap? && m.run.starts == 0)
    ensures Told(m.(work := w), tr)
  {
  }

  lemma EnterProbeTold(m: Manager, p: Prober, tr: Trail)
    requires Told(m, tr) && m.prober.NoProber? && p.Prober? && p.at.RTest?
    ensures Told(m.(prober := p), tr)
  {
  }

  /** Threads that are not inside manager i do nothing to its flag. */
  lemma OthersLeaveTrail(s: State, t: Tid, e: Env, i: Mid, tr: Trail)
    requires Inv(s) && i < |s.managers| && t in s.callers && s.callers[t] !in {InStart(i), InStop(i), InProbe(i)}
    ensures Follow(tr, s.managers[i], i, Caller(t), e) == tr
  {
    assert OwnersInv(i, s.managers[i], s.cell, s.callers);
  }

  lemma InsideTold(s: State, t: Tid, e: Env, i: Mid, tr: Trail)
    requires Inv(s) && Enabled(s, Caller(t)) && i < |s.managers| && Told(s.managers[i], tr)
    requires s.callers[t] in {InStart(i), InStop(i), InProbe(i)}
    ensures
      var x := Next(s, Caller(t), e);
      i < |x.managers| && Told(x.managers[i], Follow(tr, s.managers[i], i, Caller(t), e))
  {
    var m := s.managers[i];
    assert ManagerInv(m, s.nextPid);
    assert OwnersInv(i, m, s.cell, s.callers);
    assert CallerInv(t, s.callers[t], s.cellHolder, s.managers);
    if m.work.StartWork? {
      StartIsAlone(s, i);
    }
    match s.callers[t]
    case InStart(_) => StartTold(m, i, e, tr);
    case InStop(_) => StopTold(m, i, e, tr);
    case _ => ProberTold(m, i, e, tr);
  }

  lemma QueueTold(s: State, t: Tid, e: Env, i: Mid, tr: Trail)
    requires Inv(s) && Enabled(s, Caller(t)) && i < |s.managers| && Told(s.managers[i], tr)
    requires s.callers[t] in {StartQueue(i), StopQueue(i), ProbeQueue(i)}
    ensures i < |Next(s, Caller(t), e).managers| && Told(Next(s, Caller(t), e).managers[i], tr)
  {
    var m := s.managers[i];
    assert ManagerInv(m, s.nextPid);
    assert CallerInv(t, s.callers[t], s.cellHolder, s.managers);
    match s.callers[t]
    case StartQueue(_) => EnterTold(m, StartWork(t, SSwap), tr);
    case StopQueue(_) => EnterTold(m, StopWork(t, PSwap), tr);
    case _ => EnterProbeTold(m, Prober(t, RTest), tr);
  }

  lemma CallerTold(s: State, t: Tid, e: Env, i: Mid, tr: Trail)
    requires Inv(s) && Enabled(s, Caller(t)) && i < |s.managers| && Told(s.managers[i], tr)
    ensures
      var x := Next(s, Caller(t), e);
      i < |x.managers| && Told(x.managers[i], Follow(tr, s.managers[i], i, Caller(t), e))
  {
    if s.callers[t] in {InStart(i), InStop(i), InProbe(i)} {
      InsideTold(s, t, e, i, tr);
    } else {
      OthersLeaveTrail(s, t, e, i, tr);
      if s.callers[t] in {StartQueue(i), StopQueue(i), ProbeQueue(i)} {
        QueueTold(s, t, e, i, tr);
      } else {
        ElsewhereKeepsManager(s, t, e, i);
      }
    }
  }

  lemma EventTold(s: State, ev: Event, i: Mid, tr: Trail)
    requires Inv(s) && Allowed(s, ev) && i < |s.managers| && Told(s.managers[i], tr)
    ensures i < |Apply(s, ev).managers|
    ensures Told(Apply(s, ev).managers[i], if ev.Act? then Follow(tr, s.managers[i], i, ev.a, ev.e) else tr)
  {
    var m := s.managers[i];
    assert ManagerInv(m, s.nextPid);
    match ev
    case Arrive(_, _) =>
    case Act(Caller(t), e) => CallerTold(s, t, e, i, tr);
    case Act(MonitorOf(j), e) =>
      if j == i {
        MonitorRunsLate(m);
        MonitorTold(m, i, e, tr);
      }
  }

  lemma {:induction false} TrailIsTold(events: seq<Event>, i: Mid)
    requires IsRun(events) && i < |StateAfter(events).value.managers|
    ensures Told(StateAfter(events).value.managers[i], TrailOf(events, i))
    decreases |events|
  {
    var before, last := events[..|events| - 1], events[|events| - 1];
    RunKeepsInv(before);
    var s := StateAfter(before).value;
    if i < |s.managers| {
      TrailIsTold(before, i);
      EventTold(s, last, i, TrailOf(before, i));
    } else {
      var agentEnabled := NewManagerIsFresh(s, last, i);
      FreshIsTold(agentEnabled);
    }
  }
}
