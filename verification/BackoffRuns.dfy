/** The backoff of a role over runs of the whole protocol: what `start` and the monitor do to a role is
    a session of visits (`Supervision`), so the bounds proved of sessions hold of every run. */
module BackoffRuns {
  import opened Options
  import opened Supervision
  import opened ManagerSteps
  import opened Lifecycle
  import opened LifecycleTheorems

  // ---- Visits ---------------------------------------------------------------------------------

  /** The visits to a role so far: those completed, and for each of them whether a spawn was attempted;
      the check of one whose spawn is not committed yet, and what its spawn returned; and when the failed
      attempts since the last successful spawn began. All times and outcomes are those the steps met. */
  datatype Visits = Visits(
    done: seq<Tick>,
    tried: seq<bool>,
    pending: Option<Probe>,
    outcome: Option<SpawnOutcome>,
    failed: seq<Millis>)

  const NO_VISITS := Visits([], [], None, None, [])

  /** The next step of a is a check of role r of manager i. */
  predicate Looks(m: Manager, i: Mid, a: Actor, r: RoleName) {
    match a
    case Caller(t) => m.work == StartWork(t, SCheck(r))
    case MonitorOf(j) => j == i && m.monitor.at == MAct(Check, r) && (r == Agent ==> m.agentEnabled)
  }

  /** The next step of a spawns a process for role r of manager i. */
  predicate Spawning(m: Manager, i: Mid, a: Actor, r: RoleName) {
    match a
    case Caller(t) => m.work.StartWork? && m.work.t == t && m.work.startAt.SSpawn? && m.work.startAt.role == r
    case MonitorOf(j) => j == i && m.monitor.at == MSpawn(r)
  }

  /** The next step of a commits a spawn result to role r of manager i. */
  predicate Commits(m: Manager, i: Mid, a: Actor, r: RoleName) {
    match a
    case Caller(t) => m.work.StartWork? && m.work.t == t && m.work.startAt.SCommit? && m.work.startAt.role == r
    case MonitorOf(j) => j == i && m.monitor.at == MAct(Commit, r) && m.monitor.Res(r).Some?
  }

  /** The visits after a check of the role: it completes one, or leaves one pending. */
  function Looked(v: Visits, role: Role, p: Probe): Visits {
    if Checked(role, p).1 then v.(pending := Some(p), outcome := None)
    else v.(done := v.done + [Tick(p, SpawnFailed, p.now)], tried := v.tried + [false])
  }

  /** The visits after the pending one is committed. */
  function Recorded(v: Visits, now: Millis): Visits
    requires v.pending.Some? && v.outcome.Some?
  {
    var p, result := v.pending.value, v.outcome.value;
    Visits(v.done + [Tick(p, result, now)], v.tried + [true], None, None,
           if result.SpawnFailed? then v.failed + [p.now] else [])
  }

  /** The visits after a step of a; `start` commits with the clock reading of its check, the monitor reads
      the clock again. */
  function Advance(v: Visits, m: Manager, i: Mid, a: Actor, e: Env, r: RoleName): Visits {
    if Looks(m, i, a, r) then Looked(v, m.SeatOf(r).role, e.probe)
    else if Spawning(m, i, a, r) then v.(outcome := Some(e.spawn))
    else if Commits(m, i, a, r) && v.pending.Some? && v.outcome.Some? then
      Recorded(v, if a.Caller? then v.pending.value.now else e.now)
    else v
  }

  ghost function VisitsOf(events: seq<Event>, i: Mid, r: RoleName): Visits {
    if events == [] then NO_VISITS
    else
      var before, last := events[..|events| - 1], events[|events| - 1];
      var s := StateAfter(before);
      if s.None? || i >= |s.value.managers| then NO_VISITS
      else if last.Act? then Advance(VisitsOf(before, i, r), s.value.managers[i], i, last.a, last.e, r)
      else VisitsOf(before, i, r)
  }

  // ---- The role is what the visits make it -----------------------------------------------------

  /** From `start` until `stop` takes the children: the session. */
  predicate InSession(m: Manager) {
    m.run.stops == 0 || (m.work.StopWork? && (m.work.stopAt.PTakeHandle? || m.work.stopAt.PJoin?))
  }

  predicate Unchecked(m: Manager) {
    || m.run.starts == 0
    || (m.work.StartWork? && (m.work.startAt.SSwap? || m.work.startAt.SReset? || m.work.startAt.SResetReady?))
  }

  function StartResult(w: Work): Option<SpawnOutcome> {
    match w
    case StartWork(_, SSpawnReady(result, _)) => Some(result)
    case StartWork(_, SCommit(_, result, _)) => Some(result)
    case _ => None
  }

  /** The clock reading of the check whose spawn `start` has yet to commit. */
  function StartPending(w: Work, r: RoleName): Option<Millis> {
    match w
    case StartWork(_, SSpawn(q, now)) => if q == r then Some(now) else None
    case StartWork(_, SSpawnReady(_, now)) => if r == TraceAgent then Some(now) else None
    case StartWork(_, SCommit(q, _, now)) => if q == r then Some(now) else None
    case _ => None
  }

  /** The monitor is past its spawn of r in this round. */
  predicate PastSpawn(at: MonitorPoint, r: RoleName) {
    match at
    case MGate(q) => r == Agent && q == TraceAgent
    case MSpawn(q) => r == Agent && q == TraceAgent
    case MSpawnReady => true
    case MTake(_, phase, _) => phase == Commit
    case MAct(phase, _) => phase == Commit
    case _ => false
  }

  /** The role and the failed attempts are those of the visits. */
  ghost predicate RoleFollows(role: Role, v: Visits) {
    && v.failed == FailStreak(v.done)
    && (v.pending.None? ==> role == RoleAfter(v.done))
    && (v.pending.Some? ==> Checked(RoleAfter(v.done), v.pending.value) == (role, true))
  }

  /** Which thread is in the middle of a visit. */
  predicate PointsFollow(work: Work, mon: Monitor, v: Visits, r: RoleName) {
    && (StartPending(work, r).Some? ==>
          v.pending.Some? && v.pending.value.now == StartPending(work, r).value && v.outcome == StartResult(work))
    && (mon.Go(r) ==> v.pending.Some? && v.outcome == mon.Res(r) && (PastSpawn(mon.at, r) ==> mon.Res(r).Some?))
    && (v.pending.Some? ==> StartPending(work, r).Some? || mon.Go(r) || mon.at.MExit?)
  }

  ghost predicate Follows(m: Manager, v: Visits, r: RoleName) {
    && (Unchecked(m) ==> m.SeatOf(r).role == FRESH_ROLE && v == NO_VISITS)
    && (InSession(m) ==> RoleFollows(m.SeatOf(r).role, v))
    && v.failed == FailStreak(v.done)
    && PointsFollow(m.work, m.monitor, v, r)
  }

  lemma OneMoreVisit(done: seq<Tick>, tick: Tick)
    ensures RoleAfter(done + [tick]) == tick.After(RoleAfter(done))
    ensures FailStreak(done + [tick]) ==
            if tick.Fails(RoleAfter(done)) then FailStreak(done) + [tick.probe.now]
            else if tick.Succeeds(RoleAfter(done)) then [] else FailStreak(done)
  {
    assert (done + [tick])[..|done|] == done;
  }

  lemma LookFollows(role: Role, v: Visits, p: Probe)
    requires RoleFollows(role, v) && v.pending.None?
    ensures RoleFollows(Checked(role, p).0, Looked(v, role, p))
    ensures Looked(v, role, p).pending == if Checked(role, p).1 then Some(p) else None
    ensures Checked(role, p).1 ==> Looked(v, role, p).outcome.None?
  {
    OneMoreVisit(v.done, Tick(p, SpawnFailed, p.now));
  }

  lemma RecordFollows(role: Role, v: Visits, now: Millis)
    requires v.pending.Some? && v.outcome.Some? && RoleFollows(role, v)
    ensures RoleFollows(Committed(role, v.outcome.value, now), Recorded(v, now))
    ensures Recorded(v, now).pending.None?
  {
    OneMoreVisit(v.done, Tick(v.pending.value, v.outcome.value, now));
  }

  // ---- Every step keeps it --------------------------------------------------------------------

  /** `start` checks, spawns and commits one role; the other's visits are over or not begun. */
  lemma StartTicksOther(m: Manager, t: Tid, at: StartPoint, q: RoleName, e: Env, v: Visits, r: RoleName)
    requires BaseInv(m) && m.work == StartWork(t, at) && Follows(m, v, r) && q != r
    requires at == SCheck(q) || (at.SCommit? && at.role == q)
    ensures Follows(StartTicks(m, t, at, e), v, r)
  {
  }

  lemma CheckInStart(m: Manager, t: Tid, e: Env, r: RoleName)
    ensures
      var x, checked := StartTicks(m, t, SCheck(r), e), Checked(m.SeatOf(r).role, e.probe);
      && x.SeatOf(r).role == checked.0
      && x.work == StartWork(t, if checked.1 then SSpawn(r, e.probe.now) else SUnlock(r))
      && x.run == m.run && x.monitor == m.monitor
  {
  }

  lemma PointsAfterCheck(m: Manager, t: Tid, p: Probe, attempt: bool, v: Visits, r: RoleName)
    requires BaseInv(m) && m.work == StartWork(t, SCheck(r)) && PointsFollow(m.work, m.monitor, v, r)
    ensures v.pending.None?
    ensures
      var at := if attempt then SSpawn(r, p.now) else SUnlock(r);
      var pending := if attempt then Some(p) else None;
      forall w: Visits | w.pending == pending && (attempt ==> w.outcome.None?) ::
        PointsFollow(StartWork(t, at), m.monitor, w, r)
  {
  }

  lemma StartChecks(m: Manager, t: Tid, e: Env, v: Visits, r: RoleName)
    requires BaseInv(m) && m.work == StartWork(t, SCheck(r)) && Follows(m, v, r)
    ensures Follows(StartTicks(m, t, SCheck(r), e), Looked(v, m.SeatOf(r).role, e.probe), r)
  {
    CheckInStart(m, t, e, r);
    PointsAfterCheck(m, t, e.probe, Checked(m.SeatOf(r).role, e.probe).1, v, r);
    LookFollows(m.SeatOf(r).role, v, e.probe);
  }

  lemma StartCommits(m: Manager, t: Tid, result: SpawnOutcome, now: Millis, e: Env, v: Visits, r: RoleName)
    requires BaseInv(m) && m.work == StartWork(t, SCommit(r, result, now)) && Follows(m, v, r)
    ensures v.pending.Some? && v.pending.value.now == now && v.outcome == Some(result)
    ensures Follows(StartTicks(m, t, SCommit(r, result, now), e), Recorded(v, now), r)
  {
    CommitInStart(m, t, result, now, e, r);
    PointsAfterCommit(m, t, result, now, v, r);
    RecordFollows(m.SeatOf(r).role, v, now);
  }

  lemma CommitInStart(m: Manager, t: Tid, result: SpawnOutcome, now: Millis, e: Env, r: RoleName)
    ensures
      var x := StartTicks(m, t, SCommit(r, result, now), e);
      && x.SeatOf(r).role == Committed(m.SeatOf(r).role, result, now)
      && x.work == StartWork(t, if r == TraceAgent && result.Spawned? then SCommitReady else SUnlock(r))
      && x.run == m.run && x.monitor == m.monitor
  {
  }

  lemma PointsAfterCommit(m: Manager, t: Tid, result: SpawnOutcome, now: Millis, v: Visits, r: RoleName)
    requires BaseInv(m) && m.work == StartWork(t, SCommit(r, result, now)) && PointsFollow(m.work, m.monitor, v, r)
    ensures
      var at := if r == TraceAgent && result.Spawned? then SCommitReady else SUnlock(r);
      forall w: Visits | w.pending.None? :: PointsFollow(StartWork(t, at), m.monitor, w, r)
  {
  }

  lemma StartSpawns(m: Manager, t: Tid, q: RoleName, now: Millis, e: Env, v: Visits, r: RoleName)
    requires BaseInv(m) && m.work == StartWork(t, SSpawn(q, now)) && Follows(m, v, r)
    ensures Follows(StartTicks(m, t, SSpawn(q, now), e), if q == r then v.(outcome := Some(e.spawn)) else v, r)
  {
  }

  lemma StartReadiesFollow(m: Manager, t: Tid, at: StartPoint, e: Env, v: Visits, r: RoleName)
    requires BaseInv(m) && m.work == StartWork(t, at) && (at.SSpawnReady? || at.SCommitReady?) && Follows(m, v, r)
    ensures Follows(StartTicks(m, t, at, e), v, r)
  {
  }

  lemma StartMovesFollow(m: Manager, e: Env, v: Visits, r: RoleName)
    requires BaseInv(m) && m.work.StartWork? && !Ticks(m.work.startAt) && Follows(m, v, r)
    ensures Follows(StartStep(m, e), v, r)
  {
    if Unchecked(m) {
      StartPreparesFollow(m, e, v, r);
    } else {
      assert StartStep(m, e).SeatOf(r) == m.SeatOf(r);
    }
  }

  lemma StartPreparesFollow(m: Manager, e: Env, v: Visits, r: RoleName)
    requires BaseInv(m) && m.work.StartWork? && !Ticks(m.work.startAt) && Unchecked(m) && Follows(m, v, r)
    ensures Follows(StartStep(m, e), v, r)
  {
  }

  /** The visits after a step of `start`. */
  function StartVisits(v: Visits, role: Role, at: StartPoint, e: Env, r: RoleName): Visits {
    match at
    case SCheck(q) => if q == r then Looked(v, role, e.probe) else v
    case SSpawn(q, _) => if q == r then v.(outcome := Some(e.spawn)) else v
    case SCommit(q, _, _) =>
      if q == r && v.pending.Some? && v.outcome.Some? then Recorded(v, v.pending.value.now) else v
    case _ => v
  }

  lemma StartAdvances(m: Manager, i: Mid, e: Env, v: Visits, r: RoleName)
    requires m.work.StartWork?
    ensures Advance(v, m, i, Caller(m.work.t), e, r) == StartVisits(v, m.SeatOf(r).role, m.work.startAt, e, r)
  {
  }

  lemma StartFollows(m: Manager, i: Mid, e: Env, v: Visits, r: RoleName)
    requires BaseInv(m) && m.work.StartWork? && Follows(m, v, r)
    ensures Follows(StartStep(m, e), Advance(v, m, i, Caller(m.work.t), e, r), r)
  {
    var t, at := m.work.t, m.work.startAt;
    StartAdvances(m, i, e, v, r);
    if Ticks(at) {
      TicksFollow(m, t, at, e, v, r);
    } else {
      StartMovesFollow(m, e, v, r);
    }
  }

  lemma TicksFollow(m: Manager, t: Tid, at: StartPoint, e: Env, v: Visits, r: RoleName)
    requires BaseInv(m) && m.work == StartWork(t, at) && Ticks(at) && Follows(m, v, r)
    ensures Follows(StartTicks(m, t, at, e), StartVisits(v, m.SeatOf(r).role, at, e, r), r)
  {
    match at
    case SCheck(q) =>
      if q == r {
        StartChecks(m, t, e, v, r);
      } else {
        StartTicksOther(m, t, at, q, e, v, r);
      }
    case SCommit(q, result, now) =>
      if q == r {
        StartCommits(m, t, result, now, e, v, r);
      } else {
        StartTicksOther(m, t, at, q, e, v, r);
      }
    case SSpawn(q, now) => StartSpawns(m, t, q, now, e, v, r);
    case _ => StartReadiesFollow(m, t, at, e, v, r);
  }

  lemma StopKillFollows(m: Manager, t: Tid, at: StopPoint, v: Visits, r: RoleName)
    requires BaseInv(m) && m.work == StopWork(t, at) && Follows(m, v, r)
    requires at.PTakeChild? || at.PKill? || at.PResetReady? || at.PReset?
    ensures Follows(StopMoves(m, t, at), v, r)
  {
    assert Ended(m.run, m.monitor.at);
    assert !InSession(StopMoves(m, t, at)) && !Unchecked(StopMoves(m, t, at));
  }

  lemma StopFollows(m: Manager, i: Mid, e: Env, v: Visits, r: RoleName)
    requires BaseInv(m) && m.work.StopWork? && Follows(m, v, r)
    ensures Advance(v, m, i, Caller(m.work.t), e, r) == v
    ensures Follows(StopStep(m), v, r)
  {
    var t, at := m.work.t, m.work.stopAt;
    if at.PTakeChild? || at.PKill? || at.PResetReady? || at.PReset? {
      StopKillFollows(m, t, at, v, r);
    }
  }

  /** The monitor's own facts: it works inside the session, after `start` took its last lock. */
  lemma MonitorInSession(m: Manager)
    requires BaseInv(m) && MonitorAlive(m)
    ensures InSession(m) && !Unchecked(m)
    ensures StartPending(m.work, Agent).None? && StartPending(m.work, TraceAgent).None?
  {
  }

  lemma MonitorChecksOther(m: Manager, e: Env, q: RoleName, v: Visits, r: RoleName)
    requires BaseInv(m) && m.monitor.at == MAct(Check, q) && Follows(m, v, r)
    requires q != r || (r == Agent && !m.agentEnabled)
    ensures Follows(MonitorActs(m, e, Check, q), v, r)
  {
    MonitorInSession(m);
  }

  lemma MonitorChecks(m: Manager, e: Env, r: RoleName, v: Visits)
    requires BaseInv(m) && m.monitor.at == MAct(Check, r) && Follows(m, v, r) && (r == Agent ==> m.agentEnabled)
    ensures Follows(MonitorActs(m, e, Check, r), Looked(v, m.SeatOf(r).role, e.probe), r)
  {
    MonitorInSession(m);
    LookFollows(m.SeatOf(r).role, v, e.probe);
  }

  lemma MonitorCommitsOther(m: Manager, e: Env, q: RoleName, v: Visits, r: RoleName)
    requires BaseInv(m) && m.monitor.at == MAct(Commit, q) && Follows(m, v, r)
    requires q != r || m.monitor.Res(r).None?
    ensures Follows(MonitorActs(m, e, Commit, q), v, r)
  {
    MonitorInSession(m);
  }

  lemma MonitorCommits(m: Manager, e: Env, r: RoleName, v: Visits)
    requires BaseInv(m) && m.monitor.at == MAct(Commit, r) && Follows(m, v, r) && m.monitor.Res(r).Some?
    ensures v.pending.Some? && v.outcome.Some? && (r == Agent ==> m.agentEnabled)
    ensures Follows(MonitorActs(m, e, Commit, r), Recorded(v, e.now), r)
  {
    MonitorInSession(m);
    assert PlanInv(r, m.agentEnabled, m.monitor);
    RecordFollows(m.SeatOf(r).role, v, e.now);
  }

  lemma MonitorSpawnsFollow(m: Manager, e: Env, q: RoleName, v: Visits, r: RoleName)
    requires BaseInv(m) && m.monitor.at == MSpawn(q) && Follows(m, v, r)
    ensures Follows(MonitorSpawns(m, e, q), if q == r then v.(outcome := Some(e.spawn)) else v, r)
  {
    MonitorInSession(m);
    assert PlanInv(q, m.agentEnabled, m.monitor);
  }

  lemma MonitorMovesFollow(m: Manager, e: Env, v: Visits, r: RoleName)
    requires BaseInv(m) && MonitorAlive(m) && !m.monitor.at.MAct? && !m.monitor.at.MSpawn? && Follows(m, v, r)
    ensures Follows(MonitorStep(m, e), v, r)
  {
    MonitorInSession(m);
    MonitorFramed(m, e);
    PointsGoOn(m, e, v, r);
    assert MonitorStep(m, e).SeatOf(r) == m.SeatOf(r);
  }

  lemma PointsGoOn(m: Manager, e: Env, v: Visits, r: RoleName)
    requires BaseInv(m) && MonitorAlive(m) && !m.monitor.at.MAct? && !m.monitor.at.MSpawn?
    requires PointsFollow(m.work, m.monitor, v, r)
    ensures PointsFollow(m.work, MonitorStep(m, e).monitor, v, r)
  {
    match m.monitor.at
    case MGate(q) => GateKeepsPoints(m, q, v, r);
    case MTest =>
    case at => MovesKeepPlans(at, r);
  }

  lemma GateKeepsPoints(m: Manager, q: RoleName, v: Visits, r: RoleName)
    requires BaseInv(m) && m.monitor.at == MGate(q) && PointsFollow(m.work, m.monitor, v, r)
    ensures PointsFollow(m.work, MonitorAtGate(m, q).monitor, v, r)
  {
  }

  /** The visits after a step of the monitor. */
  function MonitorVisits(v: Visits, m: Manager, e: Env, r: RoleName): Visits {
    match m.monitor.at
    case MAct(Check, q) =>
      if q == r && (r == Agent ==> m.agentEnabled) then Looked(v, m.SeatOf(r).role, e.probe) else v
    case MSpawn(q) => if q == r then v.(outcome := Some(e.spawn)) else v
    case MAct(Commit, q) =>
      if q == r && m.monitor.Res(r).Some? && v.pending.Some? && v.outcome.Some? then Recorded(v, e.now) else v
    case _ => v
  }

  lemma MonitorAdvances(m: Manager, i: Mid, e: Env, v: Visits, r: RoleName)
    ensures Advance(v, m, i, MonitorOf(i), e, r) == MonitorVisits(v, m, e, r)
  {
  }

  lemma MonitorFollows(m: Manager, i: Mid, e: Env, v: Visits, r: RoleName)
    requires BaseInv(m) && MonitorAlive(m) && Follows(m, v, r)
    ensures Follows(MonitorStep(m, e), Advance(v, m, i, MonitorOf(i), e, r), r)
  {
    MonitorAdvances(m, i, e, v, r);
    match m.monitor.at
    case MAct(Check, q) =>
      if q == r && (r == Agent ==> m.agentEnabled) {
        MonitorChecks(m, e, r, v);
      } else {
        MonitorChecksOther(m, e, q, v, r);
      }
    case MAct(Commit, q) =>
      if q == r && m.monitor.Res(r).Some? {
        MonitorCommits(m, e, r, v);
      } else {
        MonitorCommitsOther(m, e, q, v, r);
      }
    case MSpawn(q) => MonitorSpawnsFollow(m, e, q, v, r);
    case _ => MonitorMovesFollow(m, e, v, r);
  }

  lemma EnterFollows(m: Manager, w: Work, v: Visits, r: RoleName)
    requires BaseInv(m) && m.work.Idle? && Follows(m, v, r)
    requires (w.StopWork? && w.stopAt.PSwap?) || (w.StartWork? && w.startAt.SSwap? && m.run.starts == 0)
    ensures Follows(m.(work := w), v, r)
  {
  }

  lemma ProbeFollows(m: Manager, prober: Prober, ready: bool, v: Visits, r: RoleName)
    requires Follows(m, v, r)
    ensures Follows(m.(prober := prober, ready := ready), v, r)
  {
  }

  /** Threads that are not inside `start` of manager i visit none of its roles. */
  lemma OthersVisitNothing(s: State, t: Tid, e: Env, i: Mid, v: Visits, r: RoleName)
    requires Inv(s) && i < |s.managers| && t in s.callers && s.callers[t] != InStart(i)
    ensures Advance(v, s.managers[i], i, Caller(t), e, r) == v
  {
    assert OwnersInv(i, s.managers[i], s.cell, s.callers);
  }

  lemma QueuesFollow(s: State, t: Tid, e: Env, i: Mid, v: Visits, r: RoleName)
    requires Inv(s) && Enabled(s, Caller(t)) && i < |s.managers| && Follows(s.managers[i], v, r)
    requires s.callers[t] in {StartQueue(i), StopQueue(i), ProbeQueue(i)}
    ensures i < |Next(s, Caller(t), e).managers| && Follows(Next(s, Caller(t), e).managers[i], v, r)
  {
    var m := s.managers[i];
    assert ManagerInv(m, s.nextPid);
    match s.callers[t]
    case StartQueue(_) => EnterFollows(m, StartWork(t, SSwap), v, r);
    case StopQueue(_) => EnterFollows(m, StopWork(t, PSwap), v, r);
    case _ => ProbeFollows(m, Prober(t, RTest), m.ready, v, r);
  }

  lemma ProbesFollow(s: State, t: Tid, e: Env, i: Mid, v: Visits, r: RoleName)
    requires Enabled(s, Caller(t)) && i < |s.managers| && Follows(s.managers[i], v, r) && s.callers[t] == InProbe(i)
    ensures i < |Next(s, Caller(t), e).managers| && Follows(Next(s, Caller(t), e).managers[i], v, r)
  {
    var m := s.managers[i];
    ProbeFramed(m, e);
    ProbeFollows(m, ProbeStep(m, e).prober, ProbeStep(m, e).ready, v, r);
  }

  lemma OtherCallersFollow(s: State, t: Tid, e: Env, i: Mid, v: Visits, r: RoleName)
    requires Inv(s) && Enabled(s, Caller(t)) && i < |s.managers| && Follows(s.managers[i], v, r)
    requires s.callers[t] !in {InStart(i), InStop(i)}
    ensures i < |Next(s, Caller(t), e).managers| && Follows(Next(s, Caller(t), e).managers[i], v, r)
  {
    if s.callers[t] in {StartQueue(i), StopQueue(i), ProbeQueue(i)} {
      QueuesFollow(s, t, e, i, v, r);
    } else if s.callers[t] == InProbe(i) {
      ProbesFollow(s, t, e, i, v, r);
    } else {
      ElsewhereKeepsManager(s, t, e, i);
    }
  }

  lemma ElsewhereKeepsManager(s: State, t: Tid, e: Env, i: Mid)
    requires Enabled(s, Caller(t)) && i < |s.managers|
    requires s.callers[t] !in {StartQueue(i), StopQueue(i), ProbeQueue(i), InStart(i), InStop(i), InProbe(i)}
    ensures i < |Next(s, Caller(t), e).managers| && Next(s, Caller(t), e).managers[i] == s.managers[i]
  {
  }

  lemma CallerFollows(s: State, t: Tid, e: Env, i: Mid, v: Visits, r: RoleName)
    requires Inv(s) && Enabled(s, Caller(t)) && i < |s.managers| && Follows(s.managers[i], v, r)
    ensures
      var x := Next(s, Caller(t), e);
      i < |x.managers| && Follows(x.managers[i], Advance(v, s.managers[i], i, Caller(t), e, r), r)
  {
    var m := s.managers[i];
    assert ManagerInv(m, s.nextPid);
    assert CallerInv(t, s.callers[t], s.cellHolder, s.managers);
    if s.callers[t] == InStart(i) {
      StartFollows(m, i, e, v, r);
    } else {
      OthersVisitNothing(s, t, e, i, v, r);
      if s.callers[t] == InStop(i) {
        StopFollows(m, i, e, v, r);
      } else {
        OtherCallersFollow(s, t, e, i, v, r);
      }
    }
  }

  lemma EventFollows(s: State, ev: Event, i: Mid, v: Visits, r: RoleName)
    requires Inv(s) && Allowed(s, ev) && i < |s.managers| && Follows(s.managers[i], v, r)
    ensures i < |Apply(s, ev).managers|
    ensures Follows(Apply(s, ev).managers[i], if ev.Act? then Advance(v, s.managers[i], i, ev.a, ev.e, r) else v, r)
  {
    assert ManagerInv(s.managers[i], s.nextPid);
    match ev
    case Arrive(_, _) =>
    case Act(Caller(t), e) => CallerFollows(s, t, e, i, v, r);
    case Act(MonitorOf(j), e) =>
      if j == i {
        MonitorFollows(s.managers[i], i, e, v, r);
      }
  }

  lemma NewManagerFollows(agentEnabled: bool, r: RoleName)
    ensures Follows(NewManager(agentEnabled), NO_VISITS, r)
  {
  }

  /** In every run, each role of each manager follows its visits: until `stop` takes the children, the role
      is what the completed visits made it, and the check of at most one more that is not committed; and the
      failed attempts since the last successful spawn are the streak of those visits. */
  lemma {:induction false} RolesFollowVisits(events: seq<Event>, i: Mid, r: RoleName)
    requires IsRun(events) && i < |StateAfter(events).value.managers|
    ensures Follows(StateAfter(events).value.managers[i], VisitsOf(events, i, r), r)
    decreases |events|
  {
    var before, last := events[..|events| - 1], events[|events| - 1];
    RunKeepsInv(before);
    var s := StateAfter(before).value;
    if i < |s.managers| {
      RolesFollowVisits(before, i, r);
      EventFollows(s, last, i, VisitsOf(before, i, r), r);
    } else {
      var agentEnabled := NewManagerIsFresh(s, last, i);
      NewManagerFollows(agentEnabled, r);
    }
  }

  // ---- Time -----------------------------------------------------------------------------------

  /** The last clock reading of a run. */
  function LastTime(events: seq<Event>): Millis {
    if events == [] then 0
    else
      var last := events[|events| - 1];
      if last.Act? then last.e.now else LastTime(events[..|events| - 1])
  }

  /** No thread reads a time earlier than one read before it. */
  predicate Clocked(events: seq<Event>) {
    events == [] ||
    var before, last := events[..|events| - 1], events[|events| - 1];
    Clocked(before) && (last.Act? ==> LastTime(before) <= last.e.probe.now <= last.e.now)
  }

  /** The visits happened one after the other, all of them until now. */
  ghost predicate UpTo(v: Visits, now: Millis) {
    && Timed(v.done)
    && (forall k | 0 <= k < |v.done| :: v.done[k].commitAt <= now)
    && (v.pending.Some? ==>
          v.pending.value.now <= now && forall k | 0 <= k < |v.done| :: v.done[k].commitAt <= v.pending.value.now)
  }

  lemma TimedAppend(done: seq<Tick>, tick: Tick)
    requires Timed(done) && tick.probe.now <= tick.commitAt
    requires forall k | 0 <= k < |done| :: done[k].commitAt <= tick.probe.now
    ensures Timed(done + [tick])
  {
  }

  lemma LookedUpTo(v: Visits, role: Role, p: Probe, before: Millis, now: Millis)
    requires UpTo(v, before) && v.pending.None? && before <= p.now <= now
    ensures UpTo(Looked(v, role, p), now)
  {
    TimedAppend(v.done, Tick(p, SpawnFailed, p.now));
  }

  lemma RecordedUpTo(v: Visits, at: Millis, before: Millis, now: Millis)
    requires UpTo(v, before) && v.pending.Some? && v.outcome.Some?
    requires v.pending.value.now <= at <= now && before <= now
    ensures UpTo(Recorded(v, at), now)
  {
    TimedAppend(v.done, Tick(v.pending.value, v.outcome.value, at));
  }

  lemma AdvanceUpTo(m: Manager, i: Mid, a: Actor, e: Env, v: Visits, r: RoleName, before: Millis)
    requires BaseInv(m) && Follows(m, v, r) && UpTo(v, before) && before <= e.probe.now <= e.now
    ensures UpTo(Advance(v, m, i, a, e, r), e.now)
  {
    if Looks(m, i, a, r) {
      LookFindsNothingPending(m, i, a, v, r);
      LookedUpTo(v, m.SeatOf(r).role, e.probe, before, e.now);
    } else if Commits(m, i, a, r) && v.pending.Some? && v.outcome.Some? {
      RecordedUpTo(v, if a.Caller? then v.pending.value.now else e.now, before, e.now);
    }
  }

  lemma LookFindsNothingPending(m: Manager, i: Mid, a: Actor, v: Visits, r: RoleName)
    requires BaseInv(m) && Follows(m, v, r) && Looks(m, i, a, r)
    ensures v.pending.None?
  {
    assert PlanInv(r, m.agentEnabled, m.monitor);
  }

  lemma {:induction false} VisitsUpTo(events: seq<Event>, i: Mid, r: RoleName)
    requires IsRun(events) && Clocked(events)
    ensures UpTo(VisitsOf(events, i, r), LastTime(events))
    decreases |events|
  {
    if events != [] {
      var before, last := events[..|events| - 1], events[|events| - 1];
      VisitsUpTo(before, i, r);
      RunKeepsInv(before);
      var s := StateAfter(before).value;
      if i < |s.managers| && last.Act? {
        RolesFollowVisits(before, i, r);
        assert ManagerInv(s.managers[i], s.nextPid);
        AdvanceUpTo(s.managers[i], i, last.a, last.e, VisitsOf(before, i, r), r, LastTime(before));
      }
    }
  }

  // ---- The bounds, of runs --------------------------------------------------------------------

  /** In every run, while a manager's session lasts: each role's backoff is min(2^k, 30) seconds after k
      failed attempts in a row, so it lies between 1 and 30. */
  lemma BackoffInRuns(events: seq<Event>, i: Mid, r: RoleName)
    requires IsRun(events) && Clocked(events) && i < |StateAfter(events).value.managers|
    ensures
      var m := StateAfter(events).value.managers[i];
      InSession(m) ==>
        m.SeatOf(r).role.backoffSecs == Wait(|VisitsOf(events, i, r).failed|) && 1 <= m.SeatOf(r).role.backoffSecs <= 30
  {
    RolesFollowVisits(events, i, r);
    VisitsUpTo(events, i, r);
    var m, v := StateAfter(events).value.managers[i], VisitsOf(events, i, r);
    if InSession(m) {
      BackoffOverSession(v.done);
      assert RoleFollows(m.SeatOf(r).role, v);
    }
  }

  /** In every run whose clock does not go back, any n >= 6 consecutive failed attempts to spawn a role of a
      manager span at least 31 + 30 * (n - 6) seconds between the first and the last of them. */
  lemma BackoffSpanInRuns(events: seq<Event>, i: Mid, r: RoleName, first: nat, n: nat)
    requires IsRun(events) && Clocked(events) && i < |StateAfter(events).value.managers|
    requires n >= 6 && first + n <= |VisitsOf(events, i, r).failed|
    ensures
      var failed := VisitsOf(events, i, r).failed;
      failed[first + n - 1] - failed[first] >= 1000 * (31 + 30 * (n - 6))
  {
    RolesFollowVisits(events, i, r);
    VisitsUpTo(events, i, r);
    BackoffSpan(VisitsOf(events, i, r).done, first, n);
  }
}
