/** One manager as a step system: the thread inside `start` or `stop`, the thread probing readiness
    and the monitor thread, one step per lock, atomic, spawn or kill (`src/manager.rs`,
    `src/monitor.rs`, non-Windows branches).

    A program point says what its thread does NEXT. `start_stop_lock` is held by the thread of
    `work`, the readiness lock by the thread of `prober`; which of the remaining locks a thread
    holds is a function of its program point (`SectionHolds`, `MonitorHolds`). A statement that
    takes one lock, touches what it guards and gives it back is one step, possible only while that
    lock is free. */
module ManagerSteps {
  import opened Options
  import opened Supervision

  type Tid = nat

  /** What the locks of one role guard, in the order they are always taken. */
  datatype Field = ChildField | BackoffField | DeadlineField

  datatype Lock = MonitorThread | RoleLock(field: Field, role: RoleName) | ReadyLock

  /** What became of a spawned process: held in a local variable, tracked in a child slot, seen
      exited, forgotten because `try_wait` failed, taken by `stop` for `graceful_kill`, or dropped
      with the monitor's uncommitted spawn result. */
  datatype Fate = InFlight | InSlot | Reaped | Abandoned | Killed | Dropped

  /** A role with two history counts the sources do not keep: spawns that failed, and children that
      `stop` took. */
  datatype Seat = Seat(role: Role, failedSpawns: nat, taken: nat)

  /** `reset_backoff_state` as four statements. */
  datatype Reset = AgentBackoff | AgentDeadline | TraceBackoff | TraceDeadline

  /** The points of `start`, after `start_stop_lock` is taken. */
  datatype StartPoint =
    | SSwap
    | SReset(which: Reset)
    | SResetReady
    | STake(field: Field, role: RoleName)
    | SCheck(role: RoleName)
    | SSpawn(role: RoleName, now: Millis)
    | SSpawnReady(result: SpawnOutcome, now: Millis)
    | SCommit(role: RoleName, result: SpawnOutcome, now: Millis)
    | SCommitReady
    | SUnlock(role: RoleName)
    | STakeMonitorThread
    | SStartMonitor
    | SReturn

  /** The points of `stop`, after `start_stop_lock` is taken. */
  datatype StopPoint =
    | PSwap
    | PTakeHandle
    | PJoin
    | PTakeChild(role: RoleName)
    | PKill(role: RoleName)
    | PResetReady
    | PReset(which: Reset)
    | PReturn

  /** The points of `ensure_trace_agent_ready`, after the readiness lock is taken. */
  datatype ProbePoint = RTest | RPeek | RWait

  datatype Phase = Check | Commit

  datatype MonitorPoint =
    | MAbsent
    | MTest
    | MTake(field: Field, phase: Phase, role: RoleName)
    | MAct(phase: Phase, role: RoleName)
    | MGate(role: RoleName)
    | MSpawn(role: RoleName)
    | MSpawnReady
    | MResetReady
    | MPeek(role: RoleName)
    | MWait
    | MExit

  /** The monitor thread's point and its four local variables. */
  datatype Monitor = Monitor(
    at: MonitorPoint,
    agentGo: bool,
    traceGo: bool,
    agentRes: Option<SpawnOutcome>,
    traceRes: Option<SpawnOutcome>)
  {
    predicate Go(r: RoleName) {
      if r == Agent then agentGo else traceGo
    }

    function Res(r: RoleName): Option<SpawnOutcome> {
      if r == Agent then agentRes else traceRes
    }
  }

  datatype Work =
    | Idle
    | StartWork(t: Tid, startAt: StartPoint)
    | StopWork(t: Tid, stopAt: StopPoint)

  datatype Prober = NoProber | Prober(t: Tid, at: ProbePoint)

  /** `should_run`, whether the monitor's join handle is stored, and three history counts: the times
      `start` set `should_run`, the times `stop` cleared it, and the spawns begun while it was clear. */
  datatype Run = Run(shouldRun: bool, handle: bool, starts: nat, stops: nat, late: nat)

  /** `fate` records every process the manager ever spawned. */
  datatype Manager = Manager(
    agentEnabled: bool,
    run: Run,
    ready: bool,
    agent: Seat,
    trace: Seat,
    work: Work,
    prober: Prober,
    monitor: Monitor,
    fate: map<Pid, Fate>)
  {
    function SeatOf(r: RoleName): Seat {
      if r == Agent then agent else trace
    }

    function WithSeat(r: RoleName, seat: Seat): Manager {
      if r == Agent then this.(agent := seat) else this.(trace := seat)
    }
  }

  const FRESH_SEAT := Seat(FRESH_ROLE, 0, 0)

  const NO_MONITOR := Monitor(MAbsent, false, false, None, None)

  function NewManager(agentEnabled: bool): Manager {
    Manager(agentEnabled, Run(false, false, 0, 0, 0), false, FRESH_SEAT, FRESH_SEAT, Idle, NoProber, NO_MONITOR, map[])
  }

  /** The outcomes a step may meet. */
  datatype Env = Env(probe: Probe, spawn: SpawnOutcome, now: Millis, accepts: bool, enabled: bool)

  // ---- Locks ----------------------------------------------------------------------------------

  predicate TakenBefore(f: Field, l: Lock, r: RoleName) {
    match f
    case ChildField => false
    case BackoffField => l == RoleLock(ChildField, r)
    case DeadlineField => l == RoleLock(ChildField, r) || l == RoleLock(BackoffField, r)
  }

  predicate OfRole(l: Lock, r: RoleName) {
    l.RoleLock? && l.role == r
  }

  predicate StartHolds(at: StartPoint, l: Lock) {
    match at
    case STake(f, r) => TakenBefore(f, l, r)
    case SCheck(r) => OfRole(l, r)
    case SSpawn(r, _) => OfRole(l, r)
    case SSpawnReady(_, _) => OfRole(l, TraceAgent)
    case SCommit(r, _, _) => OfRole(l, r)
    case SCommitReady => OfRole(l, TraceAgent)
    case SUnlock(r) => OfRole(l, r)
    case SStartMonitor => l == MonitorThread
    case SReturn => l == MonitorThread
    case _ => false
  }

  predicate StopHolds(at: StopPoint, l: Lock) {
    match at
    case PJoin => l == MonitorThread
    case PKill(r) => l == RoleLock(ChildField, r)
    case _ => false
  }

  predicate SectionHolds(w: Work, l: Lock) {
    match w
    case Idle => false
    case StartWork(_, at) => StartHolds(at, l)
    case StopWork(_, at) => StopHolds(at, l)
  }

  predicate MonitorHolds(at: MonitorPoint, l: Lock) {
    match at
    case MTake(f, _, r) => TakenBefore(f, l, r)
    case MAct(_, r) => OfRole(l, r)
    case _ => false
  }

  predicate ProberHolds(p: Prober, l: Lock) {
    p.Prober? && l == ReadyLock
  }

  predicate Free(m: Manager, l: Lock) {
    !SectionHolds(m.work, l) && !MonitorHolds(m.monitor.at, l) && !ProberHolds(m.prober, l)
  }

  function ResetLock(which: Reset): Lock {
    match which
    case AgentBackoff => RoleLock(BackoffField, Agent)
    case AgentDeadline => RoleLock(DeadlineField, Agent)
    case TraceBackoff => RoleLock(BackoffField, TraceAgent)
    case TraceDeadline => RoleLock(DeadlineField, TraceAgent)
  }

  /** The lock a step has to find free, if any. */
  function StartNeeds(at: StartPoint): Option<Lock> {
    match at
    case SReset(which) => Some(ResetLock(which))
    case SResetReady => Some(ReadyLock)
    case STake(f, r) => Some(RoleLock(f, r))
    case SSpawnReady(_, _) => Some(ReadyLock)
    case SCommitReady => Some(ReadyLock)
    case STakeMonitorThread => Some(MonitorThread)
    case _ => None
  }

  function StopNeeds(at: StopPoint): Option<Lock> {
    match at
    case PTakeHandle => Some(MonitorThread)
    case PTakeChild(r) => Some(RoleLock(ChildField, r))
    case PResetReady => Some(ReadyLock)
    case PReset(which) => Some(ResetLock(which))
    case _ => None
  }

  function ProbeNeeds(at: ProbePoint): Option<Lock> {
    if at.RPeek? then Some(RoleLock(ChildField, TraceAgent)) else None
  }

  function MonitorNeeds(at: MonitorPoint): Option<Lock> {
    match at
    case MTake(f, _, r) => Some(RoleLock(f, r))
    case MSpawnReady => Some(ReadyLock)
    case MResetReady => Some(ReadyLock)
    case MPeek(r) => Some(RoleLock(DeadlineField, r))
    case _ => None
  }

  predicate Grants(m: Manager, needs: Option<Lock>) {
    needs.Some? ==> Free(m, needs.value)
  }

  predicate MonitorAlive(m: Manager) {
    !m.monitor.at.MAbsent? && !m.monitor.at.MExit?
  }

  predicate SectionEnabled(m: Manager) {
    match m.work
    case Idle => false
    case StartWork(_, at) => Grants(m, StartNeeds(at))
    case StopWork(_, at) => Grants(m, StopNeeds(at)) && (at.PJoin? ==> !MonitorAlive(m))
  }

  predicate ProberEnabled(m: Manager) {
    m.prober.Prober? && Grants(m, ProbeNeeds(m.prober.at))
  }

  predicate MonitorEnabled(m: Manager) {
    MonitorAlive(m) && Grants(m, MonitorNeeds(m.monitor.at))
  }

  // ---- What the steps do ----------------------------------------------------------------------

  function CheckSeat(m: Manager, r: RoleName, p: Probe): (Manager, bool) {
    var before := m.SeatOf(r).role;
    var (after, attempt) := Checked(before, p);
    var moved := m.WithSeat(r, m.SeatOf(r).(role := after));
    if before.child.Some? && after.child.None? then
      (moved.(fate := m.fate[before.child.value := if p.wait.Exited? then Reaped else Abandoned]), attempt)
    else
      (moved, attempt)
  }

  function SpawnChild(m: Manager, outcome: SpawnOutcome): Manager {
    m.(fate := if outcome.Spawned? then m.fate[outcome.pid := InFlight] else m.fate,
       run := if m.run.shouldRun then m.run else m.run.(late := m.run.late + 1))
  }

  function CommitSeat(m: Manager, r: RoleName, result: SpawnOutcome, now: Millis): Manager {
    var seat := m.SeatOf(r);
    var committed := Committed(seat.role, result, now);
    match result
    case Spawned(pid) => m.WithSeat(r, seat.(role := committed)).(fate := m.fate[pid := InSlot])
    case SpawnFailed => m.WithSeat(r, seat.(role := committed, failedSpawns := seat.failedSpawns + 1))
  }

  function KillSeat(m: Manager, r: RoleName): Manager {
    var seat := m.SeatOf(r);
    if seat.role.child.None? then m
    else
      m.WithSeat(r, seat.(role := seat.role.(child := None), taken := seat.taken + 1))
       .(fate := m.fate[seat.role.child.value := Killed])
  }

  function ResetSeat(m: Manager, which: Reset): Manager {
    match which
    case AgentBackoff => m.(agent := m.agent.(role := m.agent.role.(backoffSecs := BACKOFF_INITIAL_SECS)))
    case AgentDeadline => m.(agent := m.agent.(role := m.agent.role.(nextAttempt := None)))
    case TraceBackoff => m.(trace := m.trace.(role := m.trace.role.(backoffSecs := BACKOFF_INITIAL_SECS)))
    case TraceDeadline => m.(trace := m.trace.(role := m.trace.role.(nextAttempt := None)))
  }

  function StartAt(m: Manager, t: Tid, at: StartPoint): Manager {
    m.(work := StartWork(t, at))
  }

  /** The steps of `tick_process` inside `start`, all three locks of the role held. */
  function StartTicks(m: Manager, t: Tid, at: StartPoint, e: Env): Manager {
    match at
    case SCheck(r) =>
      var (checked, attempt) := CheckSeat(m, r, e.probe);
      StartAt(checked, t, if attempt then SSpawn(r, e.probe.now) else SUnlock(r))
    case SSpawn(r, now) =>
      StartAt(SpawnChild(m, e.spawn), t,
              if r == TraceAgent && e.spawn.Spawned? then SSpawnReady(e.spawn, now)
              else SCommit(r, e.spawn, now))
    case SSpawnReady(result, now) => StartAt(m.(ready := false), t, SCommit(TraceAgent, result, now))
    case SCommit(r, result, now) =>
      StartAt(CommitSeat(m, r, result, now), t,
              if r == TraceAgent && result.Spawned? then SCommitReady else SUnlock(r))
    case SCommitReady => StartAt(m.(ready := false), t, SUnlock(TraceAgent))
    case _ => m
  }

  function NextReset(which: Reset): Option<Reset> {
    match which
    case AgentBackoff => Some(AgentDeadline)
    case AgentDeadline => Some(TraceBackoff)
    case TraceBackoff => Some(TraceDeadline)
    case TraceDeadline => None
  }

  function NextStart(at: StartPoint, agentEnabled: bool): StartPoint {
    match at
    case SReset(which) => if NextReset(which).Some? then SReset(NextReset(which).value) else SResetReady
    case SResetReady => STake(ChildField, if agentEnabled then Agent else TraceAgent)
    case STake(ChildField, r) => STake(BackoffField, r)
    case STake(BackoffField, r) => STake(DeadlineField, r)
    case STake(DeadlineField, r) => SCheck(r)
    case SUnlock(r) => if r == Agent then STake(ChildField, TraceAgent) else STakeMonitorThread
    case STakeMonitorThread => SStartMonitor
    case _ => at
  }

  /** The steps that take and give back locks and reset what they guard. */
  function StartMoves(m: Manager, t: Tid, at: StartPoint): Manager {
    var reset := if at.SReset? then ResetSeat(m, at.which) else if at.SResetReady? then m.(ready := false) else m;
    StartAt(reset, t, NextStart(at, m.agentEnabled))
  }

  predicate Ticks(at: StartPoint) {
    at.SCheck? || at.SSpawn? || at.SSpawnReady? || at.SCommit? || at.SCommitReady?
  }

  /** One step of the thread inside `start`. */
  function StartStep(m: Manager, e: Env): Manager
    requires m.work.StartWork?
  {
    var t := m.work.t;
    match m.work.startAt
    case SSwap =>
      if m.run.shouldRun then StartAt(m, t, SReturn)
      else StartAt(m.(run := m.run.(shouldRun := true, starts := m.run.starts + 1)), t, SReset(AgentBackoff))
    case SStartMonitor =>
      var started := if m.run.handle then m
                     else m.(run := m.run.(handle := true), monitor := NO_MONITOR.(at := MTest));
      StartAt(started, t, SReturn)
    case SReturn => m.(work := Idle)
    case at => if Ticks(at) then StartTicks(m, t, at, e) else StartMoves(m, t, at)
  }

  function StopAt(m: Manager, t: Tid, at: StopPoint): Manager {
    m.(work := StopWork(t, at))
  }

  function NextStop(at: StopPoint): StopPoint {
    match at
    case PTakeChild(r) => PKill(r)
    case PKill(r) => if r == Agent then PTakeChild(TraceAgent) else PResetReady
    case PResetReady => PReset(AgentBackoff)
    case PReset(which) => if NextReset(which).Some? then PReset(NextReset(which).value) else PReturn
    case _ => at
  }

  /** `stop` once the monitor thread is joined: it takes and kills the children and resets. */
  function StopMoves(m: Manager, t: Tid, at: StopPoint): Manager {
    var changed :=
      if at.PKill? then KillSeat(m, at.role)
      else if at.PReset? then ResetSeat(m, at.which)
      else if at.PResetReady? then m.(ready := false)
      else m;
    StopAt(changed, t, NextStop(at))
  }

  /** One step of the thread inside `stop`. */
  function StopStep(m: Manager): Manager
    requires m.work.StopWork?
  {
    var t := m.work.t;
    match m.work.stopAt
    case PSwap =>
      if m.run.shouldRun then StopAt(m.(run := m.run.(shouldRun := false, stops := m.run.stops + 1)), t, PTakeHandle)
      else StopAt(m, t, PReturn)
    case PTakeHandle =>
      if m.run.handle then StopAt(m.(run := m.run.(handle := false)), t, PJoin)
      else StopAt(m, t, PTakeChild(if m.agentEnabled then Agent else TraceAgent))
    case PJoin => StopAt(m, t, PTakeChild(if m.agentEnabled then Agent else TraceAgent))
    case PReturn => m.(work := Idle)
    case at => StopMoves(m, t, at)
  }

  /** One step of the thread that holds the readiness lock; `accepts` is the value the flag gets when
      the wait for the endpoint is over. */
  function ProbeStep(m: Manager, e: Env): Manager
    requires m.prober.Prober?
  {
    var t := m.prober.t;
    match m.prober.at
    case RTest => m.(prober := if m.ready then NoProber else Prober(t, RPeek))
    case RPeek => m.(prober := if m.trace.role.child.None? then NoProber else Prober(t, RWait))
    case RWait => m.(prober := NoProber, ready := e.accepts)
  }

  function MonitorAt(m: Manager, at: MonitorPoint): Manager {
    m.(monitor := m.monitor.(at := at))
  }

  /** The monitor leaves its loop: its locals go out of scope, and with them an uncommitted child. */
  function MonitorLeaves(m: Manager): Manager {
    var lost := m.monitor.agentRes;
    m.(monitor := NO_MONITOR.(at := MExit),
       fate := if lost.Some? && lost.value.Spawned? then m.fate[lost.value.pid := Dropped] else m.fate)
  }

  /** The monitor has r's three locks: it checks the child, or commits the spawn result. */
  function MonitorActs(m: Manager, e: Env, phase: Phase, r: RoleName): Manager {
    var mon := m.monitor;
    match (phase, r)
    case (Check, Agent) =>
      if !m.agentEnabled then MonitorAt(m, MTake(ChildField, Check, TraceAgent))
      else
        var (checked, attempt) := CheckSeat(m, Agent, e.probe);
        checked.(monitor := mon.(at := MTake(ChildField, Check, TraceAgent), agentGo := attempt))
    case (Check, TraceAgent) =>
      var (checked, attempt) := CheckSeat(m, TraceAgent, e.probe);
      checked.(monitor := mon.(at := MGate(Agent), traceGo := attempt))
    case (Commit, Agent) =>
      var committed := if m.agentEnabled && mon.agentRes.Some?
                       then CommitSeat(m, Agent, mon.agentRes.value, e.now) else m;
      committed.(monitor := mon.(at := MTake(ChildField, Commit, TraceAgent), agentGo := false, agentRes := None))
    case (Commit, TraceAgent) =>
      var committed := if mon.traceRes.Some? then CommitSeat(m, TraceAgent, mon.traceRes.value, e.now) else m;
      committed.(
        monitor := mon.(at := if mon.traceRes.Some? && mon.traceRes.value.Spawned? then MResetReady else MPeek(Agent),
                        traceGo := false, traceRes := None))
  }

  /** Before a planned spawn the monitor looks at `should_run` once more. */
  function MonitorAtGate(m: Manager, r: RoleName): Manager {
    if !m.monitor.Go(r) then MonitorAt(m, if r == Agent then MGate(TraceAgent) else MTake(ChildField, Commit, Agent))
    else if !m.run.shouldRun then MonitorLeaves(m)
    else MonitorAt(m, MSpawn(r))
  }

  function MonitorSpawns(m: Manager, e: Env, r: RoleName): Manager {
    var mon := m.monitor;
    if r == Agent then
      SpawnChild(m, e.spawn).(monitor := mon.(at := MGate(TraceAgent), agentRes := Some(e.spawn)))
    else
      SpawnChild(m, e.spawn).(
        monitor := mon.(at := if e.spawn.Spawned? then MSpawnReady else MTake(ChildField, Commit, Agent),
                        traceRes := Some(e.spawn)))
  }

  /** Where a step that only takes locks, resets the readiness flag or waits leads. */
  function NextPoint(at: MonitorPoint): MonitorPoint {
    match at
    case MTake(ChildField, phase, r) => MTake(BackoffField, phase, r)
    case MTake(BackoffField, phase, r) => MTake(DeadlineField, phase, r)
    case MTake(DeadlineField, phase, r) => MAct(phase, r)
    case MSpawnReady => MTake(ChildField, Commit, Agent)
    case MResetReady => MPeek(Agent)
    case MPeek(r) => if r == Agent then MPeek(TraceAgent) else MWait
    case MWait => MTest
    case _ => at
  }

  function MonitorMoves(m: Manager): Manager {
    MonitorAt(m, NextPoint(m.monitor.at)).(
      ready := m.ready && !m.monitor.at.MSpawnReady? && !m.monitor.at.MResetReady?)
  }

  /** One step of the monitor thread. */
  function MonitorStep(m: Manager, e: Env): Manager {
    match m.monitor.at
    case MTest => if m.run.shouldRun then MonitorAt(m, MTake(ChildField, Check, Agent)) else MonitorLeaves(m)
    case MAct(phase, r) => MonitorActs(m, e, phase, r)
    case MGate(r) => MonitorAtGate(m, r)
    case MSpawn(r) => MonitorSpawns(m, e, r)
    case _ => MonitorMoves(m)
  }

  // ---- The invariant of one manager -----------------------------------------------------------

  function PidOf(result: Option<SpawnOutcome>): Option<Pid> {
    if result.Some? && result.value.Spawned? then Some(result.value.pid) else None
  }

  function SectionResult(w: Work): Option<SpawnOutcome> {
    match w
    case StartWork(_, SSpawnReady(result, _)) => Some(result)
    case StartWork(_, SCommit(_, result, _)) => Some(result)
    case _ => None
  }

  /** The five places a live process can be in: the two child slots, the local spawn result of
      `start`, and the monitor's two. */
  datatype Places = Places(
    fate: map<Pid, Fate>,
    agentSlot: Option<Pid>,
    traceSlot: Option<Pid>,
    inStart: Option<Pid>,
    forAgent: Option<Pid>,
    forTrace: Option<Pid>)

  function PlacesOf(m: Manager): Places {
    Places(m.fate, m.agent.role.child, m.trace.role.child, PidOf(SectionResult(m.work)),
           PidOf(m.monitor.agentRes), PidOf(m.monitor.traceRes))
  }

  /** Every process has the one fate that says where it is, and no two places hold the same one. */
  ghost predicate FatesMatch(w: Places, nextPid: Pid) {
    && (forall p | p in w.fate ::
          && p < nextPid
          && (w.fate[p] == InSlot <==> w.agentSlot == Some(p) || w.traceSlot == Some(p))
          && (w.fate[p] == InFlight <==> w.inStart == Some(p) || w.forAgent == Some(p) || w.forTrace == Some(p)))
    && (w.agentSlot.Some? ==> w.agentSlot.value in w.fate && w.agentSlot != w.traceSlot)
    && (w.traceSlot.Some? ==> w.traceSlot.value in w.fate)
    && (w.inStart.Some? ==> w.inStart.value in w.fate && w.inStart != w.forAgent && w.inStart != w.forTrace)
    && (w.forAgent.Some? ==> w.forAgent.value in w.fate && w.forAgent != w.forTrace)
    && (w.forTrace.Some? ==> w.forTrace.value in w.fate)
  }

  /** The ways a step may change places and fates. */
  datatype Move =
    | Stay
    | SpawnInStart
    | SpawnForAgent
    | SpawnForTrace
    | StartFills(role: RoleName)
    | MonitorFills(role: RoleName)
    | Vacate(role: RoleName, fate: Fate)
    | LoseAgent

  ghost predicate Moved(w: Places, x: Places, move: Move, pid: Pid) {
    match move
    case Stay => x == w
    case SpawnInStart => w.inStart.None? && x == w.(inStart := Some(pid), fate := w.fate[pid := InFlight])
    case SpawnForAgent => w.forAgent.None? && x == w.(forAgent := Some(pid), fate := w.fate[pid := InFlight])
    case SpawnForTrace => w.forTrace.None? && x == w.(forTrace := Some(pid), fate := w.fate[pid := InFlight])
    case StartFills(Agent) =>
      && w.inStart.Some? && w.agentSlot.None?
      && x == w.(inStart := None, agentSlot := w.inStart, fate := w.fate[w.inStart.value := InSlot])
    case StartFills(TraceAgent) =>
      && w.inStart.Some? && w.traceSlot.None?
      && x == w.(inStart := None, traceSlot := w.inStart, fate := w.fate[w.inStart.value := InSlot])
    case MonitorFills(Agent) =>
      && w.forAgent.Some? && w.agentSlot.None?
      && x == w.(forAgent := None, agentSlot := w.forAgent, fate := w.fate[w.forAgent.value := InSlot])
    case MonitorFills(TraceAgent) =>
      && w.forTrace.Some? && w.traceSlot.None?
      && x == w.(forTrace := None, traceSlot := w.forTrace, fate := w.fate[w.forTrace.value := InSlot])
    case Vacate(Agent, fate) =>
      && w.agentSlot.Some? && fate in {Reaped, Abandoned, Killed}
      && x == w.(agentSlot := None, fate := w.fate[w.agentSlot.value := fate])
    case Vacate(TraceAgent, fate) =>
      && w.traceSlot.Some? && fate in {Reaped, Abandoned, Killed}
      && x == w.(traceSlot := None, fate := w.fate[w.traceSlot.value := fate])
    case LoseAgent =>
      w.forAgent.Some? && x == w.(forAgent := None, fate := w.fate[w.forAgent.value := Dropped])
  }

  predicate Final(fate: Fate) {
    fate != InFlight && fate != InSlot
  }

  /** A final fate is never changed again, and a new process is the one just spawned, in flight. */
  ghost predicate FatesAdvance(before: map<Pid, Fate>, after: map<Pid, Fate>, pid: Pid) {
    && (forall p | p in before :: p in after && (Final(before[p]) ==> after[p] == before[p]))
    && (forall p | p in after && p !in before :: p == pid && after[p] == InFlight)
  }

  predicate HasFate(fate: map<Pid, Fate>, p: Pid, f: Fate) {
    p in fate && fate[p] == f
  }

  /** At most one process was dropped, by a monitor that has left its loop. */
  ghost predicate DropsMatch(fate: map<Pid, Fate>, exited: bool, agentEnabled: bool) {
    && (forall p: Pid | HasFate(fate, p, Dropped) :: exited && agentEnabled)
    && (forall p: Pid, q: Pid | HasFate(fate, p, Dropped) && HasFate(fate, q, Dropped) :: p == q)
  }

  predicate Spawns(move: Move) {
    move.SpawnInStart? || move.SpawnForAgent? || move.SpawnForTrace?
  }

  predicate Fills(move: Move) {
    move.StartFills? || move.MonitorFills?
  }

  lemma SpawnKeepsFates(w: Places, x: Places, move: Move, nextPid: Pid)
    requires FatesMatch(w, nextPid) && Moved(w, x, move, nextPid) && Spawns(move)
    ensures FatesMatch(x, nextPid + 1)
  {
  }

  lemma FillKeepsFates(w: Places, x: Places, move: Move, nextPid: Pid)
    requires FatesMatch(w, nextPid) && Moved(w, x, move, nextPid) && Fills(move)
    ensures FatesMatch(x, nextPid + 1)
  {
  }

  lemma LeaveKeepsFates(w: Places, x: Places, move: Move, nextPid: Pid)
    requires FatesMatch(w, nextPid) && Moved(w, x, move, nextPid) && (move.Vacate? || move.LoseAgent?)
    ensures FatesMatch(x, nextPid + 1)
  {
  }

  lemma MoveKeepsFates(w: Places, x: Places, move: Move, nextPid: Pid)
    requires FatesMatch(w, nextPid) && Moved(w, x, move, nextPid)
    ensures FatesMatch(x, nextPid + 1)
  {
    if Spawns(move) {
      SpawnKeepsFates(w, x, move, nextPid);
    } else if Fills(move) {
      FillKeepsFates(w, x, move, nextPid);
    } else if !move.Stay? {
      LeaveKeepsFates(w, x, move, nextPid);
    }
  }

  lemma MoveAdvancesFates(w: Places, x: Places, move: Move, nextPid: Pid)
    requires FatesMatch(w, nextPid) && Moved(w, x, move, nextPid)
    ensures FatesAdvance(w.fate, x.fate, nextPid)
  {
  }

  /** The move makes f the fate of p. */
  predicate Gives(w: Places, move: Move, p: Pid, f: Fate) {
    || (move.Vacate? && move.fate == f && (if move.role == Agent then w.agentSlot else w.traceSlot) == Some(p))
    || (move.LoseAgent? && f == Dropped && w.forAgent == Some(p))
  }

  /** A process has a final fate after a move exactly if it had it before or the move gives it. */
  lemma MoveGives(w: Places, x: Places, move: Move, nextPid: Pid, p: Pid, f: Fate)
    requires FatesMatch(w, nextPid) && Moved(w, x, move, nextPid) && Final(f)
    ensures HasFate(x.fate, p, f) <==> HasFate(w.fate, p, f) || Gives(w, move, p, f)
  {
  }

  lemma MoveKeepsDrops(w: Places, x: Places, move: Move, nextPid: Pid, exited: bool, exits: bool, agentEnabled: bool)
    requires FatesMatch(w, nextPid) && Moved(w, x, move, nextPid)
    requires DropsMatch(w.fate, exited, agentEnabled)
    requires exited ==> exits
    requires move.LoseAgent? ==> !exited && exits && agentEnabled
    ensures DropsMatch(x.fate, exits, agentEnabled)
  {
    forall p: Pid
      ensures HasFate(x.fate, p, Dropped) <==> HasFate(w.fate, p, Dropped) || Gives(w, move, p, Dropped)
    {
      MoveGives(w, x, move, nextPid, p, Dropped);
    }
  }

  // The life of a manager: never started, running, or stopped for good.

  predicate Unstarted(run: Run, at: MonitorPoint) {
    run.starts == 0 && run.stops == 0 && !run.shouldRun && !run.handle && at.MAbsent?
  }

  predicate Starting(run: Run, at: MonitorPoint) {
    run.starts == 1 && run.stops == 0 && run.shouldRun && !run.handle && at.MAbsent?
  }

  predicate Live(run: Run, at: MonitorPoint) {
    run.starts == 1 && run.stops == 0 && run.shouldRun && run.handle && !at.MAbsent? && !at.MExit?
  }

  predicate Stopping(run: Run, at: MonitorPoint, handle: bool) {
    run.starts == 1 && run.stops == 1 && !run.shouldRun && run.handle == handle && !at.MAbsent?
  }

  predicate Ended(run: Run, at: MonitorPoint) {
    run.starts == 1 && run.stops == 1 && !run.shouldRun && !run.handle && at.MExit?
  }

  predicate Settled(run: Run, at: MonitorPoint) {
    Unstarted(run, at) || Live(run, at) || Ended(run, at)
  }

  predicate StartInv(s: StartPoint, run: Run, at: MonitorPoint) {
    if s.SSwap? then Unstarted(run, at) else if s.SReturn? then Live(run, at) else Starting(run, at)
  }

  predicate StopInv(s: StopPoint, run: Run, at: MonitorPoint) {
    if s.PSwap? then Settled(run, at)
    else if s.PTakeHandle? then Stopping(run, at, true)
    else if s.PJoin? then Stopping(run, at, false)
    else if s.PReturn? then Unstarted(run, at) || Ended(run, at)
    else Ended(run, at)
  }

  predicate WorkInv(work: Work, run: Run, at: MonitorPoint) {
    match work
    case Idle => Settled(run, at)
    case StartWork(_, s) => StartInv(s, run, at)
    case StopWork(_, s) => StopInv(s, run, at)
  }

  /** At most one spawn begins after `should_run` is cleared: the one the monitor was committed to. */
  predicate LateInv(run: Run, at: MonitorPoint) {
    run.late + (if at.MSpawn? then 1 else 0) <= 1 && (run.shouldRun || run.starts == 0 ==> run.late == 0)
  }

  predicate ControlInv(work: Work, run: Run, at: MonitorPoint) {
    WorkInv(work, run, at) && LateInv(run, at)
  }

  /** Spawns are accounted for: recorded or failed, they equal the failures that were recorded, the
      children `stop` took and the one in the slot. */
  predicate Balanced(s: Seat) {
    s.role.spawns + s.failedSpawns == s.role.failures + s.taken + (if s.role.child.Some? then 1 else 0)
  }

  /** The monitor may be holding a decision to spawn r. */
  predicate MayPlan(at: MonitorPoint, r: RoleName) {
    match at
    case MTake(_, Check, q) => r == Agent && q == TraceAgent
    case MAct(Check, q) => r == Agent && q == TraceAgent
    case MTake(_, Commit, q) => r == TraceAgent || q == Agent
    case MAct(Commit, q) => r == TraceAgent || q == Agent
    case MGate(_) => true
    case MSpawn(_) => true
    case MSpawnReady => true
    case _ => false
  }

  /** The monitor may be holding r's spawn result. */
  predicate MayHold(at: MonitorPoint, r: RoleName) {
    match at
    case MGate(q) => r == Agent && q == TraceAgent
    case MSpawn(q) => r == Agent && q == TraceAgent
    case MSpawnReady => true
    case MTake(_, Commit, q) => r == TraceAgent || q == Agent
    case MAct(Commit, q) => r == TraceAgent || q == Agent
    case _ => false
  }

  /** `start` has not yet recorded a child for r. */
  predicate StartVacant(at: StartPoint, r: RoleName) {
    match at
    case STake(_, q) => r == q || r == TraceAgent
    case SCheck(q) => r == q || r == TraceAgent
    case SSpawn(q, _) => r == q || r == TraceAgent
    case SSpawnReady(_, _) => r == TraceAgent
    case SCommit(q, _, _) => r == q || r == TraceAgent
    case SCommitReady => false
    case SUnlock(q) => r == TraceAgent && q == Agent
    case STakeMonitorThread => false
    case SStartMonitor => false
    case SReturn => false
    case _ => true
  }

  /** `stop` has taken r's child, or is through. */
  predicate StopVacant(w: Work, r: RoleName) {
    match w
    case StopWork(_, PTakeHandle) => false
    case StopWork(_, PJoin) => false
    case StopWork(_, PTakeChild(q)) => r == Agent && q == TraceAgent
    case StopWork(_, PKill(q)) => r == Agent && q == TraceAgent
    case _ => true
  }

  /** Points at which r's slot must be empty: no child can be recorded over another one. */
  predicate Vacant(r: RoleName, agentEnabled: bool, work: Work, run: Run, go: bool) {
    || run.starts == 0
    || (r == Agent && !agentEnabled)
    || go
    || (work.StartWork? && StartVacant(work.startAt, r))
    || (run.stops == 1 && StopVacant(work, r))
  }

  predicate WorksOnAgent(work: Work) {
    work.StartWork? &&
    match work.startAt
    case SCheck(q) => q == Agent
    case STake(_, q) => q == Agent
    case SSpawn(q, _) => q == Agent
    case SCommit(q, _, _) => q == Agent
    case _ => false
  }

  predicate PlanInv(r: RoleName, agentEnabled: bool, mon: Monitor) {
    && (mon.Go(r) ==> MayPlan(mon.at, r) && (r == Agent ==> agentEnabled))
    && (mon.Res(r).Some? ==> mon.Go(r) && MayHold(mon.at, r))
    && (mon.at == MSpawn(r) ==> mon.Go(r))
  }

  predicate SeatInv(seat: Seat, r: RoleName, agentEnabled: bool, work: Work, run: Run, mon: Monitor) {
    && Balanced(seat)
    && (Vacant(r, agentEnabled, work, run, mon.Go(r)) ==> seat.role.child.None?)
    && PlanInv(r, agentEnabled, mon)
    && (!agentEnabled ==> !WorksOnAgent(work))
  }

  predicate ControlHolds(m: Manager) {
    ControlInv(m.work, m.run, m.monitor.at)
  }

  predicate SeatHolds(m: Manager, r: RoleName) {
    SeatInv(m.SeatOf(r), r, m.agentEnabled, m.work, m.run, m.monitor)
  }

  /** Everything but the fates. */
  predicate BaseInv(m: Manager) {
    ControlHolds(m) && SeatHolds(m, Agent) && SeatHolds(m, TraceAgent)
  }

  ghost predicate ManagerInv(m: Manager, nextPid: Pid) {
    && BaseInv(m)
    && FatesMatch(PlacesOf(m), nextPid)
    && DropsMatch(m.fate, m.monitor.at.MExit?, m.agentEnabled)
  }

  /** The outcome of a spawn is a process id not used before, or a failure. */
  predicate FreshEnv(e: Env, nextPid: Pid) {
    e.spawn.Spawned? ==> e.spawn.pid == nextPid
  }

  lemma FreshManagerInv(agentEnabled: bool, nextPid: Pid)
    ensures ManagerInv(NewManager(agentEnabled), nextPid)
  {
  }

  lemma StartTicksControl(m: Manager, t: Tid, at: StartPoint, e: Env)
    requires BaseInv(m) && m.work == StartWork(t, at) && Ticks(at)
    ensures ControlHolds(StartTicks(m, t, at, e))
  {
  }

  lemma StartChecksSeat(m: Manager, t: Tid, q: RoleName, e: Env, r: RoleName)
    requires BaseInv(m) && m.work == StartWork(t, SCheck(q))
    ensures SeatHolds(StartTicks(m, t, SCheck(q), e), r)
  {
  }

  lemma StartCommitsSeat(m: Manager, t: Tid, at: StartPoint, e: Env, r: RoleName)
    requires BaseInv(m) && m.work == StartWork(t, at) && at.SCommit?
    ensures SeatHolds(StartTicks(m, t, at, e), r)
  {
  }

  lemma StartTicksSeat(m: Manager, t: Tid, at: StartPoint, e: Env, r: RoleName)
    requires BaseInv(m) && m.work == StartWork(t, at) && Ticks(at)
    ensures SeatHolds(StartTicks(m, t, at, e), r)
  {
    if at.SCheck? {
      StartChecksSeat(m, t, at.role, e, r);
    } else if at.SCommit? {
      StartCommitsSeat(m, t, at, e, r);
    }
  }

  lemma StartMovesControl(m: Manager, t: Tid, at: StartPoint)
    requires BaseInv(m) && m.work == StartWork(t, at) && !Ticks(at) && !at.SSwap? && !at.SStartMonitor? && !at.SReturn?
    ensures ControlHolds(StartMoves(m, t, at))
  {
  }

  lemma StartMovesSeat(m: Manager, t: Tid, at: StartPoint, r: RoleName)
    requires BaseInv(m) && m.work == StartWork(t, at) && !Ticks(at) && !at.SSwap? && !at.SStartMonitor? && !at.SReturn?
    ensures SeatHolds(StartMoves(m, t, at), r)
  {
  }

  lemma StartControl(m: Manager, e: Env)
    requires BaseInv(m) && m.work.StartWork?
    ensures ControlHolds(StartStep(m, e))
  {
    var t, at := m.work.t, m.work.startAt;
    if Ticks(at) {
      StartTicksControl(m, t, at, e);
    } else if !at.SSwap? && !at.SStartMonitor? && !at.SReturn? {
      StartMovesControl(m, t, at);
    }
  }

  lemma StartSeat(m: Manager, e: Env, r: RoleName)
    requires BaseInv(m) && m.work.StartWork?
    ensures SeatHolds(StartStep(m, e), r)
  {
    var t, at := m.work.t, m.work.startAt;
    if Ticks(at) {
      StartTicksSeat(m, t, at, e, r);
    } else if !at.SSwap? && !at.SStartMonitor? && !at.SReturn? {
      StartMovesSeat(m, t, at, r);
    }
  }

  lemma StopMovesControl(m: Manager, t: Tid, at: StopPoint)
    requires BaseInv(m) && m.work == StopWork(t, at) && (at.PTakeChild? || at.PKill? || at.PResetReady? || at.PReset?)
    ensures ControlHolds(StopMoves(m, t, at))
  {
  }

  lemma StopMovesSeat(m: Manager, t: Tid, at: StopPoint, r: RoleName)
    requires BaseInv(m) && m.work == StopWork(t, at) && (at.PTakeChild? || at.PKill? || at.PResetReady? || at.PReset?)
    ensures SeatHolds(StopMoves(m, t, at), r)
  {
    if at.PKill? {
      StopKillsSeat(m, t, at.role, r);
    } else {
      StopResetsSeat(m, t, at, r);
    }
  }

  lemma StopKillsSeat(m: Manager, t: Tid, q: RoleName, r: RoleName)
    requires BaseInv(m) && m.work == StopWork(t, PKill(q))
    ensures SeatHolds(StopMoves(m, t, PKill(q)), r)
  {
  }

  lemma StopResetsSeat(m: Manager, t: Tid, at: StopPoint, r: RoleName)
    requires BaseInv(m) && m.work == StopWork(t, at) && (at.PTakeChild? || at.PResetReady? || at.PReset?)
    ensures SeatHolds(StopMoves(m, t, at), r)
  {
  }

  lemma StopControl(m: Manager)
    requires BaseInv(m) && m.work.StopWork? && SectionEnabled(m)
    ensures ControlHolds(StopStep(m))
  {
    var t, at := m.work.t, m.work.stopAt;
    if at.PTakeChild? || at.PKill? || at.PResetReady? || at.PReset? {
      StopMovesControl(m, t, at);
    }
  }

  lemma StopSeat(m: Manager, r: RoleName)
    requires BaseInv(m) && m.work.StopWork? && SectionEnabled(m)
    ensures SeatHolds(StopStep(m), r)
  {
    var t, at := m.work.t, m.work.stopAt;
    if at.PTakeChild? || at.PKill? || at.PResetReady? || at.PReset? {
      StopMovesSeat(m, t, at, r);
    }
  }

  lemma MonitorMovesBase(m: Manager)
    requires BaseInv(m) && MonitorAlive(m)
    requires !m.monitor.at.MSpawn?
    ensures ControlHolds(MonitorMoves(m)) && SeatHolds(MonitorMoves(m), Agent) && SeatHolds(MonitorMoves(m), TraceAgent)
  {
    MovesKeepPlans(m.monitor.at, Agent);
    MovesKeepPlans(m.monitor.at, TraceAgent);
  }

  lemma MovesKeepPlans(at: MonitorPoint, r: RoleName)
    ensures MayPlan(at, r) ==> MayPlan(NextPoint(at), r)
    ensures MayHold(at, r) ==> MayHold(NextPoint(at), r)
    ensures NextPoint(at).MSpawn? || NextPoint(at).MAbsent? || NextPoint(at).MExit? ==> NextPoint(at) == at
  {
  }

  lemma MonitorChecksSeat(m: Manager, e: Env, q: RoleName, r: RoleName)
    requires BaseInv(m) && m.monitor.at == MAct(Check, q)
    ensures SeatHolds(MonitorActs(m, e, Check, q), r)
  {
  }

  lemma MonitorCommitsAgent(m: Manager, e: Env, r: RoleName)
    requires BaseInv(m) && m.monitor.at == MAct(Commit, Agent)
    ensures SeatHolds(MonitorActs(m, e, Commit, Agent), r)
  {
  }

  lemma MonitorCommitsTrace(m: Manager, e: Env, r: RoleName)
    requires BaseInv(m) && m.monitor.at == MAct(Commit, TraceAgent)
    ensures SeatHolds(MonitorActs(m, e, Commit, TraceAgent), r)
  {
  }

  lemma MonitorCommitsSeat(m: Manager, e: Env, q: RoleName, r: RoleName)
    requires BaseInv(m) && m.monitor.at == MAct(Commit, q)
    ensures SeatHolds(MonitorActs(m, e, Commit, q), r)
  {
    if q == Agent {
      MonitorCommitsAgent(m, e, r);
    } else {
      MonitorCommitsTrace(m, e, r);
    }
  }

  lemma MonitorActsControl(m: Manager, e: Env, phase: Phase, q: RoleName)
    requires BaseInv(m) && m.monitor.at == MAct(phase, q)
    ensures ControlHolds(MonitorActs(m, e, phase, q))
  {
  }

  lemma MonitorControl(m: Manager, e: Env)
    requires BaseInv(m) && MonitorAlive(m)
    ensures ControlHolds(MonitorStep(m, e))
  {
    match m.monitor.at
    case MTest =>
    case MAct(phase, q) => MonitorActsControl(m, e, phase, q);
    case MGate(q) =>
    case MSpawn(q) =>
    case _ => MonitorMovesBase(m);
  }

  lemma MonitorDecidesSeat(m: Manager, r: RoleName)
    requires BaseInv(m) && (m.monitor.at.MTest? || m.monitor.at.MGate?)
    ensures SeatHolds(MonitorLeaves(m), r)
    ensures m.monitor.at.MTest? ==> SeatHolds(MonitorAt(m, MTake(ChildField, Check, Agent)), r)
    ensures m.monitor.at.MGate? ==> SeatHolds(MonitorAtGate(m, m.monitor.at.role), r)
  {
  }

  lemma MonitorSpawnsSeat(m: Manager, e: Env, q: RoleName, r: RoleName)
    requires BaseInv(m) && m.monitor.at == MSpawn(q)
    ensures SeatHolds(MonitorSpawns(m, e, q), r)
  {
  }

  lemma MonitorSeat(m: Manager, e: Env, r: RoleName)
    requires BaseInv(m) && MonitorAlive(m)
    ensures SeatHolds(MonitorStep(m, e), r)
  {
    match m.monitor.at
    case MTest => MonitorDecidesSeat(m, r);
    case MAct(Check, q) => MonitorChecksSeat(m, e, q, r);
    case MAct(Commit, q) => MonitorCommitsSeat(m, e, q, r);
    case MGate(q) => MonitorDecidesSeat(m, r);
    case MSpawn(q) => MonitorSpawnsSeat(m, e, q, r);
    case _ => MonitorMovesBase(m);
  }

  function CheckMove(m: Manager, r: RoleName, p: Probe): Move {
    if m.SeatOf(r).role.child.Some? && !p.wait.Running?
    then Vacate(r, if p.wait.Exited? then Reaped else Abandoned) else Stay
  }

  /** Which move a step of `start` makes. */
  function StartMove(m: Manager, e: Env): Move
    requires m.work.StartWork?
  {
    match m.work.startAt
    case SCheck(r) => CheckMove(m, r, e.probe)
    case SSpawn(r, _) => if e.spawn.Spawned? then SpawnInStart else Stay
    case SCommit(r, result, _) => if result.Spawned? then StartFills(r) else Stay
    case _ => Stay
  }

  lemma StartMoved(m: Manager, e: Env, nextPid: Pid)
    requires BaseInv(m) && m.work.StartWork? && FreshEnv(e, nextPid)
    ensures Moved(PlacesOf(m), PlacesOf(StartStep(m, e)), StartMove(m, e), nextPid)
  {
    var t, at := m.work.t, m.work.startAt;
    if Ticks(at) {
      TicksMoved(m, t, at, e, nextPid);
    } else if !at.SSwap? && !at.SStartMonitor? && !at.SReturn? {
      assert PlacesOf(StartMoves(m, t, at)) == PlacesOf(m);
    }
  }

  lemma TicksMoved(m: Manager, t: Tid, at: StartPoint, e: Env, nextPid: Pid)
    requires BaseInv(m) && m.work == StartWork(t, at) && Ticks(at) && FreshEnv(e, nextPid)
    ensures Moved(PlacesOf(m), PlacesOf(StartTicks(m, t, at, e)), StartMove(m, e), nextPid)
  {
  }

  /** Which move a step of `stop` makes. */
  function StopMove(m: Manager): Move
    requires m.work.StopWork?
  {
    match m.work.stopAt
    case PKill(r) => if m.SeatOf(r).role.child.Some? then Vacate(r, Killed) else Stay
    case _ => Stay
  }

  lemma StopMoved(m: Manager, nextPid: Pid)
    requires m.work.StopWork?
    ensures Moved(PlacesOf(m), PlacesOf(StopStep(m)), StopMove(m), nextPid)
    ensures StopMove(m) == Stay || (StopMove(m).Vacate? && StopMove(m).fate == Killed)
  {
  }

  /** The monitor is about to find `should_run` clear at its second look, with a trace agent to spawn
      and an agent spawned but not yet committed. */
  predicate LosesAgent(m: Manager) {
    && m.monitor.at == MGate(TraceAgent) && m.monitor.traceGo && !m.run.shouldRun
    && PidOf(m.monitor.agentRes).Some?
  }

  /** Which move a step of the monitor makes. */
  function MonitorMove(m: Manager, e: Env): Move {
    var mon := m.monitor;
    match mon.at
    case MAct(Check, r) => if r == Agent && !m.agentEnabled then Stay else CheckMove(m, r, e.probe)
    case MAct(Commit, r) => if PidOf(mon.Res(r)).Some? then MonitorFills(r) else Stay
    case MGate(r) => if LosesAgent(m) then LoseAgent else Stay
    case MSpawn(r) => if e.spawn.SpawnFailed? then Stay else if r == Agent then SpawnForAgent else SpawnForTrace
    case _ => Stay
  }

  lemma MonitorMoved(m: Manager, e: Env, nextPid: Pid)
    requires BaseInv(m) && MonitorAlive(m) && FreshEnv(e, nextPid)
    ensures Moved(PlacesOf(m), PlacesOf(MonitorStep(m, e)), MonitorMove(m, e), nextPid)
    ensures MonitorMove(m, e).LoseAgent? ==> MonitorStep(m, e).monitor.at.MExit? && m.agentEnabled
  {
    if m.monitor.at.MAct? {
      ActsMoved(m, e, m.monitor.at.phase, m.monitor.at.role, nextPid);
    }
  }

  lemma ActsMoved(m: Manager, e: Env, phase: Phase, r: RoleName, nextPid: Pid)
    requires BaseInv(m) && m.monitor.at == MAct(phase, r)
    ensures Moved(PlacesOf(m), PlacesOf(MonitorActs(m, e, phase, r)), MonitorMove(m, e), nextPid)
  {
  }

  /** What a step of the section leaves alone. */
  predicate SectionFrame(m: Manager, x: Manager) {
    && x.agentEnabled == m.agentEnabled
    && x.prober == m.prober
    && (x.work.StartWork? ==> m.work.StartWork? && x.work.t == m.work.t)
    && (x.work.StopWork? ==> m.work.StopWork? && x.work.t == m.work.t)
  }

  lemma StartFramed(m: Manager, e: Env)
    requires BaseInv(m) && m.work.StartWork?
    ensures SectionFrame(m, StartStep(m, e))
    ensures m.monitor.at.MExit? ==> StartStep(m, e).monitor.at.MExit?
  {
  }

  lemma StopFramed(m: Manager)
    requires m.work.StopWork?
    ensures SectionFrame(m, StopStep(m))
    ensures m.monitor == StopStep(m).monitor
  {
  }

  lemma MoveKeepsInv(m: Manager, x: Manager, move: Move, nextPid: Pid)
    requires ManagerInv(m, nextPid) && Moved(PlacesOf(m), PlacesOf(x), move, nextPid)
    requires m.monitor.at.MExit? ==> x.monitor.at.MExit?
    requires move.LoseAgent? ==> !m.monitor.at.MExit? && x.monitor.at.MExit? && x.agentEnabled
    requires BaseInv(x) && x.agentEnabled == m.agentEnabled
    ensures ManagerInv(x, nextPid + 1) && FatesAdvance(m.fate, x.fate, nextPid)
  {
    MoveKeepsFates(PlacesOf(m), PlacesOf(x), move, nextPid);
    MoveAdvancesFates(PlacesOf(m), PlacesOf(x), move, nextPid);
    MoveKeepsDrops(PlacesOf(m), PlacesOf(x), move, nextPid, m.monitor.at.MExit?, x.monitor.at.MExit?, x.agentEnabled);
  }

  lemma StartKeepsInv(m: Manager, e: Env, nextPid: Pid)
    requires ManagerInv(m, nextPid) && m.work.StartWork? && FreshEnv(e, nextPid)
    ensures ManagerInv(StartStep(m, e), nextPid + 1)
    ensures FatesAdvance(m.fate, StartStep(m, e).fate, nextPid)
  {
    StartControl(m, e);
    StartSeat(m, e, Agent);
    StartSeat(m, e, TraceAgent);
    StartFramed(m, e);
    StartMoved(m, e, nextPid);
    MoveKeepsInv(m, StartStep(m, e), StartMove(m, e), nextPid);
  }

  lemma StopKeepsInv(m: Manager, nextPid: Pid)
    requires ManagerInv(m, nextPid) && m.work.StopWork? && SectionEnabled(m)
    ensures ManagerInv(StopStep(m), nextPid + 1)
    ensures FatesAdvance(m.fate, StopStep(m).fate, nextPid)
  {
    StopControl(m);
    StopSeat(m, Agent);
    StopSeat(m, TraceAgent);
    StopFramed(m);
    StopMoved(m, nextPid);
    MoveKeepsInv(m, StopStep(m), StopMove(m), nextPid);
  }

  predicate MonitorFrame(m: Manager, x: Manager) {
    && x.agentEnabled == m.agentEnabled
    && x.prober == m.prober
    && x.work == m.work
    && x.run == m.run.(late := x.run.late)
  }

  lemma MonitorFramed(m: Manager, e: Env)
    ensures MonitorFrame(m, MonitorStep(m, e))
  {
    if m.monitor.at.MAct? {
      ActsFramed(m, e, m.monitor.at.phase, m.monitor.at.role);
    }
  }

  lemma ActsFramed(m: Manager, e: Env, phase: Phase, r: RoleName)
    ensures MonitorFrame(m, MonitorActs(m, e, phase, r))
  {
  }

  lemma MonitorKeepsInv(m: Manager, e: Env, nextPid: Pid)
    requires ManagerInv(m, nextPid) && MonitorAlive(m) && FreshEnv(e, nextPid)
    ensures ManagerInv(MonitorStep(m, e), nextPid + 1)
    ensures FatesAdvance(m.fate, MonitorStep(m, e).fate, nextPid)
  {
    MonitorControl(m, e);
    MonitorSeat(m, e, Agent);
    MonitorSeat(m, e, TraceAgent);
    MonitorFramed(m, e);
    MonitorMoved(m, e, nextPid);
    MoveKeepsInv(m, MonitorStep(m, e), MonitorMove(m, e), nextPid);
  }

  /** A thread probing readiness touches the flag and nothing else. */
  lemma ProbeFramed(m: Manager, e: Env)
    requires m.prober.Prober?
    ensures ProbeStep(m, e) == m.(prober := ProbeStep(m, e).prober, ready := ProbeStep(m, e).ready)
    ensures ProbeStep(m, e).prober.Prober? ==> ProbeStep(m, e).prober.t == m.prober.t
  {
  }

  /** Taking or giving back a lock outside the section and the monitor changes no fact of the invariant. */
  lemma ReadinessKeepsInv(m: Manager, prober: Prober, ready: bool, nextPid: Pid)
    requires ManagerInv(m, nextPid)
    ensures ManagerInv(m.(prober := prober, ready := ready), nextPid + 1)
  {
  }

  /** No child in a slot, no monitor running, and `should_run` clear. */
  predicate Quiet(m: Manager) {
    && !m.run.shouldRun
    && m.agent.role.child.None?
    && m.trace.role.child.None?
    && !MonitorAlive(m)
  }

  /** `stop` returns only from a quiet manager, and never ends the quiet. */
  lemma StopQuiets(m: Manager)
    requires BaseInv(m) && m.work.StopWork?
    ensures StopStep(m).work.Idle? ==> Quiet(StopStep(m))
    ensures Quiet(m) ==> Quiet(StopStep(m))
    ensures StopStep(m).run.shouldRun ==> m.run.shouldRun
  {
    StopMovesQuiet(m, m.work.t, m.work.stopAt);
  }

  lemma StopMovesQuiet(m: Manager, t: Tid, at: StopPoint)
    ensures Quiet(m) ==> Quiet(StopMoves(m, t, at))
    ensures StopMoves(m, t, at).run == m.run && StopMoves(m, t, at).work == StopWork(t, NextStop(at))
  {
  }

  /** Taking `start_stop_lock`: for `stop` at any time it is free, for `start` on a manager never
      started before. */
  lemma EnterKeepsInv(m: Manager, w: Work, nextPid: Pid)
    requires ManagerInv(m, nextPid) && m.work.Idle?
    requires (w.StopWork? && w.stopAt.PSwap?) || (w.StartWork? && w.startAt.SSwap? && m.run.starts == 0)
    ensures ManagerInv(m.(work := w), nextPid + 1)
  {
  }
}
