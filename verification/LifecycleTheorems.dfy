/** What holds in every state of every run of the lifecycle protocol. */
module LifecycleTheorems {
  import opened Options
  import opened Supervision
  import opened ManagerSteps
  import opened Lifecycle

  /** The state a sequence of events leads to from the start of the process, if every one of them is
      allowed where it happens. */
  ghost function StateAfter(events: seq<Event>): Option<State> {
    if events == [] then Some(INITIAL)
    else
      var before := StateAfter(events[..|events| - 1]);
      var last := events[|events| - 1];
      if before.Some? && Allowed(before.value, last) then Some(Apply(before.value, last)) else None
  }

  ghost predicate IsRun(events: seq<Event>) {
    StateAfter(events).Some?
  }

  lemma {:induction false} RunKeepsInv(events: seq<Event>)
    requires IsRun(events)
    ensures Inv(StateAfter(events).value)
  {
    if events != [] {
      var before := events[..|events| - 1];
      RunKeepsInv(before);
      EventIsGood(StateAfter(before).value, events[|events| - 1]);
    }
  }

  /** Manager i after a step of caller t, whose point is pc. */
  function CallerOn(m: Manager, i: Mid, t: Tid, pc: Pc, e: Env): Manager {
    match pc
    case StartQueue(k) => if k == i then m.(work := StartWork(t, SSwap)) else m
    case StopQueue(k) => if k == i then m.(work := StopWork(t, PSwap)) else m
    case ProbeQueue(k) => if k == i then m.(prober := Prober(t, RTest)) else m
    case InStart(k) => if k == i && m.work.StartWork? then StartStep(m, e) else m
    case InStop(k) => if k == i && m.work.StopWork? then StopStep(m) else m
    case InProbe(k) => if k == i && m.prober.Prober? then ProbeStep(m, e) else m
    case _ => m
  }

  lemma CallerStepOn(s: State, t: Tid, e: Env, i: Mid)
    requires Enabled(s, Caller(t)) && i < |s.managers|
    ensures i < |Next(s, Caller(t), e).managers|
    ensures Next(s, Caller(t), e).managers[i] == CallerOn(s.managers[i], i, t, s.callers[t], e)
  {
  }

  lemma NewManagerIsFresh(s: State, ev: Event, i: Mid) returns (agentEnabled: bool)
    requires Allowed(s, ev) && |s.managers| <= i < |Apply(s, ev).managers|
    ensures Apply(s, ev).managers[i] == NewManager(agentEnabled)
  {
    agentEnabled := ev.e.enabled;
  }

  // ---- No deadlock ----------------------------------------------------------------------------

  /** A thread that has not returned. */
  predicate Unfinished(s: State, a: Actor) {
    match a
    case Caller(t) => t in s.callers && !s.callers[t].Finished()
    case MonitorOf(i) => i < |s.managers| && MonitorAlive(s.managers[i])
  }

  predicate HeldBy(s: State, i: Mid, l: Lock, b: Actor)
    requires i < |s.managers|
  {
    var m := s.managers[i];
    || (SectionHolds(m.work, l) && !m.work.Idle? && b == Caller(m.work.t))
    || (MonitorHolds(m.monitor.at, l) && b == MonitorOf(i))
    || (ProberHolds(m.prober, l) && b == Caller(m.prober.t))
  }

  /** a's next step takes a lock that b holds, or joins b. */
  predicate WaitsFor(s: State, a: Actor, b: Actor) {
    match a
    case MonitorOf(i) =>
      && i < |s.managers| && MonitorNeeds(s.managers[i].monitor.at).Some?
      && HeldBy(s, i, MonitorNeeds(s.managers[i].monitor.at).value, b)
    case Caller(t) =>
      t in s.callers &&
      match s.callers[t]
      case InitEnter => s.cellHolder.Some? && b == Caller(s.cellHolder.value)
      case StopEnter => s.cell.Some? && s.cellHolder.Some? && b == Caller(s.cellHolder.value)
      case ProbeEnter => s.cellHolder.Some? && b == Caller(s.cellHolder.value)
      case StartQueue(i) => i < |s.managers| && !s.managers[i].work.Idle? && b == Caller(s.managers[i].work.t)
      case StopQueue(i) => i < |s.managers| && !s.managers[i].work.Idle? && b == Caller(s.managers[i].work.t)
      case ProbeQueue(i) => i < |s.managers| && HeldBy(s, i, ReadyLock, b)
      case InStart(i) =>
        && i < |s.managers| && s.managers[i].work.StartWork?
        && StartNeeds(s.managers[i].work.startAt).Some?
        && HeldBy(s, i, StartNeeds(s.managers[i].work.startAt).value, b)
      case InStop(i) =>
        && i < |s.managers| && s.managers[i].work.StopWork?
        && (|| (&& StopNeeds(s.managers[i].work.stopAt).Some?
                && HeldBy(s, i, StopNeeds(s.managers[i].work.stopAt).value, b))
            || (s.managers[i].work.stopAt.PJoin? && MonitorAlive(s.managers[i]) && b == MonitorOf(i)))
      case InProbe(i) =>
        && i < |s.managers| && s.managers[i].prober.Prober?
        && ProbeNeeds(s.managers[i].prober.at).Some?
        && HeldBy(s, i, ProbeNeeds(s.managers[i].prober.at).value, b)
      case _ => false
  }

  /** An order in which threads only wait for smaller ones. */
  function Rank(s: State, a: Actor): nat {
    match a
    case MonitorOf(i) =>
      if i < |s.managers| && (s.managers[i].monitor.at.MSpawnReady? || s.managers[i].monitor.at.MResetReady?) then 2
      else 0
    case Caller(t) =>
      if t !in s.callers then 0 else
      match s.callers[t]
      case InitEnter => 5
      case StopEnter => 5
      case ProbeEnter => 5
      case StopQueue(_) => 4
      case ProbeQueue(_) => 4
      case InStop(i) =>
        if i < |s.managers| && s.managers[i].work.StopWork?
           && (s.managers[i].work.stopAt.PJoin? || s.managers[i].work.stopAt.PResetReady?) then 3 else 0
      case InProbe(_) => 1
      case _ => 0
  }

  /** While a thread is inside `start`, nobody else can reach its manager: no readiness probe is under
      way or queued, no `stop`, and the monitor runs only once `start` has nothing left to take. */
  lemma StartIsAlone(s: State, i: Mid)
    requires Inv(s) && i < |s.managers| && s.managers[i].work.StartWork?
    ensures s.managers[i].prober.NoProber?
    ensures forall t | t in s.callers && s.callers[t].RefersTo(i) :: t == s.managers[i].work.t
    ensures s.managers[i].monitor.at.MAbsent? || s.managers[i].work.startAt.SReturn?
    ensures s.cell == Some(i) && s.cellHolder == Some(s.managers[i].work.t)
  {
    var t := s.managers[i].work.t;
    assert OwnersInv(i, s.managers[i], s.cell, s.callers);
    assert CallerInv(t, s.callers[t], s.cellHolder, s.managers);
    assert ManagerInv(s.managers[i], s.nextPid);
  }

  lemma MonitorWaits(s: State, i: Mid, b: Actor)
    requires Inv(s) && Unfinished(s, MonitorOf(i)) && WaitsFor(s, MonitorOf(i), b)
    ensures Unfinished(s, b) && Rank(s, b) < Rank(s, MonitorOf(i))
  {
    var m := s.managers[i];
    assert OwnersInv(i, m, s.cell, s.callers);
    assert ControlInv(m.work, m.run, m.monitor.at);
  }

  lemma SectionWaits(s: State, t: Tid, i: Mid, b: Actor)
    requires Inv(s) && t in s.callers && s.callers[t] in {InStart(i), InStop(i)} && WaitsFor(s, Caller(t), b)
    ensures Unfinished(s, b) && Rank(s, b) < Rank(s, Caller(t))
  {
    var m := s.managers[i];
    assert OwnersInv(i, m, s.cell, s.callers);
    assert CallerInv(t, s.callers[t], s.cellHolder, s.managers);
    assert ControlInv(m.work, m.run, m.monitor.at);
    if m.work.StartWork? {
      StartIsAlone(s, i);
    }
  }

  lemma CallerWaits(s: State, t: Tid, b: Actor)
    requires Inv(s) && t in s.callers && !s.callers[t].InStart? && !s.callers[t].InStop?
    requires WaitsFor(s, Caller(t), b)
    ensures Unfinished(s, b) && Rank(s, b) < Rank(s, Caller(t))
  {
    match s.callers[t]
    case StopQueue(i) => assert OwnersInv(i, s.managers[i], s.cell, s.callers);
    case ProbeQueue(i) => assert OwnersInv(i, s.managers[i], s.cell, s.callers);
    case InProbe(i) =>
      assert OwnersInv(i, s.managers[i], s.cell, s.callers);
      assert CallerInv(t, s.callers[t], s.cellHolder, s.managers);
      if s.managers[i].work.StartWork? {
        StartIsAlone(s, i);
      }
    case _ =>
  }

  lemma LockHasHolder(s: State, i: Mid, l: Lock) returns (b: Actor)
    requires i < |s.managers| && !Free(s.managers[i], l)
    ensures HeldBy(s, i, l, b)
  {
    var m := s.managers[i];
    b := if SectionHolds(m.work, l) then Caller(m.work.t)
         else if MonitorHolds(m.monitor.at, l) then MonitorOf(i)
         else Caller(m.prober.t);
  }

  /** A thread that has not returned and cannot step waits for some thread. */
  lemma BlockedWaits(s: State, a: Actor) returns (b: Actor)
    requires Inv(s) && Unfinished(s, a) && !Enabled(s, a)
    ensures WaitsFor(s, a, b)
  {
    match a
    case MonitorOf(i) => b := LockHasHolder(s, i, MonitorNeeds(s.managers[i].monitor.at).value);
    case Caller(t) =>
      assert CallerInv(t, s.callers[t], s.cellHolder, s.managers);
      match s.callers[t]
      case StopQueue(i) => b := Caller(s.managers[i].work.t);
      case ProbeQueue(i) => b := LockHasHolder(s, i, ReadyLock);
      case InProbe(i) => b := LockHasHolder(s, i, ProbeNeeds(s.managers[i].prober.at).value);
      case InStart(i) => b := LockHasHolder(s, i, StartNeeds(s.managers[i].work.startAt).value);
      case InStop(i) =>
        if s.managers[i].work.stopAt.PJoin? {
          b := MonitorOf(i);
        } else {
          b := LockHasHolder(s, i, StopNeeds(s.managers[i].work.stopAt).value);
        }
      case InitEnter => b := Caller(s.cellHolder.value);
      case StopEnter => b := Caller(s.cellHolder.value);
      case ProbeEnter => b := Caller(s.cellHolder.value);
      case _ => b := a;
  }

  lemma WaitsDecrease(s: State, a: Actor, b: Actor)
    requires Inv(s) && Unfinished(s, a) && WaitsFor(s, a, b)
    ensures Unfinished(s, b) && Rank(s, b) < Rank(s, a)
  {
    match a
    case MonitorOf(i) => MonitorWaits(s, i, b);
    case Caller(t) =>
      match s.callers[t]
      case InStart(i) => SectionWaits(s, t, i, b);
      case InStop(i) => SectionWaits(s, t, i, b);
      case _ => CallerWaits(s, t, b);
  }

  /** Each thread of the chain waits for the next. */
  ghost predicate WaitChain(s: State, chain: seq<Actor>) {
    forall k | 0 <= k < |chain| - 1 :: WaitsFor(s, chain[k], chain[k + 1])
  }

  lemma {:induction false} ChainToEnabled(s: State, a: Actor) returns (chain: seq<Actor>)
    requires Inv(s) && Unfinished(s, a)
    ensures |chain| > 0 && chain[0] == a && WaitChain(s, chain)
    ensures Unfinished(s, chain[|chain| - 1]) && Enabled(s, chain[|chain| - 1])
    decreases Rank(s, a)
  {
    if Enabled(s, a) {
      chain := [a];
    } else {
      var b := BlockedWaits(s, a);
      WaitsDecrease(s, a, b);
      var rest := ChainToEnabled(s, b);
      chain := [a] + rest;
    }
  }

  /** In every state of every run: threads never wait in a circle, and whatever an unfinished thread
      waits for, directly or through others, comes down to a thread that can take a step now. */
  lemma DeadlockFree(events: seq<Event>, a: Actor)
    requires IsRun(events) && Unfinished(StateAfter(events).value, a)
    ensures
      var s := StateAfter(events).value;
      && (exists chain: seq<Actor> ::
            && |chain| > 0 && chain[0] == a && WaitChain(s, chain)
            && Unfinished(s, chain[|chain| - 1]) && Enabled(s, chain[|chain| - 1]))
      && (forall b | WaitsFor(s, a, b) :: Unfinished(s, b) && Rank(s, b) < Rank(s, a))
  {
    RunKeepsInv(events);
    var s := StateAfter(events).value;
    var chain := ChainToEnabled(s, a);
    forall b | WaitsFor(s, a, b) ensures Unfinished(s, b) && Rank(s, b) < Rank(s, a) {
      WaitsDecrease(s, a, b);
    }
  }

  /** `start` holds the trace agent's child lock and wants the readiness lock, a readiness probe the other
      way round. */
  predicate Interlocked(m: Manager) {
    && m.work.StartWork? && (m.work.startAt.SSpawnReady? || m.work.startAt.SCommitReady?)
    && m.prober.Prober? && m.prober.at.RPeek?
  }

  /** The state that events lead to from s. */
  ghost function StateFrom(s: State, events: seq<Event>): Option<State> {
    if events == [] then Some(s)
    else
      var before, last := StateFrom(s, events[..|events| - 1]), events[|events| - 1];
      if before.Some? && Allowed(before.value, last) then Some(Apply(before.value, last)) else None
  }

  lemma InterlockBlocks(m: Manager)
    requires Interlocked(m)
    ensures !SectionEnabled(m) && !ProberEnabled(m) && !Free(m, ReadyLock)
  {
  }

  lemma CallersKeepInterlock(s: State, t: Tid, e: Env, i: Mid)
    requires i < |s.managers| && Interlocked(s.managers[i]) && Enabled(s, Caller(t))
    ensures i < |Next(s, Caller(t), e).managers| && Next(s, Caller(t), e).managers[i] == s.managers[i]
  {
    InterlockBlocks(s.managers[i]);
  }

  lemma EventKeepsInterlock(s: State, ev: Event, i: Mid)
    requires i < |s.managers| && Interlocked(s.managers[i]) && Allowed(s, ev)
    ensures i < |Apply(s, ev).managers| && Interlocked(Apply(s, ev).managers[i])
  {
    match ev
    case Arrive(_, _) =>
    case Act(Caller(t), e) => CallersKeepInterlock(s, t, e, i);
    case Act(MonitorOf(k), e) => MonitorFramed(s.managers[k], e);
  }

  /** If the two lock orders ever met on one manager, both threads would be blocked for good, whatever the
      monitor and all other threads do, from any state whatsoever. */
  lemma {:induction false} InterlockIsForGood(s: State, events: seq<Event>, i: Mid)
    requires i < |s.managers| && Interlocked(s.managers[i]) && StateFrom(s, events).Some?
    ensures
      var x := StateFrom(s, events).value;
      && i < |x.managers| && Interlocked(x.managers[i])
      && !SectionEnabled(x.managers[i]) && !ProberEnabled(x.managers[i])
    decreases |events|
  {
    if events != [] {
      var before := events[..|events| - 1];
      InterlockIsForGood(s, before, i);
      EventKeepsInterlock(StateFrom(s, before).value, events[|events| - 1], i);
    }
    InterlockBlocks(StateFrom(s, events).value.managers[i]);
  }

  /** No run gets there: while a thread is inside `start`, no readiness probe is under way on its manager,
      at any point of either. */
  lemma LockInversion(events: seq<Event>, i: Mid)
    requires IsRun(events) && i < |StateAfter(events).value.managers|
    ensures
      var m := StateAfter(events).value.managers[i];
      !Interlocked(m) && (m.work.StartWork? ==> m.prober.NoProber?)
  {
    RunKeepsInv(events);
    var s := StateAfter(events).value;
    if s.managers[i].work.StartWork? {
      StartIsAlone(s, i);
    }
  }

  /** Steps of its own a thread at this point of `start` still needs, at most. */
  function StepsLeft(at: StartPoint): nat {
    match at
    case SSwap => 25
    case SReset(AgentBackoff) => 24
    case SReset(AgentDeadline) => 23
    case SReset(TraceBackoff) => 22
    case SReset(TraceDeadline) => 21
    case SResetReady => 20
    case STake(f, r) =>
      (if r == Agent then 19 else 12) - (if f.ChildField? then 0 else if f.BackoffField? then 1 else 2)
    case SCheck(r) => if r == Agent then 16 else 9
    case SSpawn(r, _) => if r == Agent then 15 else 8
    case SSpawnReady(_, _) => 7
    case SCommit(r, _, _) => if r == Agent then 14 else 6
    case SCommitReady => 5
    case SUnlock(r) => if r == Agent then 13 else 4
    case STakeMonitorThread => 3
    case SStartMonitor => 2
    case SReturn => 1
  }

  lemma StartDescends(m: Manager, e: Env)
    requires BaseInv(m) && m.work.StartWork?
    ensures
      var x := StartStep(m, e);
      if m.work.startAt.SReturn? then x.work.Idle?
      else x.work.StartWork? && StepsLeft(x.work.startAt) < StepsLeft(m.work.startAt)
  {
    var t, at := m.work.t, m.work.startAt;
    if Ticks(at) {
      TicksDescend(m, t, at, e);
    } else if !at.SSwap? && !at.SStartMonitor? && !at.SReturn? {
      MovesDescend(at, m.agentEnabled);
    }
  }

  lemma TicksDescend(m: Manager, t: Tid, at: StartPoint, e: Env)
    requires BaseInv(m) && m.work == StartWork(t, at) && Ticks(at)
    ensures StartTicks(m, t, at, e).work.StartWork? && StepsLeft(StartTicks(m, t, at, e).work.startAt) < StepsLeft(at)
  {
  }

  lemma MovesDescend(at: StartPoint, agentEnabled: bool)
    requires !Ticks(at) && !at.SSwap? && !at.SStartMonitor? && !at.SReturn?
    ensures StepsLeft(NextStart(at, agentEnabled)) < StepsLeft(at)
  {
  }

  /** A thread inside `start` can always step, whatever the other threads are doing, and it returns
      after at most 25 steps of its own. */
  lemma StartIsWaitFree(events: seq<Event>, t: Tid, i: Mid, e: Env)
    requires IsRun(events)
    requires t in StateAfter(events).value.callers && StateAfter(events).value.callers[t] == InStart(i)
    ensures
      var s := StateAfter(events).value;
      && Enabled(s, Caller(t))
      && i < |s.managers| && s.managers[i].work.StartWork?
      && var m, x := s.managers[i], StartStep(s.managers[i], e);
         StepsLeft(m.work.startAt) <= 25 &&
         (x.work.Idle? || (x.work.StartWork? && StepsLeft(x.work.startAt) < StepsLeft(m.work.startAt)))
  {
    RunKeepsInv(events);
    var s := StateAfter(events).value;
    StartEnabled(s, t, i);
    assert ManagerInv(s.managers[i], s.nextPid);
    StartDescends(s.managers[i], e);
  }

  lemma StartEnabled(s: State, t: Tid, i: Mid)
    requires Inv(s) && t in s.callers && s.callers[t] == InStart(i)
    ensures Enabled(s, Caller(t)) && i < |s.managers| && s.managers[i].work.StartWork? && s.managers[i].work.t == t
  {
    assert CallerInv(t, s.callers[t], s.cellHolder, s.managers);
    if !Enabled(s, Caller(t)) {
      var b := BlockedWaits(s, Caller(t));
      WaitsDecrease(s, Caller(t), b);
    }
  }

  /** Steps of its own a thread at this point of `stop` still needs, at most. */
  function StopLeft(at: StopPoint): nat {
    match at
    case PSwap => 13
    case PTakeHandle => 12
    case PJoin => 11
    case PTakeChild(r) => if r == Agent then 10 else 8
    case PKill(r) => if r == Agent then 9 else 7
    case PResetReady => 6
    case PReset(AgentBackoff) => 5
    case PReset(AgentDeadline) => 4
    case PReset(TraceBackoff) => 3
    case PReset(TraceDeadline) => 2
    case PReturn => 1
  }

  function PhaseLeft(phase: Phase, r: RoleName): nat {
    if phase == Commit then (if r == TraceAgent then 6 else 10) else if r == TraceAgent then 19 else 23
  }

  /** Steps of its own the monitor still takes, at most, once `should_run` is clear. */
  function MonitorLeft(at: MonitorPoint): nat {
    match at
    case MTest => 1
    case MWait => 2
    case MPeek(r) => if r == Agent then 4 else 3
    case MResetReady => 5
    case MAct(phase, r) => PhaseLeft(phase, r)
    case MTake(f, phase, r) => PhaseLeft(phase, r) + (if f.DeadlineField? then 1 else if f.BackoffField? then 2 else 3)
    case MSpawnReady => 14
    case MSpawn(r) => if r == Agent then 17 else 15
    case MGate(r) => if r == Agent then 18 else 16
    case _ => 0
  }

  lemma StopDescends(m: Manager)
    requires m.work.StopWork?
    ensures
      var x := StopStep(m);
      x.work.Idle? || (x.work.StopWork? && StopLeft(x.work.stopAt) < StopLeft(m.work.stopAt))
  {
  }

  lemma MonitorDescends(m: Manager, e: Env)
    requires MonitorAlive(m) && !m.run.shouldRun
    ensures !MonitorStep(m, e).run.shouldRun
    ensures MonitorStep(m, e).monitor.at.MExit? || MonitorLeft(MonitorStep(m, e).monitor.at) < MonitorLeft(m.monitor.at)
  {
    MonitorFramed(m, e);
    if m.monitor.at.MAct? {
      ActsDescend(m, e, m.monitor.at.phase, m.monitor.at.role);
    }
  }

  lemma ActsDescend(m: Manager, e: Env, phase: Phase, r: RoleName)
    ensures MonitorLeft(MonitorActs(m, e, phase, r).monitor.at) < PhaseLeft(phase, r)
  {
  }

  /** `stop` comes to an end: once it waits for the monitor, `should_run` is clear, so the monitor exits
      after at most 26 steps of its own, and the thread inside `stop` needs at most 13; whichever of them
      steps comes closer, and whatever keeps them from stepping is resolved (`DeadlockFree`). */
  lemma StopWindsDown(events: seq<Event>, t: Tid, i: Mid, e: Env)
    requires IsRun(events)
    requires t in StateAfter(events).value.callers && StateAfter(events).value.callers[t] == InStop(i)
    ensures
      var s := StateAfter(events).value;
      && i < |s.managers| && s.managers[i].work.StopWork?
      && var m := s.managers[i];
      && StopLeft(m.work.stopAt) <= 13 && MonitorLeft(m.monitor.at) <= 26
      && (var x := StopStep(m); x.work.Idle? || (x.work.StopWork? && StopLeft(x.work.stopAt) < StopLeft(m.work.stopAt)))
      && (!m.work.stopAt.PSwap? ==> !m.run.shouldRun)
      && (!m.work.stopAt.PSwap? && MonitorAlive(m) ==>
            var y := MonitorStep(m, e);
            y.monitor.at.MExit? || MonitorLeft(y.monitor.at) < MonitorLeft(m.monitor.at))
  {
    RunKeepsInv(events);
    var s := StateAfter(events).value;
    assert CallerInv(t, s.callers[t], s.cellHolder, s.managers);
    var m := s.managers[i];
    assert ManagerInv(m, s.nextPid);
    assert ControlHolds(m);
    StopDescends(m);
    if MonitorAlive(m) && !m.run.shouldRun {
      MonitorDescends(m, e);
    }
  }

  // ---- Fates over a run -----------------------------------------------------------------------

  /** From any state of a run to any later one: a process seen exited, forgotten, killed or dropped
      keeps that fate, and a call that has returned stays returned. */
  lemma {:induction false} RunAdvances(events: seq<Event>, n: nat)
    requires IsRun(events) && n <= |events|
    ensures IsRun(events[..n])
    ensures |StateAfter(events[..n]).value.managers| <= |StateAfter(events).value.managers|
    ensures forall i, p |
      && 0 <= i < |StateAfter(events[..n]).value.managers| && p in StateAfter(events[..n]).value.managers[i].fate
      && Final(StateAfter(events[..n]).value.managers[i].fate[p]) ::
      && p in StateAfter(events).value.managers[i].fate
      && StateAfter(events).value.managers[i].fate[p] == StateAfter(events[..n]).value.managers[i].fate[p]
    ensures forall t |
      && t in StateAfter(events[..n]).value.callers
      && StateAfter(events[..n]).value.callers[t].Finished() ::
      && t in StateAfter(events).value.callers
      && StateAfter(events).value.callers[t] == StateAfter(events[..n]).value.callers[t]
    decreases |events|
  {
    if n == |events| {
      assert events[..n] == events;
    } else {
      var before := events[..|events| - 1];
      assert before[..n] == events[..n];
      RunAdvances(before, n);
      RunKeepsInv(before);
      EventIsGood(StateAfter(before).value, events[|events| - 1]);
    }
  }

  /** `stop` signals only a process that was never seen to exit: the child it takes is in its slot. */
  lemma KilledWasLive(events: seq<Event>, t: Tid, i: Mid, r: RoleName, p: Pid)
    requires IsRun(events) && i < |StateAfter(events).value.managers|
    requires
      var m := StateAfter(events).value.managers[i];
      m.work == StopWork(t, PKill(r)) && m.SeatOf(r).role.child == Some(p)
    ensures
      var s := StateAfter(events).value;
      && p in s.managers[i].fate && s.managers[i].fate[p] == InSlot
      && (forall j | 0 <= j < |s.managers| && j != i :: p !in s.managers[j].fate)
      && StopStep(s.managers[i]).fate == s.managers[i].fate[p := Killed]
    ensures
      forall n | 0 <= n <= |events| && IsRun(events[..n]) && i < |StateAfter(events[..n]).value.managers| ::
        var m := StateAfter(events[..n]).value.managers[i];
        p in m.fate ==> m.fate[p] == InSlot || m.fate[p] == InFlight
  {
    RunKeepsInv(events);
    var s := StateAfter(events).value;
    assert ManagerInv(s.managers[i], s.nextPid);
    forall n | 0 <= n <= |events| && IsRun(events[..n]) && i < |StateAfter(events[..n]).value.managers|
      ensures
        var m := StateAfter(events[..n]).value.managers[i];
        p in m.fate ==> m.fate[p] == InSlot || m.fate[p] == InFlight
    {
      RunAdvances(events, n);
    }
  }

  // ---- One live manager -----------------------------------------------------------------------

  /** Sums over all managers, with the role-specific ones for role r. */
  datatype Totals = Totals(
    starts: nat,
    stops: nat,
    running: nat,
    spawns: nat,
    failedSpawns: nat,
    failures: nat,
    taken: nat,
    filled: nat)

  function TotalsOf(ms: seq<Manager>, r: RoleName): Totals {
    if ms == [] then Totals(0, 0, 0, 0, 0, 0, 0, 0)
    else
      var before, m := TotalsOf(ms[..|ms| - 1], r), ms[|ms| - 1];
      Totals(
        before.starts + m.run.starts,
        before.stops + m.run.stops,
        before.running + (if m.run.shouldRun then 1 else 0),
        before.spawns + m.SeatOf(r).role.spawns,
        before.failedSpawns + m.SeatOf(r).failedSpawns,
        before.failures + m.SeatOf(r).role.failures,
        before.taken + m.SeatOf(r).taken,
        before.filled + (if m.SeatOf(r).role.child.Some? then 1 else 0))
  }

  lemma {:induction false} TotalsBalance(ms: seq<Manager>, r: RoleName)
    requires forall i | 0 <= i < |ms| :: BaseInv(ms[i])
    requires forall i, j | 0 <= i < j < |ms| :: !(ms[i].run.shouldRun && ms[j].run.shouldRun)
    ensures
      var t := TotalsOf(ms, r);
      && t.starts == t.stops + t.running
      && t.running <= 1
      && (t.running == 1 ==> exists i | 0 <= i < |ms| :: ms[i].run.shouldRun)
      && t.spawns + t.failedSpawns == t.failures + t.taken + t.filled
  {
    if ms != [] {
      var before, last := ms[..|ms| - 1], ms[|ms| - 1];
      TotalsBalance(before, r);
      assert BaseInv(last);
      assert SeatHolds(last, r);
    }
  }

  /** Only the manager in the cell can have `should_run` set; a manager is started at most once and
      stopped at most once; over all managers, effective starts exceed effective stops by the number
      of running managers, which is at most one. So initialize calls with no stop perform one start. */
  lemma OneLiveManager(events: seq<Event>)
    requires IsRun(events)
    ensures
      var s := StateAfter(events).value;
      var totals := TotalsOf(s.managers, Agent);
      && (forall i | 0 <= i < |s.managers| && s.managers[i].run.shouldRun :: s.cell == Some(i))
      && (forall i | 0 <= i < |s.managers| :: s.managers[i].run.stops <= s.managers[i].run.starts <= 1)
      && totals.stops <= totals.starts <= totals.stops + 1
  {
    RunKeepsInv(events);
    var s := StateAfter(events).value;
    forall i | 0 <= i < |s.managers|
      ensures BaseInv(s.managers[i]) && (s.managers[i].run.shouldRun ==> s.cell == Some(i))
      ensures s.managers[i].run.stops <= s.managers[i].run.starts <= 1
    {
      assert ManagerInv(s.managers[i], s.nextPid);
      assert OwnersInv(i, s.managers[i], s.cell, s.callers);
    }
    TotalsBalance(s.managers, Agent);
  }

  /** Per role, over all managers: spawns recorded = failures recorded - failed spawns + children that
      `stop` took + slots that are filled. */
  lemma SpawnsAreAccountedFor(events: seq<Event>, r: RoleName)
    requires IsRun(events)
    ensures
      var t := TotalsOf(StateAfter(events).value.managers, r);
      t.spawns == (t.failures - t.failedSpawns) + t.taken + t.filled
  {
    RunKeepsInv(events);
    var s := StateAfter(events).value;
    forall i | 0 <= i < |s.managers|
      ensures BaseInv(s.managers[i]) && (s.managers[i].run.shouldRun ==> s.cell == Some(i))
    {
      assert ManagerInv(s.managers[i], s.nextPid);
      assert OwnersInv(i, s.managers[i], s.cell, s.callers);
    }
    TotalsBalance(s.managers, r);
  }

  /** When `initialize` returns, the manager in the cell is running. */
  lemma InitializeReturnsRunning(events: seq<Event>, t: Tid, e: Env)
    requires IsRun(events)
    requires
      var s := StateAfter(events).value;
      && Allowed(s, Act(Caller(t), e)) && s.callers[t].HoldsCell()
      && Apply(s, Act(Caller(t), e)).callers[t].InitDone?
    ensures
      var x := Apply(StateAfter(events).value, Act(Caller(t), e));
      && x.cell.Some? && x.cell.value < |x.managers| && x.managers[x.cell.value].run.shouldRun
      && x.cellHolder.None?
  {
    RunKeepsInv(events);
    var s := StateAfter(events).value;
    assert CallerInv(t, s.callers[t], s.cellHolder, s.managers);
    match s.callers[t] {
      case InStart(i) =>
        assert ManagerInv(s.managers[i], s.nextPid);
        StartReturnsRunning(s.managers[i], e);
      case _ =>
    }
  }

  lemma StartReturnsRunning(m: Manager, e: Env)
    requires BaseInv(m) && m.work.StartWork?
    ensures StartStep(m, e).work.Idle? ==> StartStep(m, e).run.shouldRun
  {
  }

  /** After `stop` clears `should_run` at most one spawn begins in its manager. */
  lemma AtMostOneLateSpawn(events: seq<Event>, i: Mid)
    requires IsRun(events) && i < |StateAfter(events).value.managers|
    ensures StateAfter(events).value.managers[i].run.late <= 1
  {
    RunKeepsInv(events);
    assert ManagerInv(StateAfter(events).value.managers[i], StateAfter(events).value.nextPid);
  }

  /** A spawn result is committed only into an empty slot. */
  lemma CommitFillsEmptySlot(events: seq<Event>, i: Mid, r: RoleName)
    requires IsRun(events) && i < |StateAfter(events).value.managers|
    ensures
      var m := StateAfter(events).value.managers[i];
      m.monitor.Res(r).Some? || (m.work.StartWork? && m.work.startAt.SCommit? && m.work.startAt.role == r) ==>
        m.SeatOf(r).role.child.None?
  {
    RunKeepsInv(events);
    var m := StateAfter(events).value.managers[i];
    assert ManagerInv(m, StateAfter(events).value.nextPid);
    assert SeatHolds(m, r);
  }
}
