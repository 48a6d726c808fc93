/** "Nothing spawned outlives stop" is false: there is a run in which `stop` returns while an agent
    that its monitor dropped was neither seen to exit nor killed. */
module LifecycleCounterexample {
  import opened Options
  import opened Supervision
  import opened ManagerSteps
  import opened Lifecycle
  import opened LifecycleTheorems

  ghost predicate Reachable(s: State) {
    exists events :: StateAfter(events) == Some(s)
  }

  lemma Step(s: State, ev: Event) returns (x: State)
    requires Reachable(s) && Allowed(s, ev)
    ensures x == Apply(s, ev) && Reachable(x)
  {
    var events :| StateAfter(events) == Some(s);
    x := Apply(s, ev);
    var longer := events + [ev];
    assert longer[..|longer| - 1] == events;
    assert StateAfter(longer) == Some(x);
  }

  lemma ReachableInv(s: State)
    requires Reachable(s)
    ensures Inv(s)
  {
    var events :| StateAfter(events) == Some(s);
    RunKeepsInv(events);
  }

  // ---- The run: `initialize`, one round of the monitor up to its second look, `stop` -----------

  /** Both endpoints are in use, so `start` spawns nothing. */
  const BUSY := Env(Probe(Running, 0, true), SpawnFailed, 0, false, true)

  /** Neither endpoint is in use, and spawns succeed. */
  function Spawning(pid: Pid): Env {
    Env(Probe(Running, 0, false), Spawned(pid), 0, false, true)
  }

  predicate Childless(m: Manager) {
    && m.agentEnabled && m.prober.NoProber?
    && m.agent.role.child.None? && m.agent.role.nextAttempt.None?
    && m.trace.role.child.None? && m.trace.role.nextAttempt.None?
  }

  predicate StartStage(m: Manager) {
    && Childless(m) && m.work.StartWork?
    && m.monitor == (if m.work.startAt.SReturn? then NO_MONITOR.(at := MTest) else NO_MONITOR)
    && !m.work.startAt.SSpawn? && !m.work.startAt.SSpawnReady? && !m.work.startAt.SCommit?
    && !m.work.startAt.SCommitReady?
  }

  lemma StartStageStep(m: Manager)
    requires BaseInv(m) && StartStage(m)
    ensures
      var x := StartStep(m, BUSY);
      if x.work.Idle? then Childless(x) && x.monitor == NO_MONITOR.(at := MTest) && x.run.shouldRun else StartStage(x)
  {
  }

  /** The thread inside `start` runs on its own until it returns. */
  lemma {:induction false} RunStart(s: State, t: Tid, i: Mid) returns (x: State)
    requires Reachable(s) && i < |s.managers| && s.callers == map[t := InStart(i)] && StartStage(s.managers[i])
    ensures Reachable(x) && x.callers == map[t := InitDone] && x.cell == Some(i) && x.cellHolder.None?
    ensures |x.managers| == |s.managers| && MonitorStage(x.managers[i]) && x.managers[i].monitor.at == MTest
    decreases StepsLeft(s.managers[i].work.startAt)
  {
    ReachableInv(s);
    StartEnabled(s, t, i);
    assert ManagerInv(s.managers[i], s.nextPid);
    assert CallerInv(t, s.callers[t], s.cellHolder, s.managers);
    StartStageStep(s.managers[i]);
    StartDescends(s.managers[i], BUSY);
    x := Step(s, Act(Caller(t), BUSY));
    if x.callers[t] == InStart(i) {
      x := RunStart(x, t, i);
    }
  }

  /** The monitor's round, from the loop test to its second look at `should_run`. */
  predicate MonitorStage(m: Manager) {
    && Childless(m) && m.work.Idle? && m.run.shouldRun
    && match m.monitor.at
       case MTest => m.monitor == NO_MONITOR.(at := MTest)
       case MTake(_, Check, Agent) => m.monitor == NO_MONITOR.(at := m.monitor.at)
       case MAct(Check, Agent) => m.monitor == NO_MONITOR.(at := m.monitor.at)
       case MTake(_, Check, TraceAgent) => m.monitor == NO_MONITOR.(at := m.monitor.at, agentGo := true)
       case MAct(Check, TraceAgent) => m.monitor == NO_MONITOR.(at := m.monitor.at, agentGo := true)
       case MGate(Agent) => m.monitor == NO_MONITOR.(at := m.monitor.at, agentGo := true, traceGo := true)
       case MSpawn(Agent) => m.monitor == NO_MONITOR.(at := m.monitor.at, agentGo := true, traceGo := true)
       case MGate(TraceAgent) => m.monitor.traceGo && PidOf(m.monitor.agentRes).Some?
       case _ => false
  }

  function RoundLeft(at: MonitorPoint): nat {
    match at
    case MTest => 11
    case MTake(f, _, r) =>
      (if r == Agent then 10 else 6) - (if f.ChildField? then 0 else if f.BackoffField? then 1 else 2)
    case MAct(_, r) => if r == Agent then 7 else 3
    case MGate(r) => if r == Agent then 2 else 0
    case MSpawn(_) => 1
    case _ => 0
  }

  lemma MonitorStageStep(m: Manager, pid: Pid)
    requires MonitorStage(m) && m.monitor.at != MGate(TraceAgent)
    ensures
      var x := MonitorStep(m, Spawning(pid));
      MonitorEnabled(m) && MonitorStage(x) && RoundLeft(x.monitor.at) < RoundLeft(m.monitor.at)
  {
  }

  lemma {:induction false} RunMonitor(s: State, i: Mid) returns (x: State)
    requires Reachable(s) && i < |s.managers| && MonitorStage(s.managers[i])
    ensures Reachable(x) && x.callers == s.callers && x.cell == s.cell && x.cellHolder == s.cellHolder
    ensures |x.managers| == |s.managers| && MonitorStage(x.managers[i]) && x.managers[i].monitor.at == MGate(TraceAgent)
    decreases RoundLeft(s.managers[i].monitor.at)
  {
    if s.managers[i].monitor.at == MGate(TraceAgent) {
      x := s;
    } else {
      MonitorStageStep(s.managers[i], s.nextPid);
      var y := Step(s, Act(MonitorOf(i), Spawning(s.nextPid)));
      x := RunMonitor(y, i);
    }
  }

  lemma RunInitialize() returns (s: State)
    ensures Reachable(s) && s.callers == map[0 := InStart(1)] && |s.managers| == 2 && StartStage(s.managers[1])
  {
    assert StateAfter([]) == Some(INITIAL);
    s := Step(INITIAL, Arrive(0, InitEnter));
    s := Step(s, Act(Caller(0), BUSY));
    s := Step(s, Act(Caller(0), BUSY));
    s := Step(s, Act(Caller(0), BUSY));
  }

  lemma RunStop(s: State, i: Mid) returns (x: State)
    requires Reachable(s) && s.callers == map[0 := InitDone] && s.cell == Some(i) && s.cellHolder.None?
    requires i < |s.managers| && MonitorStage(s.managers[i]) && s.managers[i].monitor.at == MGate(TraceAgent)
    ensures Reachable(x) && i < |x.managers| && LosesAgent(x.managers[i]) && Enabled(x, MonitorOf(i))
    ensures x.callers == map[0 := InitDone, 1 := InStop(i)]
    ensures x.managers[i].work.StopWork? && x.managers[i].prober.NoProber?
  {
    x := Step(s, Arrive(1, StopEnter));
    x := Step(x, Act(Caller(1), BUSY));
    x := Step(x, Act(Caller(1), BUSY));
    x := Step(x, Act(Caller(1), BUSY));
  }

  predicate StopStage(m: Manager) {
    m.work.StopWork? && m.prober.NoProber? && !MonitorAlive(m)
  }

  lemma StopStageStep(m: Manager)
    requires StopStage(m)
    ensures
      var x := StopStep(m);
      SectionEnabled(m) && (x.work.Idle? || (StopStage(x) && StopLeft(x.work.stopAt) < StopLeft(m.work.stopAt)))
  {
  }

  /** With the monitor gone, the thread inside `stop` runs on its own until it returns. */
  lemma {:induction false} RunStopOut(s: State, t: Tid, i: Mid, p: Pid) returns (x: State)
    requires Reachable(s) && i < |s.managers| && StopStage(s.managers[i])
    requires t in s.callers && s.callers[t] == InStop(i)
    requires p in s.managers[i].fate && s.managers[i].fate[p] == Dropped
    ensures Reachable(x) && i < |x.managers| && t in x.callers && x.callers[t] == StopDone(Some(i))
    ensures p in x.managers[i].fate && x.managers[i].fate[p] == Dropped
    decreases StopLeft(s.managers[i].work.stopAt)
  {
    ReachableInv(s);
    StopStageStep(s.managers[i]);
    EventIsGood(s, Act(Caller(t), BUSY));
    x := Step(s, Act(Caller(t), BUSY));
    if x.callers[t] == InStop(i) {
      x := RunStopOut(x, t, i, p);
    }
  }

  /** In some run `stop` has returned and one of its manager's processes is dropped: not seen exited,
      not killed, in no slot. */
  lemma SomeRunDropsAnAgent()
    ensures exists events: seq<Event>, t: Tid, i: Mid, p: Pid ::
      && IsRun(events)
      && t in StateAfter(events).value.callers && StateAfter(events).value.callers[t] == StopDone(Some(i))
      && i < |StateAfter(events).value.managers|
      && p in StateAfter(events).value.managers[i].fate && StateAfter(events).value.managers[i].fate[p] == Dropped
  {
    var s := RunInitialize();
    s := RunStart(s, 0, 1);
    s := RunMonitor(s, 1);
    s := RunStop(s, 1);
    var p := PidOf(s.managers[1].monitor.agentRes).value;
    s := Step(s, Act(MonitorOf(1), BUSY));
    s := RunStopOut(s, 1, 1, p);
    var events :| StateAfter(events) == Some(s);
  }
}
