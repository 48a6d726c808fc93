/** The rounds of the monitor over whole runs (`src/monitor.rs:428-552`): none of their stations is left
    out. */
module MonitorRounds {
  import opened Options
  import opened Supervision
  import opened ManagerSteps
  import opened Lifecycle
  import opened LifecycleTheorems

  /** How often the monitor of manager i took the step at this point. */
  ghost function Passes(events: seq<Event>, i: Mid, at: MonitorPoint): nat {
    if events == [] then 0
    else
      var before, last := events[..|events| - 1], events[|events| - 1];
      var s := StateAfter(before);
      Passes(before, i, at)
      + if s.Some? && i < |s.value.managers| && last.Act? && last.a == MonitorOf(i)
           && s.value.managers[i].monitor.at == at then 1 else 0
  }

  function Place(f: Field): nat {
    if f.ChildField? then 0 else if f.BackoffField? then 1 else 2
  }

  /** The points every full round goes through, in their order: each role's three locks and its check,
      the two gates, each role's locks and its commit, the look at each role's deadline, the wait. */
  function Order(at: MonitorPoint): nat {
    match at
    case MTake(f, Check, r) => (if r == Agent then 1 else 5) + Place(f)
    case MAct(Check, r) => if r == Agent then 4 else 8
    case MGate(r) => if r == Agent then 9 else 11
    case MSpawn(r) => if r == Agent then 10 else 12
    case MSpawnReady => 13
    case MTake(f, Commit, r) => (if r == Agent then 14 else 18) + Place(f)
    case MAct(Commit, r) => if r == Agent then 17 else 21
    case MResetReady => 22
    case MPeek(r) => if r == Agent then 23 else 24
    case MWait => 25
    case _ => 0
  }

  predicate Station(at: MonitorPoint) {
    at.MTake? || at.MAct? || at.MGate? || at.MPeek? || at.MWait?
  }

  /** In the present round the monitor is past this station. */
  predicate Past(at: MonitorPoint, station: MonitorPoint) {
    Order(at) > Order(station)
  }

  /** Where a step of the monitor can lead. */
  predicate Leads(at: MonitorPoint, x: MonitorPoint) {
    match at
    case MTest => x == MTake(ChildField, Check, Agent)
    case MAct(Check, r) => x == if r == Agent then MTake(ChildField, Check, TraceAgent) else MGate(Agent)
    case MGate(r) => x == MSpawn(r) || x == if r == Agent then MGate(TraceAgent) else MTake(ChildField, Commit, Agent)
    case MSpawn(r) =>
      if r == Agent then x == MGate(TraceAgent) else x == MSpawnReady || x == MTake(ChildField, Commit, Agent)
    case MAct(Commit, r) =>
      if r == Agent then x == MTake(ChildField, Commit, TraceAgent) else x == MResetReady || x == MPeek(Agent)
    case _ => x == NextPoint(at)
  }

  lemma MonitorLeads(m: Manager, e: Env)
    requires MonitorAlive(m)
    ensures MonitorStep(m, e).monitor.at.MExit? || Leads(m.monitor.at, MonitorStep(m, e).monitor.at)
  {
    if m.monitor.at.MAct? {
      ActLeads(m, e, m.monitor.at.phase, m.monitor.at.role);
    }
  }

  lemma ActLeads(m: Manager, e: Env, phase: Phase, r: RoleName)
    requires m.monitor.at == MAct(phase, r)
    ensures Leads(MAct(phase, r), MonitorActs(m, e, phase, r).monitor.at)
  {
  }

  /** A step to another point passes the station it leaves, and no other. */
  lemma NoStationIsSkipped(at: MonitorPoint, x: MonitorPoint, station: MonitorPoint)
    requires Leads(at, x) && !at.MAbsent? && !at.MExit? && Station(station) && station != MWait
    ensures at.MWait? ==> Past(at, station) && !Past(x, station)
    ensures !at.MWait? ==> (Past(x, station) <==> Past(at, station) || at == station)
  {
    match at
    case MTake(f, phase, r) => OrderOfTakes(f, phase, r, station);
    case _ => OrderIsStrict(at, station);
  }

  lemma OrderIsStrict(at: MonitorPoint, station: MonitorPoint)
    requires Station(station)
    ensures Order(at) == Order(station) ==> at == station
  {
  }

  lemma OrderOfTakes(f: Field, phase: Phase, r: RoleName, station: MonitorPoint)
    requires Station(station)
    ensures Order(NextPoint(MTake(f, phase, r))) == Order(MTake(f, phase, r)) + 1
    ensures Order(MTake(f, phase, r)) == Order(station) ==> MTake(f, phase, r) == station
  {
  }

  lemma CallerKeepsMonitor(m: Manager, i: Mid, t: Tid, pc: Pc, e: Env)
    requires BaseInv(m)
    ensures
      var x := CallerOn(m, i, t, pc, e);
      x.monitor.at == m.monitor.at || (m.monitor.at.MAbsent? && x.monitor.at.MTest?)
  {
    match pc
    case InStart(k) => if k == i && m.work.StartWork? { StartKeepsMonitor(m, e); }
    case InStop(k) => if k == i && m.work.StopWork? { StopFramed(m); }
    case InProbe(k) => if k == i && m.prober.Prober? { ProbeFramed(m, e); }
    case _ =>
  }

  lemma StartKeepsMonitor(m: Manager, e: Env)
    requires BaseInv(m) && m.work.StartWork?
    ensures
      var x := StartStep(m, e);
      x.monitor.at == m.monitor.at || (m.monitor.at.MAbsent? && x.monitor.at.MTest?)
  {
  }

  ghost predicate RoundsFull(events: seq<Event>, i: Mid, m: Manager, station: MonitorPoint) {
    !m.monitor.at.MExit? ==>
      Passes(events, i, station) == Passes(events, i, MWait) + if Past(m.monitor.at, station) then 1 else 0
  }

  lemma PassesAdd(events: seq<Event>, ev: Event, i: Mid, at: MonitorPoint)
    requires IsRun(events) && i < |StateAfter(events).value.managers|
    ensures Passes(events + [ev], i, at) ==
              Passes(events, i, at)
              + if ev.Act? && ev.a == MonitorOf(i) && StateAfter(events).value.managers[i].monitor.at == at
                then 1 else 0
  {
    assert (events + [ev])[..|events|] == events;
  }

  lemma StateAdds(events: seq<Event>, ev: Event)
    requires IsRun(events)
    ensures IsRun(events + [ev]) ==>
              Allowed(StateAfter(events).value, ev)
              && StateAfter(events + [ev]) == Some(Apply(StateAfter(events).value, ev))
  {
    assert (events + [ev])[..|events|] == events;
  }

  /** What an event does to the point of monitor i. */
  lemma PointAfterEvent(s: State, ev: Event, i: Mid)
    requires Inv(s) && Allowed(s, ev) && i < |s.managers|
    ensures i < |Apply(s, ev).managers|
    ensures
      var at, x := s.managers[i].monitor.at, Apply(s, ev).managers[i].monitor.at;
      if ev.Act? && ev.a == MonitorOf(i) then !at.MAbsent? && !at.MExit? && (x.MExit? || Leads(at, x))
      else x == at || (at.MAbsent? && x.MTest?)
  {
    var m := s.managers[i];
    assert ManagerInv(m, s.nextPid);
    match ev
    case Arrive(_, _) =>
    case Act(Caller(t), e) =>
      CallerStepOn(s, t, e, i);
      CallerKeepsMonitor(m, i, t, s.callers[t], e);
    case Act(MonitorOf(j), e) => if j == i { MonitorLeads(m, e); }
  }

  lemma EventKeepsRounds(events: seq<Event>, ev: Event, i: Mid, station: MonitorPoint)
    requires IsRun(events) && IsRun(events + [ev]) && i < |StateAfter(events).value.managers|
    requires Station(station) && station != MWait
    requires RoundsFull(events, i, StateAfter(events).value.managers[i], station)
    ensures i < |StateAfter(events + [ev]).value.managers|
    ensures RoundsFull(events + [ev], i, StateAfter(events + [ev]).value.managers[i], station)
  {
    var s := StateAfter(events).value;
    RunKeepsInv(events);
    StateAdds(events, ev);
    PassesAdd(events, ev, i, station);
    PassesAdd(events, ev, i, MWait);
    PointAfterEvent(s, ev, i);
    var at, x := s.managers[i].monitor.at, Apply(s, ev).managers[i].monitor.at;
    if ev.Act? && ev.a == MonitorOf(i) && !x.MExit? {
      NoStationIsSkipped(at, x, station);
    }
  }

  /** In every run, while a monitor has not left its loop: each station was passed once in every full round,
      and once more if the present round is past it. So every round checks each configured role, commits
      what was spawned, and looks at both deadlines before it waits. */
  lemma {:induction false} EveryRoundIsFull(events: seq<Event>, i: Mid, station: MonitorPoint)
    requires IsRun(events) && i < |StateAfter(events).value.managers|
    requires Station(station) && station != MWait
    ensures
      var at := StateAfter(events).value.managers[i].monitor.at;
      !at.MExit? ==>
        Passes(events, i, station) == Passes(events, i, MWait) + if Past(at, station) then 1 else 0
    decreases |events|
  {
    var before, last := events[..|events| - 1], events[|events| - 1];
    assert events == before + [last];
    var s := StateAfter(before).value;
    if i < |s.managers| {
      EveryRoundIsFull(before, i, station);
      EventKeepsRounds(before, last, i, station);
    } else {
      var agentEnabled := NewManagerIsFresh(s, last, i);
      NoPassesYet(before, i, station);
      NoPassesYet(before, i, MWait);
    }
  }

  lemma {:induction false} NoPassesYet(events: seq<Event>, i: Mid, at: MonitorPoint)
    requires IsRun(events) && i >= |StateAfter(events).value.managers|
    ensures Passes(events, i, at) == 0
    decreases |events|
  {
    if events != [] {
      var before := events[..|events| - 1];
      RunAdvances(events, |events| - 1);
      NoPassesYet(before, i, at);
    }
  }
}
