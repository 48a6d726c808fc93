/** The lock discipline in every run: no two threads hold a lock at once, a thread comes to hold one only by
    finding it free, and nothing a lock guards changes except by a step of a thread that holds it or takes
    it for that step (`src/manager.rs:56-89, 236-302, 396-553`, `src/monitor.rs:80-152, 428-552`). */
module LockTheorems {
  import opened Options
  import opened Supervision
  import opened ManagerSteps
  import opened Lifecycle
  import opened LifecycleTheorems

  /** What the lock guards is not the same in the two states. */
  predicate Differs(m: Manager, x: Manager, l: Lock) {
    match l
    case MonitorThread => m.run.handle != x.run.handle
    case RoleLock(ChildField, r) => m.SeatOf(r).role.child != x.SeatOf(r).role.child
    case RoleLock(BackoffField, r) => m.SeatOf(r).role.backoffSecs != x.SeatOf(r).role.backoffSecs
    case RoleLock(DeadlineField, r) => m.SeatOf(r).role.nextAttempt != x.SeatOf(r).role.nextAttempt
    case ReadyLock => m.ready != x.ready
  }

  /** The lock of manager i the next step of a takes, if any. */
  function Takes(s: State, a: Actor, i: Mid): Option<Lock>
    requires Enabled(s, a) && i < |s.managers|
  {
    match a
    case MonitorOf(k) => if k == i then MonitorNeeds(s.managers[i].monitor.at) else None
    case Caller(t) =>
      match s.callers[t]
      case InStart(k) => if k == i then StartNeeds(s.managers[i].work.startAt) else None
      case InStop(k) => if k == i then StopNeeds(s.managers[i].work.stopAt) else None
      case InProbe(k) => if k == i then ProbeNeeds(s.managers[i].prober.at) else None
      case ProbeQueue(k) => if k == i then Some(ReadyLock) else None
      case _ => None
  }

  /** Before this step of a, a has the lock, or it is free and the step takes it. */
  predicate MayTouch(s: State, a: Actor, i: Mid, l: Lock)
    requires Enabled(s, a) && i < |s.managers|
  {
    HeldBy(s, i, l, a) || (Takes(s, a, i) == Some(l) && Free(s.managers[i], l))
  }

  lemma OneHolder(s: State, i: Mid, l: Lock, b: Actor, c: Actor)
    requires Inv(s) && i < |s.managers| && HeldBy(s, i, l, b) && HeldBy(s, i, l, c)
    ensures b == c
  {
    var m := s.managers[i];
    assert ManagerInv(m, s.nextPid);
    assert ControlInv(m.work, m.run, m.monitor.at);
    if m.work.StartWork? {
      StartIsAlone(s, i);
    }
  }

  // ---- What the steps of one manager touch ----------------------------------------------------

  lemma StartTouches(m: Manager, e: Env, l: Lock)
    requires BaseInv(m) && m.work.StartWork? && SectionEnabled(m)
    ensures
      var x := StartStep(m, e);
      Differs(m, x, l) || (x.work.StartWork? && StartHolds(x.work.startAt, l)) ==>
        StartHolds(m.work.startAt, l) || (StartNeeds(m.work.startAt) == Some(l) && Free(m, l))
  {
    var t, at := m.work.t, m.work.startAt;
    if Ticks(at) {
      TicksTouch(m, t, at, e, l);
    } else if !at.SSwap? && !at.SStartMonitor? && !at.SReturn? {
      MovesTouch(m, t, at, l);
    }
  }

  lemma MovesTouch(m: Manager, t: Tid, at: StartPoint, l: Lock)
    requires !Ticks(at) && !at.SSwap? && !at.SStartMonitor? && !at.SReturn? && Grants(m, StartNeeds(at))
    ensures
      Differs(m, StartMoves(m, t, at), l) || StartHolds(NextStart(at, m.agentEnabled), l) ==>
        StartHolds(at, l) || (StartNeeds(at) == Some(l) && Free(m, l))
  {
  }

  lemma TicksTouch(m: Manager, t: Tid, at: StartPoint, e: Env, l: Lock)
    requires Ticks(at) && Grants(m, StartNeeds(at))
    ensures
      var x := StartTicks(m, t, at, e);
      Differs(m, x, l) || (x.work.StartWork? && StartHolds(x.work.startAt, l)) ==>
        StartHolds(at, l) || (StartNeeds(at) == Some(l) && Free(m, l))
  {
  }

  lemma StopTouches(m: Manager, l: Lock)
    requires m.work.StopWork? && SectionEnabled(m)
    ensures
      Differs(m, StopStep(m), l) || (StopStep(m).work.StopWork? && StopHolds(StopStep(m).work.stopAt, l)) ==>
        StopHolds(m.work.stopAt, l) || (StopNeeds(m.work.stopAt) == Some(l) && Free(m, l))
  {
    var at := m.work.stopAt;
    if !at.PSwap? && !at.PTakeHandle? && !at.PJoin? && !at.PReturn? {
      StopMovesTouch(m, m.work.t, at, l);
    }
  }

  lemma StopMovesTouch(m: Manager, t: Tid, at: StopPoint, l: Lock)
    requires at.PTakeChild? || at.PKill? || at.PResetReady? || at.PReset?
    requires Grants(m, StopNeeds(at))
    ensures
      Differs(m, StopMoves(m, t, at), l) || StopHolds(NextStop(at), l) ==>
        StopHolds(at, l) || (StopNeeds(at) == Some(l) && Free(m, l))
  {
  }

  lemma MonitorTouches(m: Manager, e: Env, l: Lock)
    requires MonitorEnabled(m)
    ensures
      Differs(m, MonitorStep(m, e), l) || MonitorHolds(MonitorStep(m, e).monitor.at, l) ==>
        MonitorHolds(m.monitor.at, l) || (MonitorNeeds(m.monitor.at) == Some(l) && Free(m, l))
  {
    if m.monitor.at.MAct? {
      ActsTouch(m, e, m.monitor.at.phase, m.monitor.at.role, l);
    } else if !m.monitor.at.MTest? && !m.monitor.at.MGate? && !m.monitor.at.MSpawn? {
      MonitorMovesTouch(m, l);
    }
  }

  lemma MonitorMovesTouch(m: Manager, l: Lock)
    requires MonitorEnabled(m) && !m.monitor.at.MTest? && !m.monitor.at.MGate? && !m.monitor.at.MSpawn?
    requires !m.monitor.at.MAct?
    ensures
      Differs(m, MonitorMoves(m), l) || MonitorHolds(MonitorMoves(m).monitor.at, l) ==>
        MonitorHolds(m.monitor.at, l) || (MonitorNeeds(m.monitor.at) == Some(l) && Free(m, l))
  {
  }

  lemma ActsTouch(m: Manager, e: Env, phase: Phase, r: RoleName, l: Lock)
    ensures Differs(m, MonitorActs(m, e, phase, r), l) ==> OfRole(l, r)
    ensures !MonitorHolds(MonitorActs(m, e, phase, r).monitor.at, l)
  {
  }

  // ---- Whole runs -----------------------------------------------------------------------------

  /** The step changed what the lock guards, or t has the lock after it. */
  predicate Touches(m: Manager, x: Manager, t: Tid, l: Lock) {
    || Differs(m, x, l)
    || (SectionHolds(x.work, l) && !x.work.Idle? && x.work.t == t)
    || (ProberHolds(x.prober, l) && x.prober.t == t)
  }

  lemma CallerTouches(s: State, t: Tid, e: Env, i: Mid, l: Lock)
    requires Inv(s) && Enabled(s, Caller(t)) && i < |s.managers|
    requires Touches(s.managers[i], CallerOn(s.managers[i], i, t, s.callers[t], e), t, l)
    ensures MayTouch(s, Caller(t), i, l)
  {
    var m := s.managers[i];
    assert OwnersInv(i, m, s.cell, s.callers);
    assert CallerInv(t, s.callers[t], s.cellHolder, s.managers);
    if s.callers[t] in {InStart(i), InStop(i)} {
      SectionTouches(s, t, e, i, l);
    } else {
      OthersTouch(s, t, e, i, l);
    }
  }

  lemma OthersTouch(s: State, t: Tid, e: Env, i: Mid, l: Lock)
    requires Enabled(s, Caller(t)) && i < |s.managers| && s.callers[t] !in {InStart(i), InStop(i)}
    requires OwnersInv(i, s.managers[i], s.cell, s.callers)
    requires CallerInv(t, s.callers[t], s.cellHolder, s.managers)
    requires Touches(s.managers[i], CallerOn(s.managers[i], i, t, s.callers[t], e), t, l)
    ensures MayTouch(s, Caller(t), i, l)
  {
    if s.callers[t] == InProbe(i) {
      ProbeFramed(s.managers[i], e);
    }
  }

  lemma SectionTouches(s: State, t: Tid, e: Env, i: Mid, l: Lock)
    requires Enabled(s, Caller(t)) && i < |s.managers| && BaseInv(s.managers[i])
    requires s.callers[t] in {InStart(i), InStop(i)} && s.managers[i].work.t == t
    requires s.managers[i].prober.Prober? ==> s.managers[i].prober.t != t
    requires Touches(s.managers[i], CallerOn(s.managers[i], i, t, s.callers[t], e), t, l)
    ensures MayTouch(s, Caller(t), i, l)
  {
    var m := s.managers[i];
    if s.callers[t] == InStart(i) {
      StartTouches(m, e, l);
      StartFramed(m, e);
    } else {
      StopTouches(m, l);
      StopFramed(m);
    }
  }

  /** In every run, for every step: what a lock guards changes only if the thread has the lock, or takes it
      free for this step; a thread that has a lock afterwards had it, or took it free; and no two threads
      have the same lock. */
  lemma LocksAreRespected(events: seq<Event>, a: Actor, e: Env, i: Mid, l: Lock)
    requires IsRun(events) && Enabled(StateAfter(events).value, a) && i < |StateAfter(events).value.managers|
    ensures i < |Next(StateAfter(events).value, a, e).managers|
    ensures
      var s, x := StateAfter(events).value, Next(StateAfter(events).value, a, e);
      && (Differs(s.managers[i], x.managers[i], l) ==> MayTouch(s, a, i, l))
      && (HeldBy(x, i, l, a) ==> MayTouch(s, a, i, l))
      && (forall b, c | HeldBy(s, i, l, b) && HeldBy(s, i, l, c) :: b == c)
  {
    RunKeepsInv(events);
    var s := StateAfter(events).value;
    StepKeepsCount(s, a, e);
    forall b, c | HeldBy(s, i, l, b) && HeldBy(s, i, l, c) ensures b == c {
      OneHolder(s, i, l, b, c);
    }
    if Differs(s.managers[i], Next(s, a, e).managers[i], l) || HeldBy(Next(s, a, e), i, l, a) {
      StepTouches(s, a, e, i, l);
    }
  }

  lemma StepKeepsCount(s: State, a: Actor, e: Env)
    requires Enabled(s, a)
    ensures |s.managers| <= |Next(s, a, e).managers|
  {
  }

  lemma StepTouches(s: State, a: Actor, e: Env, i: Mid, l: Lock)
    requires Inv(s) && Enabled(s, a) && i < |s.managers|
    ensures i < |Next(s, a, e).managers|
    ensures Differs(s.managers[i], Next(s, a, e).managers[i], l) || HeldBy(Next(s, a, e), i, l, a) ==>
              MayTouch(s, a, i, l)
  {
    match a
    case Caller(t) =>
      CallerStepOn(s, t, e, i);
      if Touches(s.managers[i], CallerOn(s.managers[i], i, t, s.callers[t], e), t, l) {
        CallerTouches(s, t, e, i, l);
      }
    case MonitorOf(k) =>
      if k == i {
        MonitorTouches(s.managers[i], e, l);
      }
  }
}
