/** Which manager a call of `stop` or `ensure_trace_agent_ready` works on (`src/manager.rs:646-655,
    677-698`). */
module EntryTheorems {
  import opened Options
  import opened ManagerSteps
  import opened Lifecycle
  import opened LifecycleTheorems

  /** What t found in the cell when it looked: nothing, or a manager. A readiness call that finds nothing
      puts a manager there. */
  ghost function Found(events: seq<Event>, t: Tid): Option<Option<Mid>> {
    if events == [] then None
    else
      var before, last := events[..|events| - 1], events[|events| - 1];
      var s := StateAfter(before);
      if s.Some? && last.Act? && last.a == Caller(t) && t in s.value.callers then
        match s.value.callers[t]
        case StopEnter => Some(s.value.cell)
        case ProbeEnter => Some(Some(if s.value.cell.Some? then s.value.cell.value else |s.value.managers|))
        case _ => Found(before, t)
      else Found(before, t)
  }

  /** A call works on the manager it found; `stop` returns without one only if the cell was empty. */
  predicate WorksOn(pc: Pc, found: Option<Option<Mid>>) {
    match pc
    case StopQueue(m) => found == Some(Some(m))
    case InStop(m) => found == Some(Some(m))
    case StopDone(stopped) => found == Some(stopped)
    case ProbeQueue(m) => found == Some(Some(m))
    case InProbe(m) => found == Some(Some(m))
    case _ => true
  }

  lemma OwnStepWorksOn(s: State, t: Tid, e: Env, found: Option<Option<Mid>>)
    requires Enabled(s, Caller(t)) && WorksOn(s.callers[t], found)
    requires s.callers[t].StopEnter? ==> found == Some(s.cell)
    requires s.callers[t].ProbeEnter? ==> found == Some(Some(if s.cell.Some? then s.cell.value else |s.managers|))
    ensures t in Next(s, Caller(t), e).callers && WorksOn(Next(s, Caller(t), e).callers[t], found)
  {
  }

  lemma OtherStepsKeepPoint(s: State, ev: Event, t: Tid)
    requires Allowed(s, ev) && t in s.callers && (ev.Act? ==> ev.a != Caller(t))
    ensures t in Apply(s, ev).callers && Apply(s, ev).callers[t] == s.callers[t]
  {
  }

  /** In every run: `stop` stops the manager that was in the cell when it looked, and returns without one
      if and only if there was none; a readiness call waits for that manager's trace agent. */
  lemma {:induction false} CallsWorkOnTheCell(events: seq<Event>, t: Tid)
    requires IsRun(events) && t in StateAfter(events).value.callers
    ensures WorksOn(StateAfter(events).value.callers[t], Found(events, t))
    decreases |events|
  {
    var before, last := events[..|events| - 1], events[|events| - 1];
    var s := StateAfter(before).value;
    if t in s.callers {
      CallsWorkOnTheCell(before, t);
      if last.Act? && last.a == Caller(t) {
        OwnStepWorksOn(s, t, last.e, Found(events, t));
      } else {
        OtherStepsKeepPoint(s, last, t);
      }
    }
  }

  /** The step leaves the cell as it is, or is `initialize` finding the manager there not running and putting
      a new one in its place. */
  ghost predicate CellKept(s: State, ev: Event)
    requires Allowed(s, ev)
  {
    var x := Apply(s, ev);
    || x.cell == s.cell
    || (&& s.cell.Some? && s.cell.value < |s.managers| && !s.managers[s.cell.value].run.shouldRun
        && x.cell == Some(|s.managers|) && |x.managers| == |s.managers| + 1 && ev.Act? && ev.a.Caller?
        && ev.a.t in x.callers && x.callers[ev.a.t] == StartQueue(|s.managers|))
  }

  lemma StepKeepsCell(s: State, ev: Event)
    requires Allowed(s, ev) && s.cell.Some?
    ensures CellKept(s, ev)
  {
  }

  /** A manager leaves the cell only when `initialize` finds it not running and puts a new one there. */
  lemma CellKeepsItsManager(events: seq<Event>, ev: Event)
    requires IsRun(events) && Allowed(StateAfter(events).value, ev) && StateAfter(events).value.cell.Some?
    ensures CellKept(StateAfter(events).value, ev)
  {
    StepKeepsCell(StateAfter(events).value, ev);
  }
}
