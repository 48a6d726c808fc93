/** The whole lifecycle protocol: any number of threads calling `initialize`, `stop` and
    `get_manager().ensure_trace_agent_ready()`, a monitor thread for every manager that was started,
    the global cell, and every manager ever created (`src/manager.rs:640-698`).

    A thread's point is in `callers`, except for what the thread inside a manager's `start` or
    `stop`, the one probing readiness, and the monitor keep with that manager (`ManagerSteps`). */
module Lifecycle {
  import opened Options
  import opened Supervision
  import opened ManagerSteps

  type Mid = nat

  datatype Pc =
    | InitEnter
    | InitLoad
    | StartQueue(m: Mid)
    | InStart(m: Mid)
    | InitDone
    | StopEnter
    | StopQueue(m: Mid)
    | InStop(m: Mid)
    | StopDone(stopped: Option<Mid>)
    | ProbeEnter
    | ProbeQueue(m: Mid)
    | InProbe(m: Mid)
    | ProbeDone
  {
    predicate RefersTo(i: Mid) {
      match this
      case StartQueue(m) => m == i
      case InStart(m) => m == i
      case StopQueue(m) => m == i
      case InStop(m) => m == i
      case StopDone(stopped) => stopped == Some(i)
      case ProbeQueue(m) => m == i
      case InProbe(m) => m == i
      case _ => false
    }

    /** Between taking the cell's lock in `initialize` and giving it back. */
    predicate HoldsCell() {
      InitLoad? || StartQueue? || InStart?
    }

    predicate Finished() {
      InitDone? || StopDone? || ProbeDone?
    }
  }

  datatype State = State(
    callers: map<Tid, Pc>,
    cell: Option<Mid>,
    cellHolder: Option<Tid>,
    managers: seq<Manager>,
    nextPid: Pid)

  datatype Actor = Caller(t: Tid) | MonitorOf(m: Mid)

  const INITIAL := State(map[], None, None, [], 0)

  // ---- Steps ----------------------------------------------------------------------------------

  predicate Enabled(s: State, a: Actor) {
    match a
    case MonitorOf(i) => i < |s.managers| && MonitorEnabled(s.managers[i])
    case Caller(t) =>
      t in s.callers &&
      match s.callers[t]
      case InitEnter => s.cellHolder.None?
      case InitLoad => s.cell.Some? && s.cell.value < |s.managers|
      case StartQueue(m) => m < |s.managers| && s.managers[m].work.Idle?
      case InStart(m) => m < |s.managers| && s.managers[m].work.StartWork? && SectionEnabled(s.managers[m])
      case StopEnter => s.cell.None? || s.cellHolder.None?
      case StopQueue(m) => m < |s.managers| && s.managers[m].work.Idle?
      case InStop(m) => m < |s.managers| && s.managers[m].work.StopWork? && SectionEnabled(s.managers[m])
      case ProbeEnter => s.cellHolder.None?
      case ProbeQueue(m) => m < |s.managers| && Free(s.managers[m], ReadyLock)
      case InProbe(m) => m < |s.managers| && ProberEnabled(s.managers[m])
      case _ => false
  }

  function Goto(s: State, t: Tid, pc: Pc): State {
    s.(callers := s.callers[t := pc])
  }

  /** `manager_cell()`: the first use of the cell puts a manager in it that nobody starts. */
  function OpenCell(s: State, agentEnabled: bool): (r: State)
    ensures r.cell.Some?
  {
    if s.cell.Some? then s
    else s.(cell := Some(|s.managers|), managers := s.managers + [NewManager(agentEnabled)])
  }

  function WithManager(s: State, i: Mid, m: Manager): State
    requires i < |s.managers|
  {
    s.(managers := s.managers[i := m])
  }

  function CallerNext(s: State, t: Tid, e: Env): State
    requires Enabled(s, Caller(t))
  {
    match s.callers[t]
    case InitEnter => Goto(OpenCell(s, e.enabled).(cellHolder := Some(t)), t, InitLoad)
    case InitLoad =>
      if s.managers[s.cell.value].run.shouldRun then Goto(s.(cellHolder := None), t, InitDone)
      else
        Goto(s.(cell := Some(|s.managers|), managers := s.managers + [NewManager(e.enabled)]), t,
             StartQueue(|s.managers|))
    case StartQueue(m) => Goto(WithManager(s, m, s.managers[m].(work := StartWork(t, SSwap))), t, InStart(m))
    case InStart(m) =>
      var x := StartStep(s.managers[m], e);
      if x.work.Idle? then Goto(WithManager(s, m, x).(cellHolder := None), t, InitDone)
      else WithManager(s, m, x)
    case StopEnter => Goto(s, t, if s.cell.None? then StopDone(None) else StopQueue(s.cell.value))
    case StopQueue(m) => Goto(WithManager(s, m, s.managers[m].(work := StopWork(t, PSwap))), t, InStop(m))
    case InStop(m) =>
      var x := StopStep(s.managers[m]);
      if x.work.Idle? then Goto(WithManager(s, m, x), t, StopDone(Some(m))) else WithManager(s, m, x)
    case ProbeEnter =>
      var ready := OpenCell(s, e.enabled);
      Goto(ready, t, ProbeQueue(ready.cell.value))
    case ProbeQueue(m) => Goto(WithManager(s, m, s.managers[m].(prober := Prober(t, RTest))), t, InProbe(m))
    case InProbe(m) =>
      var x := ProbeStep(s.managers[m], e);
      if x.prober.NoProber? then Goto(WithManager(s, m, x), t, ProbeDone) else WithManager(s, m, x)
  }

  /** One step of an enabled thread. Every event uses up the process id it was offered. */
  function Next(s: State, a: Actor, e: Env): State
    requires Enabled(s, a)
  {
    var moved := match a
                 case Caller(t) => CallerNext(s, t, e)
                 case MonitorOf(i) => WithManager(s, i, MonitorStep(s.managers[i], e));
    moved.(nextPid := s.nextPid + 1)
  }

  /** A new thread calls one of the three entry points, or an enabled thread takes a step. */
  datatype Event = Arrive(t: Tid, entry: Pc) | Act(a: Actor, e: Env)

  predicate Allowed(s: State, ev: Event) {
    match ev
    case Arrive(t, entry) => t !in s.callers && (entry.InitEnter? || entry.StopEnter? || entry.ProbeEnter?)
    case Act(a, e) => Enabled(s, a) && FreshEnv(e, s.nextPid)
  }

  function Apply(s: State, ev: Event): State
    requires Allowed(s, ev)
  {
    match ev
    case Arrive(t, entry) => Goto(s, t, entry).(nextPid := s.nextPid + 1)
    case Act(a, e) => Next(s, a, e)
  }

  // ---- Invariant ------------------------------------------------------------------------------

  /** No other thread has a reference to manager i. */
  ghost predicate Exclusive(callers: map<Tid, Pc>, t: Tid, i: Mid) {
    forall u | u in callers && u != t :: !callers[u].RefersTo(i)
  }

  /** While `initialize` holds the cell's lock, the manager it is starting is the one in the cell, and
      no other thread can have got hold of it. */
  ghost predicate HolderInv(s: State) {
    s.cellHolder.Some? ==>
      var t := s.cellHolder.value;
      t in s.callers &&
      match s.callers[t]
      case InitLoad => s.cell.Some?
      case StartQueue(m) =>
        && s.cell == Some(m) && Exclusive(s.callers, t, m)
        && m < |s.managers| && s.managers[m].work.Idle? && s.managers[m].run.starts == 0
      case InStart(m) => s.cell == Some(m) && Exclusive(s.callers, t, m)
      case _ => false
  }

  /** What a thread's point says about the manager it works on. */
  predicate CallerInv(t: Tid, pc: Pc, holder: Option<Tid>, managers: seq<Manager>) {
    && (pc.HoldsCell() ==> holder == Some(t))
    && match pc
       case InStart(m) => m < |managers| && managers[m].work.StartWork? && managers[m].work.t == t
       case InStop(m) => m < |managers| && managers[m].work.StopWork? && managers[m].work.t == t
       case InProbe(m) => m < |managers| && managers[m].prober.Prober? && managers[m].prober.t == t
       case StopQueue(m) => m < |managers|
       case ProbeQueue(m) => m < |managers|
       case StopDone(stopped) => stopped.Some? ==> stopped.value < |managers| && Quiet(managers[stopped.value])
       case _ => true
  }

  /** Only the manager in the cell can be running, and its locks are held by threads that say so. */
  predicate OwnersInv(i: Mid, m: Manager, cell: Option<Mid>, callers: map<Tid, Pc>) {
    && (m.run.shouldRun ==> cell == Some(i))
    && (m.work.StartWork? ==> m.work.t in callers && callers[m.work.t] == InStart(i))
    && (m.work.StopWork? ==> m.work.t in callers && callers[m.work.t] == InStop(i))
    && (m.prober.Prober? ==> m.prober.t in callers && callers[m.prober.t] == InProbe(i))
  }

  ghost predicate FatesApart(managers: seq<Manager>) {
    forall i, j, p | 0 <= i < j < |managers| && p in managers[i].fate :: p !in managers[j].fate
  }

  ghost predicate ManagersInv(managers: seq<Manager>, nextPid: Pid) {
    && (forall i | 0 <= i < |managers| :: ManagerInv(managers[i], nextPid))
    && FatesApart(managers)
  }

  /** How the threads, the cell and the managers fit together. */
  ghost predicate LinkInv(s: State) {
    && (s.cell.Some? ==> s.cell.value < |s.managers|)
    && HolderInv(s)
    && (forall t | t in s.callers :: CallerInv(t, s.callers[t], s.cellHolder, s.managers))
    && (forall i | 0 <= i < |s.managers| :: OwnersInv(i, s.managers[i], s.cell, s.callers))
  }

  ghost predicate Inv(s: State) {
    LinkInv(s) && ManagersInv(s.managers, s.nextPid)
  }

  lemma LocalStepKeepsManagers(ms: seq<Manager>, i: Mid, x: Manager, nextPid: Pid)
    requires ManagersInv(ms, nextPid) && i < |ms|
    requires ManagerInv(x, nextPid + 1) && FatesAdvance(ms[i].fate, x.fate, nextPid)
    ensures ManagersInv(ms[i := x], nextPid + 1)
  {
  }

  /** The state after a step that changes manager i to x, thread t's point to pc, and possibly the
      holder of the cell. */
  function After(s: State, i: Mid, x: Manager, t: Tid, pc: Pc, holder: Option<Tid>): State
    requires i < |s.managers|
  {
    State(s.callers[t := pc], s.cell, holder, s.managers[i := x], s.nextPid + 1)
  }

  lemma StartKeepsLinks(s: State, t: Tid, i: Mid, x: Manager)
    requires LinkInv(s) && i < |s.managers| && t in s.callers && s.callers[t] == InStart(i)
    requires x.prober == s.managers[i].prober
    requires x.work.Idle? || (x.work.StartWork? && x.work.t == t)
    ensures
      var done := x.work.Idle?;
      LinkInv(After(s, i, x, t, if done then InitDone else InStart(i), if done then None else s.cellHolder))
  {
  }

  lemma StopKeepsLinks(s: State, t: Tid, i: Mid, x: Manager)
    requires LinkInv(s) && i < |s.managers| && t in s.callers && s.callers[t] == InStop(i)
    requires x.prober == s.managers[i].prober
    requires x.run.shouldRun ==> s.managers[i].run.shouldRun
    requires Quiet(s.managers[i]) ==> Quiet(x)
    requires if x.work.Idle? then Quiet(x) else x.work.StopWork? && x.work.t == t
    ensures LinkInv(After(s, i, x, t, if x.work.Idle? then StopDone(Some(i)) else InStop(i), s.cellHolder))
  {
  }

  lemma ProbeKeepsLinks(s: State, t: Tid, i: Mid, x: Manager, pc: Pc)
    requires LinkInv(s) && i < |s.managers| && t in s.callers && s.callers[t] == InProbe(i)
    requires x == s.managers[i].(prober := x.prober, ready := x.ready)
    requires if x.prober.NoProber? then pc == ProbeDone else pc == InProbe(i) && x.prober.t == t
    ensures LinkInv(After(s, i, x, t, pc, s.cellHolder))
  {
  }

  lemma MonitorKeepsLinks(s: State, i: Mid, x: Manager)
    requires LinkInv(s) && i < |s.managers|
    requires MonitorAlive(s.managers[i]) && MonitorFrame(s.managers[i], x)
    ensures LinkInv(s.(managers := s.managers[i := x], nextPid := s.nextPid + 1))
  {
  }

  /** A thread that holds the cell's lock may put a new manager in the cell. */
  lemma NewManagerKeepsInv(s: State, agentEnabled: bool)
    requires ManagersInv(s.managers, s.nextPid)
    ensures ManagersInv(s.managers, s.nextPid + 1)
    ensures ManagersInv(s.managers + [NewManager(agentEnabled)], s.nextPid + 1)
  {
    FreshManagerInv(agentEnabled, s.nextPid + 1);
  }

  lemma EnterStartKeepsLinks(s: State, t: Tid, i: Mid, w: Work)
    requires LinkInv(s) && i < |s.managers| && t in s.callers && s.callers[t] == StartQueue(i)
    requires w.StartWork? && w.t == t
    ensures LinkInv(After(s, i, s.managers[i].(work := w), t, InStart(i), s.cellHolder))
  {
  }

  lemma EnterStopKeepsLinks(s: State, t: Tid, i: Mid, w: Work)
    requires LinkInv(s) && i < |s.managers| && t in s.callers && s.callers[t] == StopQueue(i)
    requires s.managers[i].work.Idle? && w.StopWork? && w.t == t
    ensures LinkInv(After(s, i, s.managers[i].(work := w), t, InStop(i), s.cellHolder))
  {
  }

  lemma EnterProbeKeepsLinks(s: State, t: Tid, i: Mid, p: Prober)
    requires LinkInv(s) && i < |s.managers| && t in s.callers && s.callers[t] == ProbeQueue(i)
    requires s.managers[i].prober.NoProber? && p.Prober? && p.t == t
    ensures LinkInv(After(s, i, s.managers[i].(prober := p), t, InProbe(i), s.cellHolder))
  {
  }

  lemma OpenKeepsInv(s: State, agentEnabled: bool)
    requires Inv(s)
    ensures Inv(OpenCell(s, agentEnabled).(nextPid := s.nextPid + 1))
  {
    NewManagerKeepsInv(s, agentEnabled);
  }

  /** `initialize` finds the manager in the cell not running and puts a new one in its place. */
  lemma ReplaceKeepsLinks(s: State, t: Tid, agentEnabled: bool)
    requires LinkInv(s) && t in s.callers && s.callers[t].InitLoad?
    requires s.cell.Some? && !s.managers[s.cell.value].run.shouldRun
    ensures
      LinkInv(State(s.callers[t := StartQueue(|s.managers|)], Some(|s.managers|), s.cellHolder,
                    s.managers + [NewManager(agentEnabled)], s.nextPid + 1))
  {
  }

  /** A thread that is not inside a section only moves its point. */
  lemma MoveKeepsLinks(s: State, t: Tid, pc: Pc, holder: Option<Tid>)
    requires LinkInv(s)
    requires t in s.callers ==>
      s.callers[t].InitLoad? || s.callers[t].InitEnter? || s.callers[t].StopEnter? || s.callers[t].ProbeEnter?
    requires CallerInv(t, pc, holder, s.managers)
    requires pc.InitLoad? || pc.InitEnter? || pc.StopEnter? || pc.ProbeEnter? || pc.InitDone?
             || (pc.StopDone? && pc.stopped.None?)
             || (s.cellHolder.None? && (pc.StopQueue? || pc.ProbeQueue?))
    requires if pc.InitLoad? then s.cellHolder.None? && holder == Some(t) && s.cell.Some?
             else if t in s.callers && s.callers[t].InitLoad? then holder.None?
             else holder == s.cellHolder
    ensures LinkInv(State(s.callers[t := pc], s.cell, holder, s.managers, s.nextPid + 1))
  {
  }

  // ---- Every event keeps the invariant ---------------------------------------------------------

  /** Managers are never removed, final fates never change, and a thread that has returned stays so. */
  ghost predicate Advances(s: State, x: State) {
    && |s.managers| <= |x.managers|
    && (forall i | 0 <= i < |s.managers| :: FatesAdvance(s.managers[i].fate, x.managers[i].fate, s.nextPid))
    && (forall t | t in s.callers :: t in x.callers && (s.callers[t].Finished() ==> x.callers[t] == s.callers[t]))
  }

  ghost predicate GoodStep(s: State, x: State) {
    Inv(x) && Advances(s, x)
  }

  lemma LocalIsGood(s: State, i: Mid, x: Manager, t: Tid, pc: Pc, holder: Option<Tid>)
    requires Inv(s) && i < |s.managers| && t in s.callers && !s.callers[t].Finished()
    requires LinkInv(After(s, i, x, t, pc, holder))
    requires ManagerInv(x, s.nextPid + 1) && FatesAdvance(s.managers[i].fate, x.fate, s.nextPid)
    ensures GoodStep(s, After(s, i, x, t, pc, holder))
  {
    LocalStepKeepsManagers(s.managers, i, x, s.nextPid);
  }

  lemma MonitorIsGood(s: State, i: Mid, x: Manager)
    requires Inv(s) && i < |s.managers| && LinkInv(s.(managers := s.managers[i := x], nextPid := s.nextPid + 1))
    requires ManagerInv(x, s.nextPid + 1) && FatesAdvance(s.managers[i].fate, x.fate, s.nextPid)
    ensures GoodStep(s, s.(managers := s.managers[i := x], nextPid := s.nextPid + 1))
  {
    LocalStepKeepsManagers(s.managers, i, x, s.nextPid);
  }

  lemma MonitorEvent(s: State, i: Mid, e: Env)
    requires Inv(s) && Enabled(s, MonitorOf(i)) && FreshEnv(e, s.nextPid)
    ensures GoodStep(s, Next(s, MonitorOf(i), e))
  {
    var m, x := s.managers[i], MonitorStep(s.managers[i], e);
    MonitorKeepsInv(m, e, s.nextPid);
    MonitorFramed(m, e);
    MonitorKeepsLinks(s, i, x);
    MonitorIsGood(s, i, x);
  }

  lemma StartNext(s: State, t: Tid, i: Mid, e: Env)
    requires Enabled(s, Caller(t)) && s.callers[t] == InStart(i)
    ensures
      var x := StartStep(s.managers[i], e);
      Next(s, Caller(t), e) ==
        After(s, i, x, t, if x.work.Idle? then InitDone else InStart(i), if x.work.Idle? then None else s.cellHolder)
  {
    assert s.callers[t := InStart(i)] == s.callers;
  }

  lemma StartEvent(s: State, t: Tid, i: Mid, e: Env)
    requires Inv(s) && Enabled(s, Caller(t)) && s.callers[t] == InStart(i) && FreshEnv(e, s.nextPid)
    ensures GoodStep(s, Next(s, Caller(t), e))
  {
    var m, x := s.managers[i], StartStep(s.managers[i], e);
    StartKeepsInv(m, e, s.nextPid);
    StartFramed(m, e);
    StartKeepsLinks(s, t, i, x);
    StartNext(s, t, i, e);
    LocalIsGood(s, i, x, t, if x.work.Idle? then InitDone else InStart(i), if x.work.Idle? then None else s.cellHolder);
  }

  lemma StopNext(s: State, t: Tid, i: Mid, e: Env)
    requires Enabled(s, Caller(t)) && s.callers[t] == InStop(i)
    ensures
      var x := StopStep(s.managers[i]);
      Next(s, Caller(t), e) == After(s, i, x, t, if x.work.Idle? then StopDone(Some(i)) else InStop(i), s.cellHolder)
  {
    assert s.callers[t := InStop(i)] == s.callers;
  }

  lemma StopEvent(s: State, t: Tid, i: Mid, e: Env)
    requires Inv(s) && Enabled(s, Caller(t)) && s.callers[t] == InStop(i)
    ensures GoodStep(s, Next(s, Caller(t), e))
  {
    var m, x := s.managers[i], StopStep(s.managers[i]);
    StopKeepsInv(m, s.nextPid);
    StopFramed(m);
    StopQuiets(m);
    StopKeepsLinks(s, t, i, x);
    StopNext(s, t, i, e);
    LocalIsGood(s, i, x, t, if x.work.Idle? then StopDone(Some(i)) else InStop(i), s.cellHolder);
  }

  lemma ProbeNext(s: State, t: Tid, i: Mid, e: Env)
    requires Enabled(s, Caller(t)) && s.callers[t] == InProbe(i)
    ensures
      var x := ProbeStep(s.managers[i], e);
      Next(s, Caller(t), e) == After(s, i, x, t, if x.prober.NoProber? then ProbeDone else InProbe(i), s.cellHolder)
  {
    assert s.callers[t := InProbe(i)] == s.callers;
  }

  lemma ProbeEvent(s: State, t: Tid, i: Mid, e: Env)
    requires Inv(s) && Enabled(s, Caller(t)) && s.callers[t] == InProbe(i)
    ensures GoodStep(s, Next(s, Caller(t), e))
  {
    var m, x := s.managers[i], ProbeStep(s.managers[i], e);
    ProbeFramed(m, e);
    ReadinessKeepsInv(m, x.prober, x.ready, s.nextPid);
    ProbeKeepsLinks(s, t, i, x, if x.prober.NoProber? then ProbeDone else InProbe(i));
    ProbeNext(s, t, i, e);
    LocalIsGood(s, i, x, t, if x.prober.NoProber? then ProbeDone else InProbe(i), s.cellHolder);
  }

  lemma EnterStartEvent(s: State, t: Tid, i: Mid, e: Env)
    requires Inv(s) && Enabled(s, Caller(t)) && s.callers[t] == StartQueue(i)
    ensures GoodStep(s, Next(s, Caller(t), e))
  {
    var w := StartWork(t, SSwap);
    EnterKeepsInv(s.managers[i], w, s.nextPid);
    EnterStartKeepsLinks(s, t, i, w);
    LocalIsGood(s, i, s.managers[i].(work := w), t, InStart(i), s.cellHolder);
  }

  lemma EnterStopEvent(s: State, t: Tid, i: Mid, e: Env)
    requires Inv(s) && Enabled(s, Caller(t)) && s.callers[t] == StopQueue(i)
    ensures GoodStep(s, Next(s, Caller(t), e))
  {
    var w := StopWork(t, PSwap);
    EnterKeepsInv(s.managers[i], w, s.nextPid);
    EnterStopKeepsLinks(s, t, i, w);
    LocalIsGood(s, i, s.managers[i].(work := w), t, InStop(i), s.cellHolder);
  }

  lemma EnterProbeEvent(s: State, t: Tid, i: Mid, e: Env)
    requires Inv(s) && Enabled(s, Caller(t)) && s.callers[t] == ProbeQueue(i)
    ensures GoodStep(s, Next(s, Caller(t), e))
  {
    var m, p := s.managers[i], Prober(t, RTest);
    ReadinessKeepsInv(m, p, m.ready, s.nextPid);
    EnterProbeKeepsLinks(s, t, i, p);
    LocalIsGood(s, i, m.(prober := p), t, InProbe(i), s.cellHolder);
  }

  lemma CellIsGood(s: State, y: State, t: Tid, agentEnabled: bool)
    requires Inv(s) && LinkInv(y) && y.nextPid == s.nextPid + 1
    requires y.managers == s.managers || y.managers == s.managers + [NewManager(agentEnabled)]
    requires t in y.callers && y.callers == s.callers[t := y.callers[t]]
    requires t in s.callers ==> !s.callers[t].Finished()
    ensures GoodStep(s, y)
  {
    NewManagerKeepsInv(s, agentEnabled);
  }

  lemma InitEnterEvent(s: State, t: Tid, e: Env)
    requires Inv(s) && Enabled(s, Caller(t)) && s.callers[t] == InitEnter
    ensures GoodStep(s, Next(s, Caller(t), e))
  {
    OpenKeepsInv(s, e.enabled);
    MoveKeepsLinks(OpenCell(s, e.enabled), t, InitLoad, Some(t));
    CellIsGood(s, Next(s, Caller(t), e), t, e.enabled);
  }

  lemma InitLoadEvent(s: State, t: Tid, e: Env)
    requires Inv(s) && Enabled(s, Caller(t)) && s.callers[t] == InitLoad
    ensures GoodStep(s, Next(s, Caller(t), e))
  {
    if s.managers[s.cell.value].run.shouldRun {
      MoveKeepsLinks(s, t, InitDone, None);
    } else {
      ReplaceKeepsLinks(s, t, e.enabled);
    }
    CellIsGood(s, Next(s, Caller(t), e), t, e.enabled);
  }

  lemma StopEnterEvent(s: State, t: Tid, e: Env)
    requires Inv(s) && Enabled(s, Caller(t)) && s.callers[t] == StopEnter
    ensures GoodStep(s, Next(s, Caller(t), e))
  {
    MoveKeepsLinks(s, t, if s.cell.None? then StopDone(None) else StopQueue(s.cell.value), s.cellHolder);
    CellIsGood(s, Next(s, Caller(t), e), t, e.enabled);
  }

  lemma ProbeEnterEvent(s: State, t: Tid, e: Env)
    requires Inv(s) && Enabled(s, Caller(t)) && s.callers[t] == ProbeEnter
    ensures GoodStep(s, Next(s, Caller(t), e))
  {
    OpenKeepsInv(s, e.enabled);
    var o := OpenCell(s, e.enabled);
    MoveKeepsLinks(o, t, ProbeQueue(o.cell.value), s.cellHolder);
    CellIsGood(s, Next(s, Caller(t), e), t, e.enabled);
  }

  lemma EventIsGood(s: State, ev: Event)
    requires Inv(s) && Allowed(s, ev)
    ensures GoodStep(s, Apply(s, ev))
  {
    match ev
    case Arrive(t, entry) =>
      MoveKeepsLinks(s, t, entry, s.cellHolder);
      CellIsGood(s, Apply(s, ev), t, false);
    case Act(MonitorOf(i), e) => MonitorEvent(s, i, e);
    case Act(Caller(t), e) =>
      match s.callers[t]
      case InStart(i) => StartEvent(s, t, i, e);
      case InStop(i) => StopEvent(s, t, i, e);
      case InProbe(i) => ProbeEvent(s, t, i, e);
      case StartQueue(i) => EnterStartEvent(s, t, i, e);
      case StopQueue(i) => EnterStopEvent(s, t, i, e);
      case ProbeQueue(i) => EnterProbeEvent(s, t, i, e);
      case InitEnter => InitEnterEvent(s, t, e);
      case InitLoad => InitLoadEvent(s, t, e);
      case StopEnter => StopEnterEvent(s, t, e);
      case ProbeEnter => ProbeEnterEvent(s, t, e);
  }
}
