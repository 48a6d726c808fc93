/** The monitor's condition variable, with time (`src/monitor.rs:428, 470-484, 530-552`,
    `src/manager.rs:451-462`): `stop` clears `should_run` and notifies without taking the lock the
    monitor waits under, so the notification can come before the wait. */
module MonitorWaits {
  import opened Options
  import opened Supervision

  /** Where the monitor is: before the loop test, in a round, in the wait, or out of the loop. */
  datatype Phase = Testing | InRound | Waiting(since: Millis, until: Millis) | Left

  datatype Notice = NotSent | Heard | Lost

  /** `waits` and `waited` count the waits begun, and the time spent waiting, after the notification. */
  datatype State = State(now: Millis, shouldRun: bool, phase: Phase, notice: Notice, waits: nat, waited: Millis)

  datatype Event =
    | Pass(d: Millis)
    | Test
    | LeaveRound
    | EnterWait(asOf: Millis, agentNext: Option<Millis>, traceNext: Option<Millis>)
    | WakeUp
    | Clear
    | NotifyAll

  const START := State(0, true, Testing, NotSent, 0, 0)

  /** A wait ends at its timeout at the latest; it may end at any time before. */
  predicate Enabled(s: State, e: Event) {
    match e
    case Pass(d) => s.phase.Waiting? ==> s.now + d <= s.phase.until
    case Test => s.phase.Testing?
    case LeaveRound => s.phase.InRound? && !s.shouldRun
    case EnterWait(asOf, _, _) => s.phase.InRound? && asOf <= s.now
    case WakeUp => s.phase.Waiting?
    case Clear => s.shouldRun
    case NotifyAll => !s.shouldRun && s.notice.NotSent?
  }

  function Next(interval: Millis, s: State, e: Event): State
    requires Enabled(s, e)
  {
    var sent := !s.notice.NotSent?;
    match e
    case Pass(d) => s.(now := s.now + d, waited := s.waited + if sent && s.phase.Waiting? then d else 0)
    case Test => s.(phase := if s.shouldRun then InRound else Left)
    case LeaveRound => s.(phase := Left)
    case EnterWait(asOf, agentNext, traceNext) =>
      s.(phase := Waiting(s.now, s.now + NextSleep(interval, asOf, agentNext, traceNext)),
         waits := s.waits + if sent then 1 else 0)
    case WakeUp => s.(phase := Testing)
    case Clear => s.(shouldRun := false)
    case NotifyAll => if s.phase.Waiting? then s.(phase := Testing, notice := Heard) else s.(notice := Lost)
  }

  ghost function StateAfter(interval: Millis, events: seq<Event>): Option<State> {
    if events == [] then Some(START)
    else
      var before, last := StateAfter(interval, events[..|events| - 1]), events[|events| - 1];
      if before.Some? && Enabled(before.value, last) then Some(Next(interval, before.value, last)) else None
  }

  ghost predicate IsRun(interval: Millis, events: seq<Event>) {
    StateAfter(interval, events).Some?
  }

  predicate Inv(interval: Millis, s: State) {
    && (s.phase.Waiting? ==>
          && s.phase.since <= s.now <= s.phase.until && s.phase.until - s.phase.since <= interval)
    && (s.notice.NotSent? ==> s.waits == 0 && s.waited == 0)
    && (!s.notice.NotSent? ==> !s.shouldRun)
    && (s.notice.Heard? ==> s.waits == 0 && s.waited == 0 && (s.phase.Testing? || s.phase.Left?))
    && (s.notice.Lost? ==>
          && s.waits <= 1 && s.waited <= interval
          && (s.waits == 0 ==> s.waited == 0 && !s.phase.Waiting?)
          && (s.waits == 1 ==> !s.phase.InRound?)
          && (s.phase.Waiting? ==> s.waited == s.now - s.phase.since))
  }

  lemma {:induction false} RunKeepsInv(interval: Millis, events: seq<Event>)
    requires interval > 0 && IsRun(interval, events)
    ensures Inv(interval, StateAfter(interval, events).value)
  {
    if events != [] {
      RunKeepsInv(interval, events[..|events| - 1]);
    }
  }

  /** In every run: the notification is lost exactly if it is sent while the monitor is not in the wait. One
      that is heard is followed by no wait at all, one that is lost by at most one, of at most the interval
      in all; and one that is lost while the monitor is not in a round costs nothing either. */
  lemma LostNoticeCostsOneWait(interval: Millis, events: seq<Event>, later: seq<Event>)
    requires interval > 0 && IsRun(interval, events + [NotifyAll] + later)
    ensures IsRun(interval, events)
    ensures
      var s := StateAfter(interval, events).value;
      var t := StateAfter(interval, events + [NotifyAll] + later).value;
      && (t.notice == Lost <==> !s.phase.Waiting?)
      && (t.notice == Heard <==> s.phase.Waiting?)
      && t.waits <= 1 && t.waited <= interval
      && (!s.phase.InRound? ==> t.waits == 0 && t.waited == 0)
      && !t.shouldRun
  {
    RunKeepsInv(interval, events + [NotifyAll] + later);
    AfterNotice(interval, events, later);
  }

  lemma {:induction false} AfterNotice(interval: Millis, events: seq<Event>, later: seq<Event>)
    requires interval > 0 && IsRun(interval, events + [NotifyAll] + later)
    ensures IsRun(interval, events)
    ensures
      var s := StateAfter(interval, events).value;
      var t := StateAfter(interval, events + [NotifyAll] + later).value;
      && t.notice == (if s.phase.Waiting? then Heard else Lost) && !t.shouldRun
      && (!s.phase.InRound? ==> t.waits == 0 && t.waited == 0 && (t.phase.Testing? || t.phase.Left?))
    decreases |later|
  {
    var whole := events + [NotifyAll] + later;
    if later == [] {
      assert whole[..|whole| - 1] == events;
      RunKeepsInv(interval, events);
    } else {
      assert whole[..|whole| - 1] == events + [NotifyAll] + later[..|later| - 1];
      assert whole[|whole| - 1] == later[|later| - 1];
      AfterNotice(interval, events, later[..|later| - 1]);
    }
  }

  /** The monitor is back from a wait no later than a deadline it knew of, but for the time between reading
      the clock and waiting; and never later than the interval. */
  lemma {:induction false} WakesForDeadline(interval: Millis, events: seq<Event>, asOf: Millis,
                                            agentNext: Option<Millis>, traceNext: Option<Millis>, later: seq<Event>)
    requires interval > 0 && IsRun(interval, events + [EnterWait(asOf, agentNext, traceNext)] + later)
    requires forall e | e in later :: e.Pass? || e.Clear?
    ensures IsRun(interval, events) && asOf <= StateAfter(interval, events).value.now
    ensures
      var s := StateAfter(interval, events).value;
      var t := StateAfter(interval, events + [EnterWait(asOf, agentNext, traceNext)] + later).value;
      && t.phase == Waiting(s.now, s.now + NextSleep(interval, asOf, agentNext, traceNext))
      && t.now <= t.phase.until && t.now <= s.now + interval
      && (Pending(agentNext, asOf) ==> t.now <= agentNext.value + (s.now - asOf))
      && (Pending(traceNext, asOf) ==> t.now <= traceNext.value + (s.now - asOf))
    decreases |later|
  {
    var whole := events + [EnterWait(asOf, agentNext, traceNext)] + later;
    if later == [] {
      assert whole[..|whole| - 1] == events;
    } else {
      var fewer := later[..|later| - 1];
      assert whole[..|whole| - 1] == events + [EnterWait(asOf, agentNext, traceNext)] + fewer;
      assert whole[|whole| - 1] == later[|later| - 1];
      WakesForDeadline(interval, events, asOf, agentNext, traceNext, fewer);
    }
  }

  /** The bound is met: notified in a round, the monitor can wait for the whole interval. */
  lemma LostNoticeCanCostTheInterval(interval: Millis)
    requires interval > 0
    ensures exists events ::
      && IsRun(interval, events)
      && var s := StateAfter(interval, events).value;
         s.notice == Lost && s.waits == 1 && s.waited == interval
  {
    var e1 := [Test];
    var e2 := e1 + [Clear];
    var e3 := e2 + [NotifyAll];
    var e4 := e3 + [EnterWait(0, None, None)];
    var e5 := e4 + [Pass(interval)];
    assert e1[..0] == [] && e2[..1] == e1 && e3[..2] == e2 && e4[..3] == e3 && e5[..4] == e4;
    assert StateAfter(interval, e1) == Some(START.(phase := InRound));
    assert StateAfter(interval, e2) == Some(START.(phase := InRound, shouldRun := false));
    assert StateAfter(interval, e3) == Some(START.(phase := InRound, shouldRun := false, notice := Lost));
    assert StateAfter(interval, e4)
        == Some(START.(phase := Waiting(0, interval), shouldRun := false, notice := Lost, waits := 1));
    assert IsRun(interval, e5);
  }

  /** It need not be: a notification lost in a round costs nothing if the monitor leaves at its gate; and a
      wait may end before its time. */
  lemma LostNoticeCanCostNothing(interval: Millis)
    requires interval > 0
    ensures exists events ::
      && IsRun(interval, events)
      && var s := StateAfter(interval, events).value;
         s.notice == Lost && s.waits == 0 && s.phase.Left? && s.now == 0
  {
    var waiting := Waiting(0, interval);
    var e1 := [Test];
    var e2 := e1 + [EnterWait(0, None, None)];
    var e3 := e2 + [WakeUp];
    var e4 := e3 + [Test];
    var e5 := e4 + [Clear];
    var e6 := e5 + [NotifyAll];
    var e7 := e6 + [LeaveRound];
    assert e1[..0] == [] && e2[..1] == e1 && e3[..2] == e2 && e4[..3] == e3;
    assert e5[..4] == e4 && e6[..5] == e5 && e7[..6] == e6;
    assert StateAfter(interval, e1) == Some(START.(phase := InRound));
    assert StateAfter(interval, e2) == Some(START.(phase := waiting));
    assert StateAfter(interval, e3) == Some(START);
    assert StateAfter(interval, e4) == Some(START.(phase := InRound));
    assert StateAfter(interval, e5) == Some(START.(phase := InRound, shouldRun := false));
    assert StateAfter(interval, e6) == Some(START.(phase := InRound, shouldRun := false, notice := Lost));
    assert IsRun(interval, e7);
  }
}
