/** Killing a child step by step (`src/shutdown.rs:20-202`, the Unix branch). */
module Shutdown {
  type Millis = nat

  /** What `try_wait` answers. */
  datatype Poll = Exited | Running | Failed

  datatype Signal = Term | Kill

  /** What is sent to the child: a signal to its process group or its pid, or `Child::kill`. */
  datatype Attempt = Group(signal: Signal) | Pid(signal: Signal) | ForceKill

  const POLL_STEP: Millis := 50
  const KILL_TIMEOUT: Millis := 5000
  const RUNGS: seq<Attempt> := [Group(Term), Group(Kill), Pid(Term), Pid(Kill), ForceKill]

  /** A child and the clock; the answers of the operating system are not determined. */
  class Process {
    var now: Millis
    ghost var attempts: seq<Attempt>
    ghost var polls: seq<Poll>

    constructor ()
      ensures attempts == [] && polls == []
    {
      now := 0;
      attempts, polls := [], [];
    }

    method TryWait() returns (p: Poll)
      modifies this
      ensures now >= old(now) && attempts == old(attempts) && polls == old(polls) + [p]
    {
      p := *;
      Pass(0);
      polls := polls + [p];
    }

    /** Time goes by, at least this much. */
    method Pass(least: Millis)
      modifies `now
      ensures now >= old(now) + least
    {
      var more: nat :| more >= 0;
      now := now + least + more;
    }

    method Send(a: Attempt) returns (sent: bool)
      modifies this
      ensures now >= old(now) && attempts == old(attempts) + [a] && polls == old(polls)
    {
      sent := *;
      Pass(0);
      attempts := attempts + [a];
    }
  }

  // ---- Waiting --------------------------------------------------------------------------------

  /** The polls of one wait: the child was running at all but the last of them, which found it exited
      if the wait succeeded, and otherwise failed or came when the time was over. */
  predicate IsWait(polls: seq<Poll>, exited: bool, elapsed: Millis, timeout: Millis) {
    && polls != [] && |polls| <= (timeout + POLL_STEP - 1) / POLL_STEP + 1
    && (forall k | 0 <= k < |polls| - 1 :: polls[k] == Running)
    && (exited <==> polls[|polls| - 1] == Exited)
    && (polls[|polls| - 1] == Running ==> elapsed >= timeout)
  }

  /** `wait_with_timeout`. */
  method WaitWithTimeout(child: Process, timeout: Millis) returns (exited: bool, ghost polls: seq<Poll>)
    modifies child
    ensures child.now >= old(child.now) && child.attempts == old(child.attempts)
    ensures child.polls == old(child.polls) + polls
    ensures IsWait(polls, exited, child.now - old(child.now), timeout)
  {
    polls := [];
    var deadline := child.now + timeout;
    while true
      invariant child.attempts == old(child.attempts) && child.polls == old(child.polls) + polls
      invariant child.now >= old(child.now) + POLL_STEP * |polls|
      invariant POLL_STEP * |polls| < timeout + POLL_STEP
      invariant forall k | 0 <= k < |polls| :: polls[k] == Running
      decreases timeout + POLL_STEP - POLL_STEP * |polls|
    {
      var p := child.TryWait();
      polls := polls + [p];
      match p {
        case Exited =>
          return true, polls;
        case Running =>
          if child.now >= deadline {
            return false, polls;
          }
          child.Pass(POLL_STEP);
        case Failed =>
          return false, polls;
      }
    }
  }

  /** A 5 s wait polls at most 101 times. */
  lemma PollsOfOneWait(polls: seq<Poll>, exited: bool, elapsed: Millis)
    requires IsWait(polls, exited, elapsed, KILL_TIMEOUT)
    ensures |polls| <= 101
    ensures !exited && Failed !in polls ==> elapsed >= KILL_TIMEOUT
  {
    assert polls[|polls| - 1] in polls;
  }

  // ---- Stages ---------------------------------------------------------------------------------

  /** One attempt: whether it was sent, and the polls after it. */
  datatype Stage = Stage(attempt: Attempt, sent: bool, polls: seq<Poll>, elapsed: Millis)

  predicate SawExit(s: Stage) {
    Exited in s.polls
  }

  /** A signal that could not be sent is not waited for; `kill` always is. */
  predicate GoodStage(s: Stage) {
    if s.sent || s.attempt == ForceKill then IsWait(s.polls, SawExit(s), s.elapsed, KILL_TIMEOUT)
    else s.polls == []
  }

  /** What a stage does to the process. */
  twostate predicate Follows(child: Process, s: Stage)
    reads child
  {
    && child.now >= old(child.now)
    && child.attempts == old(child.attempts) + [s.attempt]
    && child.polls == old(child.polls) + s.polls
  }

  lemma ExitIsLast(polls: seq<Poll>, exited: bool, elapsed: Millis, timeout: Millis)
    requires IsWait(polls, exited, elapsed, timeout)
    ensures exited <==> Exited in polls
  {
    if exited {
      assert polls[|polls| - 1] == Exited;
    }
  }

  /** `signal_process_group` and `signal_process_pid`: they differ in whom they signal. */
  method SignalProcess(child: Process, a: Attempt) returns (exited: bool, ghost stage: Stage)
    requires a != ForceKill
    modifies child
    ensures stage.attempt == a && GoodStage(stage) && exited == SawExit(stage)
    ensures Follows(child, stage)
  {
    var sent := child.Send(a);
    if sent {
      ghost var start := child.now;
      ghost var polls;
      exited, polls := WaitWithTimeout(child, KILL_TIMEOUT);
      stage := Stage(a, true, polls, child.now - start);
      ExitIsLast(polls, exited, stage.elapsed, KILL_TIMEOUT);
    } else {
      exited, stage := false, Stage(a, false, [], 0);
    }
  }

  // ---- Escalation -----------------------------------------------------------------------------

  /** The ladder: try the next rung until one sees the child exit. */
  predicate Climbs(stages: seq<Stage>, rungs: seq<Attempt>, terminated: bool) {
    if rungs == [] then stages == [] && !terminated
    else
      && stages != [] && stages[0].attempt == rungs[0] && GoodStage(stages[0])
      && if SawExit(stages[0]) then |stages| == 1 && terminated else Climbs(stages[1..], rungs[1..], terminated)
  }

  function AttemptsOf(stages: seq<Stage>): seq<Attempt> {
    if stages == [] then [] else [stages[0].attempt] + AttemptsOf(stages[1..])
  }

  function PollsOf(stages: seq<Stage>): seq<Poll> {
    if stages == [] then [] else stages[0].polls + PollsOf(stages[1..])
  }

  /** So far every stage failed. */
  predicate Failing(stages: seq<Stage>, rungs: seq<Attempt>) {
    && |stages| <= |rungs|
    && forall k | 0 <= k < |stages| :: stages[k].attempt == rungs[k] && GoodStage(stages[k]) && !SawExit(stages[k])
  }

  lemma {:induction false} FailingClimbs(stages: seq<Stage>, s: Stage, rungs: seq<Attempt>)
    requires |stages| < |rungs| && Failing(stages, rungs) && s.attempt == rungs[|stages|] && GoodStage(s)
    requires SawExit(s) || |stages| + 1 == |rungs|
    ensures Climbs(stages + [s], rungs, SawExit(s))
  {
    if stages == [] {
      assert stages + [s] == [s];
    } else {
      assert forall k | 0 <= k < |stages[1..]| :: stages[1..][k] == stages[k + 1];
      FailingClimbs(stages[1..], s, rungs[1..]);
      assert (stages + [s])[1..] == stages[1..] + [s];
    }
  }

  lemma {:induction false} OneMoreStage(stages: seq<Stage>, s: Stage)
    ensures AttemptsOf(stages + [s]) == AttemptsOf(stages) + [s.attempt]
    ensures PollsOf(stages + [s]) == PollsOf(stages) + s.polls
  {
    if stages == [] {
      assert stages + [s] == [s];
    } else {
      var rest := stages[1..];
      OneMoreStage(rest, s);
      assert (stages + [s])[1..] == rest + [s];
      assert stages[0].polls + (PollsOf(rest) + s.polls) == (stages[0].polls + PollsOf(rest)) + s.polls;
    }
  }

  /** The process went through these stages since it had made those attempts and been polled so. */
  ghost predicate WentThrough(child: Process, attempts: seq<Attempt>, polls: seq<Poll>, stages: seq<Stage>)
    reads child
  {
    child.attempts == attempts + AttemptsOf(stages) && child.polls == polls + PollsOf(stages)
  }

  /** Adds a stage to those that failed. */
  lemma AddStage(stages: seq<Stage>, s: Stage, terminated: bool)
    requires |stages| < |RUNGS| && Failing(stages, RUNGS)
    requires s.attempt == RUNGS[|stages|] && GoodStage(s) && terminated == SawExit(s)
    ensures AttemptsOf(stages + [s]) == AttemptsOf(stages) + [s.attempt]
    ensures PollsOf(stages + [s]) == PollsOf(stages) + s.polls
    ensures !terminated ==> Failing(stages + [s], RUNGS)
    ensures terminated || |stages| + 1 == |RUNGS| ==> Climbs(stages + [s], RUNGS, terminated)
  {
    OneMoreStage(stages, s);
    if terminated || |stages| + 1 == |RUNGS| {
      FailingClimbs(stages, s, RUNGS);
    }
  }

  /** n stages failed, or the last one saw the child exit. */
  ghost predicate Climbing(stages: seq<Stage>, n: nat, terminated: bool) {
    if terminated then Climbs(stages, RUNGS, true) else |stages| == n && Failing(stages, RUNGS)
  }

  /** One of the four stages that signal the child. */
  method TryRung(child: Process, a: Attempt,
                 ghost stages: seq<Stage>, ghost attempts: seq<Attempt>, ghost polls: seq<Poll>)
    returns (terminated: bool, ghost more: seq<Stage>)
    requires |stages| < 4 && a == RUNGS[|stages|]
    requires Climbing(stages, |stages|, false) && WentThrough(child, attempts, polls, stages)
    modifies child
    ensures Climbing(more, |stages| + 1, terminated) && WentThrough(child, attempts, polls, more)
  {
    ghost var stage;
    terminated, stage := SignalProcess(child, a);
    AddStage(stages, stage, terminated);
    more := stages + [stage];
  }

  /** The last stage: `kill`, and a wait whether or not it could be sent. */
  method LastRung(child: Process, ghost stages: seq<Stage>, ghost attempts: seq<Attempt>, ghost polls: seq<Poll>)
    returns (terminated: bool, ghost more: seq<Stage>)
    requires Climbing(stages, 4, false) && WentThrough(child, attempts, polls, stages)
    modifies child
    ensures Climbs(more, RUNGS, terminated) && WentThrough(child, attempts, polls, more)
  {
    var sent := child.Send(ForceKill);
    ghost var start := child.now;
    ghost var waited;
    terminated, waited := WaitWithTimeout(child, KILL_TIMEOUT);
    ghost var stage := Stage(ForceKill, sent, waited, child.now - start);
    ExitIsLast(waited, terminated, stage.elapsed, KILL_TIMEOUT);
    AddStage(stages, stage, terminated);
    more := stages + [stage];
  }

  class ChildSlot {
    var child: Process?

    constructor (child: Process?)
      ensures this.child == child
    {
      this.child := child;
    }

    /** `graceful_kill`; `terminated` is what it logs. Whatever happens, the slot is empty afterwards,
        and the attempts climb the ladder. */
    method GracefulKill() returns (terminated: bool, ghost stages: seq<Stage>)
      modifies this, child
      ensures child == null
      ensures old(child) == null ==> stages == [] && !terminated
      ensures old(child) != null ==>
        Climbs(stages, RUNGS, terminated) && WentThrough(old(child), old(child.attempts), old(child.polls), stages)
      ensures AttemptsOf(stages) <= [Group(Term), Group(Kill), Pid(Term), Pid(Kill), ForceKill]
      ensures old(child) != null && !terminated ==>
        AttemptsOf(stages) == [Group(Term), Group(Kill), Pid(Term), Pid(Kill), ForceKill]
    {
      stages, terminated := [], false;
      if child == null {
        return;
      }
      var process: Process := child;
      child := null;
      ghost var attempts, polls := process.attempts, process.polls;
      terminated, stages := TryRung(process, Group(Term), [], attempts, polls);
      if !terminated {
        terminated, stages := TryRung(process, Group(Kill), stages, attempts, polls);
      }
      if !terminated {
        terminated, stages := TryRung(process, Pid(Term), stages, attempts, polls);
        if !terminated {
          terminated, stages := TryRung(process, Pid(Kill), stages, attempts, polls);
        }
      }
      if !terminated {
        var exited;
        exited, stages := LastRung(process, stages, attempts, polls);
        if exited {
          terminated := true;
        }
      }
      LadderMeans(stages, RUNGS, terminated);
    }
  }

  /** What climbing the ladder means: the attempts are a prefix of the rungs, all of them if the child
      was not seen to exit; it is reported terminated exactly if some poll saw it exit, which then was
      the very last poll, of the last attempt: nothing is sent to a child already reaped. Each attempt
      is followed by at most 101 polls. */
  lemma {:induction false} LadderMeans(stages: seq<Stage>, rungs: seq<Attempt>, terminated: bool)
    requires Climbs(stages, rungs, terminated)
    ensures AttemptsOf(stages) <= rungs
    ensures !terminated ==> AttemptsOf(stages) == rungs
    ensures terminated <==> Exited in PollsOf(stages)
    ensures terminated ==> stages != [] && PollsOf(stages) != [] && PollsOf(stages)[|PollsOf(stages)| - 1] == Exited
    ensures forall k | 0 <= k < |PollsOf(stages)| - 1 :: PollsOf(stages)[k] != Exited
    ensures forall k | 0 <= k < |stages| - 1 :: !SawExit(stages[k])
    ensures |PollsOf(stages)| <= 101 * |stages|
    ensures forall k | 0 <= k < |stages| :: stages[k].polls != [] <==> stages[k].sent || stages[k].attempt == ForceKill
    ensures forall k | 0 <= k < |stages| ::
              stages[k].polls == [] || SawExit(stages[k]) || Failed in stages[k].polls || stages[k].elapsed >= 5000
  {
    if rungs != [] {
      var first := stages[0];
      if first.polls != [] {
        PollsOfOneWait(first.polls, SawExit(first), first.elapsed);
      }
      if SawExit(first) {
        assert stages[1..] == [];
        assert PollsOf(stages) == first.polls;
      } else {
        LadderMeans(stages[1..], rungs[1..], terminated);
        assert stages == [first] + stages[1..];
      }
    }
  }
}
