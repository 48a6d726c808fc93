/** One supervised role (the agent or the trace agent): the child slot, its retry backoff and its
    retry deadline, as `src/monitor.rs` updates them.

    Everything the operating system decides is an argument: what `try_wait` reports, what the
    clock reads, whether the IPC endpoint is in use, whether the spawn succeeds. Times are in
    milliseconds, backoffs in seconds. */
module Supervision {
  import opened Options

  type Pid = nat
  type Millis = nat

  const BACKOFF_INITIAL_SECS: nat := 1
  const BACKOFF_MAX_SECS: nat := 30
  const U64_MAX: nat := 0xFFFF_FFFF_FFFF_FFFF

  datatype RoleName = Agent | TraceAgent

  /** `Child::try_wait`. */
  datatype WaitOutcome = Exited | Running | WaitFailed

  datatype SpawnOutcome = Spawned(pid: Pid) | SpawnFailed

  /** What one check of a role sees: the child's state, the clock, and whether the role's endpoint
      (the trace agent's socket, the agent's remote configuration service) is already served. */
  datatype Probe = Probe(wait: WaitOutcome, now: Millis, busy: bool)

  /** The three mutex-protected fields of a role, with what it added to the global counters. */
  datatype Role = Role(
    child: Option<Pid>,
    backoffSecs: nat,
    nextAttempt: Option<Millis>,
    spawns: nat,
    failures: nat)

  const FRESH_ROLE := Role(None, BACKOFF_INITIAL_SECS, None, 0, 0)

  function Min(a: int, b: int): int {
    if a <= b then a else b
  }

  /** `saturating_mul(2).min(get_backoff_max_secs())` on a u64. */
  function NextBackoff(secs: nat): nat {
    Min(Min(2 * secs, U64_MAX), BACKOFF_MAX_SECS)
  }

  /** The role after the check, and whether a spawn should be attempted. */
  function Checked(r: Role, p: Probe): (Role, bool) {
    if r.child.Some? && p.wait.Running? then (r, false)
    else
      var vacated := if r.child.Some? then r.(child := None, failures := r.failures + 1) else r;
      (vacated, !(vacated.nextAttempt.Some? && p.now < vacated.nextAttempt.value) && !p.busy)
  }

  /** The role after a spawn result is recorded by a caller whose clock reads `now`. */
  function Committed(r: Role, result: SpawnOutcome, now: Millis): Role {
    match result
    case Spawned(pid) =>
      r.(child := Some(pid), backoffSecs := BACKOFF_INITIAL_SECS, nextAttempt := None,
         spawns := r.spawns + 1)
    case SpawnFailed =>
      r.(nextAttempt := Some(now + 1000 * r.backoffSecs), backoffSecs := NextBackoff(r.backoffSecs),
         failures := r.failures + 1)
  }

  /** The fields of one role, updated in place under the role's locks. */
  class RoleCell {
    const name: RoleName
    var child: Option<Pid>
    var backoffSecs: nat
    var nextAttempt: Option<Millis>
    var spawns: nat
    var failures: nat

    ghost function View(): Role
      reads this
    {
      Role(child, backoffSecs, nextAttempt, spawns, failures)
    }

    constructor (name: RoleName)
      ensures this.name == name && View() == FRESH_ROLE
    {
      this.name := name;
      child, backoffSecs, nextAttempt, spawns, failures := None, BACKOFF_INITIAL_SECS, None, 0, 0;
    }

    /** The check half of the monitor's split form. */
    method ShouldAttemptSpawn(p: Probe) returns (attempt: bool)
      modifies this
      ensures (View(), attempt) == Checked(old(View()), p)
      ensures child == if p.wait.Running? then old(child) else None
      ensures attempt <==>
        && child.None? && !p.busy
        && (old(nextAttempt).Some? ==> p.now >= old(nextAttempt).value)
    {
      if child.Some? {
        match p.wait {
          case Exited =>
            failures := failures + 1;
            child := None;
          case Running =>
            return false;
          case WaitFailed =>
            failures := failures + 1;
            child := None;
        }
      }
      if nextAttempt.Some? && p.now < nextAttempt.value {
        return false;
      }
      if p.busy {
        return false;
      }
      attempt := true;
    }

    /** The commit half: returns whether a trace agent was spawned. */
    method CommitSpawnResult(result: SpawnOutcome, now: Millis) returns (traceSpawned: bool)
      modifies this
      ensures View() == Committed(old(View()), result, now)
      ensures traceSpawned == (result.Spawned? && name == TraceAgent)
    {
      match result {
        case Spawned(pid) =>
          child := Some(pid);
          backoffSecs := BACKOFF_INITIAL_SECS;
          nextAttempt := None;
          spawns := spawns + 1;
          traceSpawned := name == TraceAgent;
        case SpawnFailed =>
          failures := failures + 1;
          nextAttempt := Some(now + 1000 * backoffSecs);
          backoffSecs := NextBackoff(backoffSecs);
          traceSpawned := false;
      }
    }

    /** The locked form that `start` uses: check, spawn and commit without giving up the locks.
        `result` is what the spawn would return; it is looked at only if a spawn is attempted. */
    method TickProcess(p: Probe, result: SpawnOutcome) returns (traceSpawned: bool)
      modifies this
      ensures View() == Tick(p, result, p.now).After(old(View()))
      ensures
        var due :=
          && (old(child).None? || !p.wait.Running?) && !p.busy
          && (old(nextAttempt).Some? ==> p.now >= old(nextAttempt).value);
        && (due && result.Spawned? ==> child == Some(result.pid) && spawns == old(spawns) + 1)
        && (due && result.SpawnFailed? ==> child.None? && nextAttempt == Some(p.now + 1000 * old(backoffSecs)))
        && (!due ==> (spawns, nextAttempt, backoffSecs) == old((spawns, nextAttempt, backoffSecs)))
        && traceSpawned == (due && result.Spawned? && name == TraceAgent)
    {
      if child.Some? {
        match p.wait {
          case Exited =>
            failures := failures + 1;
            child := None;
          case Running =>
            return false;
          case WaitFailed =>
            failures := failures + 1;
            child := None;
        }
      }
      var now := p.now;
      if nextAttempt.Some? && now < nextAttempt.value {
        return false;
      }
      if p.busy {
        return false;
      }
      match result {
        case Spawned(pid) =>
          child := Some(pid);
          backoffSecs := BACKOFF_INITIAL_SECS;
          nextAttempt := None;
          spawns := spawns + 1;
          traceSpawned := name == TraceAgent;
        case SpawnFailed =>
          failures := failures + 1;
          nextAttempt := Some(now + 1000 * backoffSecs);
          backoffSecs := NextBackoff(backoffSecs);
          traceSpawned := false;
      }
    }

    /** The monitor's three phases for one role, with the spawn in the middle. */
    method SplitTick(p: Probe, result: SpawnOutcome, commitAt: Millis) returns (traceSpawned: bool)
      requires p.now <= commitAt
      modifies this
      ensures View() == Tick(p, result, commitAt).After(old(View()))
      ensures
        traceSpawned <==>
          && (old(child).None? || !p.wait.Running?) && !p.busy
          && (old(nextAttempt).Some? ==> p.now >= old(nextAttempt).value)
          && result.Spawned? && name == TraceAgent
    {
      var attempt := ShouldAttemptSpawn(p);
      traceSpawned := false;
      if attempt {
        traceSpawned := CommitSpawnResult(result, commitAt);
      }
    }
  }

  /** One visit to a role: the locked form has `commitAt == probe.now`, the split form reads the
      clock again after the spawn. */
  datatype Tick = Tick(probe: Probe, result: SpawnOutcome, commitAt: Millis) {

    function After(r: Role): Role {
      var (checked, attempt) := Checked(r, probe);
      if attempt then Committed(checked, result, commitAt) else checked
    }

    predicate Attempts(r: Role) {
      Checked(r, probe).1
    }

    predicate Fails(r: Role) {
      Attempts(r) && result.SpawnFailed?
    }

    predicate Succeeds(r: Role) {
      Attempts(r) && result.Spawned?
    }
  }

  /** For the same environment the two forms end in the same child, backoff and counters; the
      deadline of the split form is never earlier, and both have one or neither has. */
  lemma SplitRefinesLocked(r: Role, p: Probe, result: SpawnOutcome, commitAt: Millis)
    requires p.now <= commitAt
    ensures
      var locked := Tick(p, result, p.now).After(r);
      var split := Tick(p, result, commitAt).After(r);
      && split == locked.(nextAttempt := split.nextAttempt)
      && split.nextAttempt.Some? == locked.nextAttempt.Some?
      && (split.nextAttempt.Some? ==>
            locked.nextAttempt.value <= split.nextAttempt.value <= locked.nextAttempt.value + (commitAt - p.now))
  {
  }

  // ---- Whole sessions -------------------------------------------------------------------------

  /** The visits of one session happen one after the other. */
  ghost predicate Timed(ticks: seq<Tick>) {
    && (forall i | 0 <= i < |ticks| :: ticks[i].probe.now <= ticks[i].commitAt)
    && (forall i, j | 0 <= i < j < |ticks| :: ticks[i].commitAt <= ticks[j].probe.now)
  }

  ghost function RoleAfter(ticks: seq<Tick>): Role {
    if ticks == [] then FRESH_ROLE
    else ticks[|ticks| - 1].After(RoleAfter(ticks[..|ticks| - 1]))
  }

  /** When the failed attempts since the last successful spawn began, oldest first. */
  ghost function FailStreak(ticks: seq<Tick>): seq<Millis> {
    if ticks == [] then []
    else
      var last := ticks[|ticks| - 1];
      var before := ticks[..|ticks| - 1];
      if last.Fails(RoleAfter(before)) then FailStreak(before) + [last.probe.now]
      else if last.Succeeds(RoleAfter(before)) then []
      else FailStreak(before)
  }

  /** When the last failed attempt of the present streak was recorded. */
  ghost function LastFailed(ticks: seq<Tick>): Option<Millis> {
    if ticks == [] then None
    else
      var last := ticks[|ticks| - 1];
      var before := ticks[..|ticks| - 1];
      if last.Fails(RoleAfter(before)) then Some(last.commitAt)
      else if last.Succeeds(RoleAfter(before)) then None
      else LastFailed(before)
  }

  /** The process of the last successful spawn, unless a later visit found it not running. */
  ghost function LastAlive(ticks: seq<Tick>): Option<Pid> {
    if ticks == [] then None
    else
      var last := ticks[|ticks| - 1];
      var before := ticks[..|ticks| - 1];
      if last.Succeeds(RoleAfter(before)) then Some(last.result.pid)
      else if last.probe.wait.Running? then LastAlive(before)
      else None
  }

  function Pow2(k: nat): (p: nat)
    ensures p >= 1
  {
    if k == 0 then 1 else 2 * Pow2(k - 1)
  }

  /** Seconds waited after the k-th failure of a streak, counting from 0. */
  function Wait(k: nat): nat {
    Min(Pow2(k), BACKOFF_MAX_SECS)
  }

  lemma {:induction false} WaitDoubles(k: nat)
    ensures Wait(k + 1) == NextBackoff(Wait(k))
  {
  }

  /** After k consecutive failed spawns the backoff is min(2^k, 30) seconds, so it always lies
      between 1 and 30; attempts of a streak are spaced by the waits; the pending deadline is at
      least one wait after the last of them. */
  lemma {:induction false} BackoffOverSession(ticks: seq<Tick>)
    requires Timed(ticks)
    ensures
      var r := RoleAfter(ticks);
      var streak := FailStreak(ticks);
      && r.backoffSecs == Wait(|streak|)
      && 1 <= r.backoffSecs <= BACKOFF_MAX_SECS
      && (|streak| == 0 ==> r.nextAttempt == None)
      && (|streak| > 0 ==>
            (r.nextAttempt.Some? && r.nextAttempt.value >= streak[|streak| - 1] + 1000 * Wait(|streak| - 1)))
      && (forall i | 0 <= i < |streak| - 1 :: streak[i + 1] >= streak[i] + 1000 * Wait(i))
  {
    if ticks != [] {
      var last := ticks[|ticks| - 1];
      var before := ticks[..|ticks| - 1];
      BackoffOverSession(before);
      WaitDoubles(|FailStreak(before)|);
    }
  }

  /** After k failures in a row, the last recorded at time f, the retry deadline is exactly
      f + min(2^k', 30) seconds with k' = k - 1, and without failures there is none; the slot holds the
      last process spawned, until a visit finds it not running. */
  lemma {:induction false} DeadlineOverSession(ticks: seq<Tick>)
    ensures
      var r, k := RoleAfter(ticks), |FailStreak(ticks)|;
      && r.backoffSecs == Wait(k)
      && (LastFailed(ticks).Some? <==> k > 0)
      && r.nextAttempt == (if k == 0 then None else Some(LastFailed(ticks).value + 1000 * Wait(k - 1)))
      && r.child == LastAlive(ticks)
  {
    if ticks != [] {
      var before := ticks[..|ticks| - 1];
      DeadlineOverSession(before);
      WaitDoubles(|FailStreak(before)|);
    }
  }

  /** A spawn is due after these visits: no process runs, the endpoint is free, and the wait after the last
      of k failures in a row is over. */
  ghost predicate Due(ticks: seq<Tick>, p: Probe) {
    var k := |FailStreak(ticks)|;
    && (LastAlive(ticks).None? || !p.wait.Running?)
    && !p.busy
    && (k > 0 && LastFailed(ticks).Some? ==> p.now >= LastFailed(ticks).value + 1000 * Wait(k - 1))
  }

  /** After any session, a visit attempts a spawn if and only if one is due: not before the deadline, and
      without fail from then on. */
  lemma AttemptsWhenDue(ticks: seq<Tick>, t: Tick)
    ensures t.Attempts(RoleAfter(ticks)) <==> Due(ticks, t.probe)
  {
    DeadlineOverSession(ticks);
  }

  lemma {:induction false} WaitBounds(k: nat)
    ensures 1 <= Wait(k) <= Wait(k + 1) <= BACKOFF_MAX_SECS
    ensures k >= 5 ==> Wait(k) == BACKOFF_MAX_SECS
  {
    if k > 0 {
      WaitBounds(k - 1);
      if k == 5 {
        assert Pow2(5) == 32 by { assert Pow2(3) == 8; }
      }
    }
  }

  lemma {:induction false} WaitMonotone(i: nat, j: nat)
    requires i <= j
    ensures Wait(i) <= Wait(j)
  {
    if i < j {
      WaitMonotone(i, j - 1);
      WaitBounds(j - 1);
    }
  }

  /** The first n waits of a streak, added up. */
  function TotalWait(n: nat): nat {
    if n == 0 then 0 else TotalWait(n - 1) + Wait(n - 1)
  }

  lemma {:induction false} TotalWaitClosed(n: nat)
    requires n >= 5
    ensures TotalWait(n) == 31 + 30 * (n - 5)
  {
    if n > 5 {
      TotalWaitClosed(n - 1);
      WaitBounds(n - 1);
    } else {
      assert Pow2(2) == 4;
      assert Pow2(3) == 8;
      assert Pow2(4) == 16;
      assert TotalWait(2) == 3;
      assert TotalWait(4) == 15;
    }
  }

  lemma {:induction false} WindowSpan(streak: seq<Millis>, first: nat, n: nat)
    requires 1 <= n && first + n <= |streak|
    requires forall i | 0 <= i < |streak| - 1 :: streak[i + 1] >= streak[i] + 1000 * Wait(i)
    ensures streak[first + n - 1] >= streak[first] + 1000 * TotalWait(n - 1)
  {
    if n > 1 {
      WindowSpan(streak, first, n - 1);
      WaitMonotone(n - 2, first + n - 2);
    }
  }

  /** Any n >= 6 consecutive failed attempts of one role, anywhere in a session, span at least
      31 + 30 * (n - 6) seconds between the first and the last of them. */
  lemma BackoffSpan(ticks: seq<Tick>, first: nat, n: nat)
    requires Timed(ticks)
    requires n >= 6 && first + n <= |FailStreak(ticks)|
    ensures FailStreak(ticks)[first + n - 1] - FailStreak(ticks)[first] >= 1000 * (31 + 30 * (n - 6))
  {
    BackoffOverSession(ticks);
    WindowSpan(FailStreak(ticks), first, n);
    TotalWaitClosed(n - 1);
  }

  // ---- The monitor's sleep --------------------------------------------------------------------

  predicate Pending(deadline: Option<Millis>, now: Millis) {
    deadline.Some? && deadline.value > now
  }

  function Sooner(sleep: Millis, deadline: Option<Millis>, now: Millis): Millis {
    if Pending(deadline, now) then Min(sleep, deadline.value - now) else sleep
  }

  /** How long the monitor waits before its next round. */
  function NextSleep(interval: Millis, now: Millis, agentNext: Option<Millis>, traceNext: Option<Millis>)
      : (sleep: Millis)
    ensures interval > 0 ==> 0 < sleep <= interval
  {
    Sooner(Sooner(interval, agentNext, now), traceNext, now)
  }

  /** The monitor is woken no later than any deadline that is still pending, it never waits longer than
      the interval, and the wait is as long as those two allow. */
  method SleepBeforeNextRound(interval: Millis, now: Millis, agentNext: Option<Millis>, traceNext: Option<Millis>)
      returns (sleep: Millis)
    requires interval > 0
    ensures sleep == NextSleep(interval, now, agentNext, traceNext)
    ensures 0 < sleep <= interval
    ensures Pending(agentNext, now) ==> now + sleep <= agentNext.value
    ensures Pending(traceNext, now) ==> now + sleep <= traceNext.value
    ensures
      || sleep == interval
      || (Pending(agentNext, now) && now + sleep == agentNext.value)
      || (Pending(traceNext, now) && now + sleep == traceNext.value)
  {
    sleep := interval;
    if agentNext.Some? && agentNext.value > now {
      sleep := Min(sleep, agentNext.value - now);
    }
    if traceNext.Some? && traceNext.value > now {
      sleep := Min(sleep, traceNext.value - now);
    }
  }
}
