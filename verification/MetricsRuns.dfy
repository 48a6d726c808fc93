/** `record_proxy_response` by many threads at once (`src/metrics.rs:191-214`): a call increments its
    class counter, and later, under the lock, adds its sample. */
module MetricsRuns {
  import opened Options
  import opened Metrics

  type CallId = nat

  /** `between` holds the status of every call that has counted and not yet sampled. */
  datatype State = State(
    responses2xx: nat,
    responses3xx: nat,
    responses4xx: nat,
    responses5xx: nat,
    samples: seq<Sample>,
    between: map<CallId, nat>)
  {
    function Counted(): nat {
      responses2xx + responses3xx + responses4xx + responses5xx
    }
  }

  datatype Event = Count(id: CallId, status: nat) | AddSample(id: CallId, ms: real)

  const START := State(0, 0, 0, 0, [], map[])

  predicate Enabled(s: State, e: Event) {
    match e
    case Count(id, _) => id !in s.between
    case AddSample(id, _) => id in s.between
  }

  function Next(s: State, e: Event): State
    requires Enabled(s, e)
  {
    match e
    case Count(id, status) =>
      var t := s.(between := s.between[id := status]);
      if 200 <= status <= 299 then t.(responses2xx := t.responses2xx + 1)
      else if 300 <= status <= 399 then t.(responses3xx := t.responses3xx + 1)
      else if 400 <= status <= 499 then t.(responses4xx := t.responses4xx + 1)
      else if 500 <= status <= 599 then t.(responses5xx := t.responses5xx + 1)
      else t
    case AddSample(id, ms) => s.(samples := s.samples + [Sample(ms, s.between[id])], between := s.between - {id})
  }

  ghost function StateAfter(events: seq<Event>): Option<State> {
    if events == [] then Some(START)
    else
      var before, last := StateAfter(events[..|events| - 1]), events[|events| - 1];
      if before.Some? && Enabled(before.value, last) then Some(Next(before.value, last)) else None
  }

  ghost predicate IsRun(events: seq<Event>) {
    StateAfter(events).Some?
  }

  /** The calls of class c between their two steps. */
  function Between(s: State, c: nat): set<CallId> {
    OfClass(s.between, c)
  }

  function OfClass(between: map<CallId, nat>, c: nat): set<CallId> {
    set id | id in between && InClass(between[id], c)
  }

  lemma OneMoreCall(between: map<CallId, nat>, id: CallId, status: nat, c: nat)
    requires id !in between
    ensures |OfClass(between[id := status], c)| == |OfClass(between, c)| + if InClass(status, c) then 1 else 0
  {
    if InClass(status, c) {
      assert OfClass(between[id := status], c) == OfClass(between, c) + {id};
    } else {
      assert OfClass(between[id := status], c) == OfClass(between, c);
    }
  }

  ghost predicate Inv(s: State) {
    && s.responses2xx == |ClassTimes(s.samples, 2)| + |Between(s, 2)|
    && s.responses3xx == |ClassTimes(s.samples, 3)| + |Between(s, 3)|
    && s.responses4xx == |ClassTimes(s.samples, 4)| + |Between(s, 4)|
    && s.responses5xx == |ClassTimes(s.samples, 5)| + |Between(s, 5)|
  }

  lemma CountMoves(s: State, id: CallId, status: nat, c: nat)
    requires id !in s.between
    ensures |Between(Next(s, Count(id, status)), c)| == |Between(s, c)| + if InClass(status, c) then 1 else 0
  {
    var t := Next(s, Count(id, status));
    assert t.between == s.between[id := status];
    OneMoreCall(s.between, id, status, c);
  }

  lemma SampleMoves(s: State, id: CallId, ms: real, c: nat)
    requires id in s.between
    ensures
      var t := Next(s, AddSample(id, ms));
      |ClassTimes(t.samples, c)| + |Between(t, c)| == |ClassTimes(s.samples, c)| + |Between(s, c)|
  {
    var t, status := Next(s, AddSample(id, ms)), s.between[id];
    TimesAppend(s.samples, Sample(ms, status));
    assert Between(s, c) == Between(t, c) + if InClass(status, c) then {id} else {};
  }

  lemma StepKeepsInv(s: State, e: Event)
    requires Inv(s) && Enabled(s, e)
    ensures Inv(Next(s, e))
  {
    match e
    case Count(id, status) =>
      CountMoves(s, id, status, 2);
      CountMoves(s, id, status, 3);
      CountMoves(s, id, status, 4);
      CountMoves(s, id, status, 5);
    case AddSample(id, ms) =>
      SampleMoves(s, id, ms, 2);
      SampleMoves(s, id, ms, 3);
      SampleMoves(s, id, ms, 4);
      SampleMoves(s, id, ms, 5);
  }

  lemma {:induction false} RunKeepsInv(events: seq<Event>)
    requires IsRun(events)
    ensures Inv(StateAfter(events).value)
  {
    if events != [] {
      var before := events[..|events| - 1];
      RunKeepsInv(before);
      StepKeepsInv(StateAfter(before).value, events[|events| - 1]);
    }
  }

  /** The calls between their steps whose status has a counter. */
  function BetweenCounted(s: State): set<CallId> {
    set id | id in s.between && 200 <= s.between[id] <= 599
  }

  lemma ClassesPartition(s: State)
    ensures |BetweenCounted(s)| == |Between(s, 2)| + |Between(s, 3)| + |Between(s, 4)| + |Between(s, 5)|
    ensures |BetweenCounted(s)| <= |s.between|
  {
    assert BetweenCounted(s) == Between(s, 2) + Between(s, 3) + Between(s, 4) + Between(s, 5);
    SubsetIsSmaller(BetweenCounted(s), s.between.Keys);
  }

  lemma {:induction false} SubsetIsSmaller(a: set<CallId>, b: set<CallId>)
    requires a <= b
    ensures |a| <= |b|
  {
    if a != {} {
      var x :| x in a;
      SubsetIsSmaller(a - {x}, b - {x});
    }
  }

  /** In every interleaving, the class counters sum to the samples with a counted status and the calls
      with one that are between their two steps: never past all samples and all such calls. */
  lemma CountersWithConcurrentCalls(events: seq<Event>)
    requires IsRun(events)
    ensures
      var s := StateAfter(events).value;
      && s.Counted() == Answered(s.samples) + |BetweenCounted(s)|
      && s.Counted() <= |s.samples| + |s.between|
      && (s.between == map[] ==> s.Counted() <= |s.samples|)
  {
    RunKeepsInv(events);
    var s := StateAfter(events).value;
    ClassesPartition(s);
    CountersWithinSamples(s.samples);
  }

  /** The counters can be ahead of the samples. */
  lemma CountersMayBeAhead(id: CallId)
    ensures IsRun([Count(id, 200)])
    ensures StateAfter([Count(id, 200)]).value.responses2xx == 1 && StateAfter([Count(id, 200)]).value.samples == []
  {
    var events := [Count(id, 200)];
    assert events[..|events| - 1] == [];
  }
}
