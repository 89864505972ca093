/** The deep-scoring requests of one batch under the service's semaphore
    (server/src/core/services/scoring_service.py): tasks wait for a permit, run, and settle in any order. */
module Throttle {
  import opened Common
  import opened Pipeline

  datatype Task = Queued | InFlight | Settled(result: LlmResult)

  /** `active` and `peak` are the batch's own counters of simultaneous requests. */
  datatype Batch = Batch(ids: seq<CandidateId>, tasks: seq<Task>, permits: nat, active: int, peak: int)

  datatype Step = Enter(task: nat) | Settle(task: nat)

  /** At least one permit per configured key, or for one key when none is configured. */
  function Capacity(keys: nat, perKey: nat): nat {
    (if keys == 0 then 1 else keys) * perKey
  }

  lemma CapacityPositiveIff(keys: nat, perKey: nat)
    ensures Capacity(keys, perKey) > 0 <==> perKey > 0
  {
    if perKey > 0 {
      assert keys * perKey >= keys;
    }
  }

  function Start(ids: seq<CandidateId>, capacity: nat): Batch {
    Batch(ids, seq(|ids|, _ => Queued), capacity, 0, 0)
  }

  predicate Allowed(b: Batch, step: Step) {
    match step
    case Enter(i) => i < |b.tasks| && b.tasks[i] == Queued && b.permits > 0
    case Settle(i) => i < |b.tasks| && b.tasks[i] == InFlight
  }

  /** Settling gives the permit back whether the request succeeded or raised. */
  function Next(b: Batch, step: Step, llm: CandidateId -> LlmResult): Batch
    requires |b.tasks| == |b.ids|
  {
    if !Allowed(b, step) then b
    else
      match step
      case Enter(i) =>
        b.(tasks := b.tasks[i := InFlight], permits := b.permits - 1, active := b.active + 1,
           peak := if b.active + 1 > b.peak then b.active + 1 else b.peak)
      case Settle(i) =>
        b.(tasks := b.tasks[i := Settled(llm(b.ids[i]))], permits := b.permits + 1,
           active := b.active - 1)
  }

  function After(b: Batch, steps: seq<Step>, llm: CandidateId -> LlmResult): (r: Batch)
    requires |b.tasks| == |b.ids|
    ensures |r.tasks| == |r.ids| && r.ids == b.ids
  {
    if steps == [] then b else Next(After(b, steps[..|steps| - 1], llm), steps[|steps| - 1], llm)
  }

  predicate IsQueued(t: Task) { t == Queued }

  predicate IsInFlight(t: Task) { t == InFlight }

  ghost predicate Valid(b: Batch, capacity: nat, llm: CandidateId -> LlmResult) {
    && |b.tasks| == |b.ids|
    && b.permits + Count(b.tasks, IsInFlight) == capacity
    && b.active == Count(b.tasks, IsInFlight)
    && b.active <= b.peak <= capacity
    && forall i :: 0 <= i < |b.tasks| && b.tasks[i].Settled? ==> b.tasks[i].result == llm(b.ids[i])
  }

  /** Replacing one element moves the count by that element. */
  lemma {:induction false} CountReplaced<T(!new)>(s: seq<T>, i: nat, x: T, p: T -> bool)
    requires i < |s|
    ensures Count(s[i := x], p) + (if p(s[i]) then 1 else 0) == Count(s, p) + if p(x) then 1 else 0
  {
    var n := |s| - 1;
    if i < n {
      CountReplaced(s[..n], i, x, p);
      assert s[i := x][..n] == s[..n][i := x];
    } else {
      assert s[i := x][..n] == s[..n];
    }
  }

  lemma StartIsValid(ids: seq<CandidateId>, capacity: nat, llm: CandidateId -> LlmResult)
    ensures Valid(Start(ids, capacity), capacity, llm)
  {
    CountZero(Start(ids, capacity).tasks, IsInFlight);
  }

  lemma {:induction false} StepKeepsValid(b: Batch, step: Step, capacity: nat, llm: CandidateId -> LlmResult)
    requires Valid(b, capacity, llm)
    ensures Valid(Next(b, step, llm), capacity, llm)
  {
    if Allowed(b, step) {
      match step
      case Enter(i) => CountReplaced(b.tasks, i, InFlight, IsInFlight);
      case Settle(i) => CountReplaced(b.tasks, i, Settled(llm(b.ids[i])), IsInFlight);
    }
  }

  lemma {:induction false} AfterIsValid(
    ids: seq<CandidateId>, capacity: nat, steps: seq<Step>, llm: CandidateId -> LlmResult)
    ensures Valid(After(Start(ids, capacity), steps, llm), capacity, llm)
  {
    if steps == [] {
      StartIsValid(ids, capacity, llm);
    } else {
      AfterIsValid(ids, capacity, steps[..|steps| - 1], llm);
      StepKeepsValid(After(Start(ids, capacity), steps[..|steps| - 1], llm), steps[|steps| - 1], capacity, llm);
    }
  }

  /** In every interleaving the requests in flight stay within the permits for the configured keys, and so does the
      peak the batch logs. */
  lemma {:induction false} WithinCapacity(
    ids: seq<CandidateId>, keys: nat, perKey: nat, steps: seq<Step>, llm: CandidateId -> LlmResult)
    ensures var b, bound := After(Start(ids, Capacity(keys, perKey)), steps, llm), (if keys == 0 then 1 else keys) * perKey;
      && Count(b.tasks, IsInFlight) <= bound
      && b.active == Count(b.tasks, IsInFlight) <= b.peak <= bound
  {
    AfterIsValid(ids, Capacity(keys, perKey), steps, llm);
  }

  /** The logged peak is the largest number of requests that were in flight at once. */
  lemma {:induction false} PeakIsReached(
    ids: seq<CandidateId>, capacity: nat, steps: seq<Step>, llm: CandidateId -> LlmResult)
    ensures var peak := After(Start(ids, capacity), steps, llm).peak;
      && (forall n :: 0 <= n <= |steps| ==> ActiveAfter(ids, capacity, steps, n, llm) <= peak)
      && exists n :: 0 <= n <= |steps| && ActiveAfter(ids, capacity, steps, n, llm) == peak
  {
    assert steps[..|steps|] == steps;
    if steps == [] {
      assert ActiveAfter(ids, capacity, steps, 0, llm) == 0;
    } else {
      var front := steps[..|steps| - 1];
      PeakIsReached(ids, capacity, front, llm);
      forall n | 0 <= n <= |front|
        ensures ActiveAfter(ids, capacity, front, n, llm) == ActiveAfter(ids, capacity, steps, n, llm)
      {
        assert front[..n] == steps[..n];
      }
      var before, after := After(Start(ids, capacity), front, llm), After(Start(ids, capacity), steps, llm);
      assert ActiveAfter(ids, capacity, steps, |steps|, llm) == after.active;
      assert ActiveAfter(ids, capacity, front, |front|, llm) == before.active by {
        assert front[..|front|] == front;
      }
      var m :| 0 <= m <= |front| && ActiveAfter(ids, capacity, front, m, llm) == before.peak;
      assert ActiveAfter(ids, capacity, steps, m, llm) == before.peak;
    }
  }

  function ActiveAfter(
    ids: seq<CandidateId>, capacity: nat, steps: seq<Step>, n: nat, llm: CandidateId -> LlmResult): int
    requires n <= |steps|
  {
    After(Start(ids, capacity), steps[..n], llm).active
  }

  predicate AllSettled(b: Batch) {
    forall i :: 0 <= i < |b.tasks| ==> b.tasks[i].Settled?
  }

  lemma {:induction false} SomeStepAllowed(b: Batch, capacity: nat, llm: CandidateId -> LlmResult)
    requires Valid(b, capacity, llm) && !AllSettled(b) && capacity > 0
    ensures exists i :: 0 <= i < |b.tasks| && Movable(b, i)
  {
    if b.permits > 0 {
      var i :| 0 <= i < |b.tasks| && !b.tasks[i].Settled?;
      assert Movable(b, i);
    } else {
      CountZero(b.tasks, IsInFlight);
      var t :| t in b.tasks && IsInFlight(t);
      var i :| 0 <= i < |b.tasks| && b.tasks[i] == t;
      assert Movable(b, i);
    }
  }

  predicate Movable(b: Batch, i: nat) {
    Allowed(b, Enter(i)) || Allowed(b, Settle(i))
  }

  lemma {:induction false} NoStepAllowed(b: Batch, llm: CandidateId -> LlmResult)
    requires Valid(b, 0, llm)
    ensures forall step :: !Allowed(b, step)
  {
    CountZero(b.tasks, IsInFlight);
    forall step ensures !Allowed(b, step) {
      assert step.Settle? && step.task < |b.tasks| ==> b.tasks[step.task] in b.tasks;
    }
  }

  /** An unfinished batch can move exactly when every key is granted a request at all. */
  lemma {:induction false} NeverStuckIff(
    ids: seq<CandidateId>, keys: nat, perKey: nat, steps: seq<Step>, llm: CandidateId -> LlmResult)
    requires !AllSettled(After(Start(ids, Capacity(keys, perKey)), steps, llm))
    ensures (exists step :: Allowed(After(Start(ids, Capacity(keys, perKey)), steps, llm), step)) <==> perKey > 0
  {
    var b := After(Start(ids, Capacity(keys, perKey)), steps, llm);
    AfterIsValid(ids, Capacity(keys, perKey), steps, llm);
    CapacityPositiveIff(keys, perKey);
    if perKey > 0 {
      SomeStepAllowed(b, Capacity(keys, perKey), llm);
      var i :| 0 <= i < |b.tasks| && Movable(b, i);
      assert Allowed(b, if Allowed(b, Enter(i)) then Enter(i) else Settle(i));
    } else {
      NoStepAllowed(b, llm);
    }
  }

  /** Work left: a queued task has two steps to go, a running one has one. */
  function Left(b: Batch): nat {
    2 * Count(b.tasks, IsQueued) + Count(b.tasks, IsInFlight)
  }

  lemma EveryStepProgresses(b: Batch, step: Step, llm: CandidateId -> LlmResult)
    requires |b.tasks| == |b.ids| && Allowed(b, step)
    ensures Left(Next(b, step, llm)) == Left(b) - 1
  {
    var i, x := step.task, if step.Enter? then InFlight else Settled(llm(b.ids[step.task]));
    CountReplaced(b.tasks, i, x, IsQueued);
    CountReplaced(b.tasks, i, x, IsInFlight);
  }

  /** Each step was allowed when it was taken. */
  ghost predicate IsRun(b: Batch, steps: seq<Step>, llm: CandidateId -> LlmResult)
    requires |b.tasks| == |b.ids|
  {
    steps == [] ||
    (IsRun(b, steps[..|steps| - 1], llm) && Allowed(After(b, steps[..|steps| - 1], llm), steps[|steps| - 1]))
  }

  lemma {:induction false} RunUsesUpWork(b: Batch, steps: seq<Step>, llm: CandidateId -> LlmResult)
    requires |b.tasks| == |b.ids| && IsRun(b, steps, llm)
    ensures |steps| + Left(After(b, steps, llm)) == Left(b)
  {
    if steps != [] {
      var front := steps[..|steps| - 1];
      RunUsesUpWork(b, front, llm);
      EveryStepProgresses(After(b, front, llm), steps[|steps| - 1], llm);
    }
  }

  lemma {:induction false} AllQueued(tasks: seq<Task>)
    requires forall i :: 0 <= i < |tasks| ==> tasks[i] == Queued
    ensures Count(tasks, IsQueued) == |tasks| && Count(tasks, IsInFlight) == 0
  {
    if tasks != [] {
      AllQueued(tasks[..|tasks| - 1]);
    }
  }

  /** Every batch finishes: no run has more than two steps a task, and one that cannot be continued has taken exactly
      those, settled every task, and gathers for each candidate the answer to its own request. */
  lemma {:induction false} BatchFinishes(
    ids: seq<CandidateId>, keys: nat, perKey: nat, steps: seq<Step>, llm: CandidateId -> LlmResult)
    requires perKey > 0 && IsRun(Start(ids, Capacity(keys, perKey)), steps, llm)
    ensures |steps| <= 2 * |ids|
    ensures var b := After(Start(ids, Capacity(keys, perKey)), steps, llm);
      (forall step :: !Allowed(b, step)) ==> AllSettled(b) && |steps| == 2 * |ids| && Gathered(b) == Map(ids, llm)
  {
    var capacity := Capacity(keys, perKey);
    var b := After(Start(ids, capacity), steps, llm);
    AllQueued(Start(ids, capacity).tasks);
    RunUsesUpWork(Start(ids, capacity), steps, llm);
    if forall step :: !Allowed(b, step) {
      if !AllSettled(b) {
        NeverStuckIff(ids, keys, perKey, steps, llm);
      }
      CountZero(b.tasks, IsQueued);
      CountZero(b.tasks, IsInFlight);
      ResultsBelongToTheirTasks(ids, capacity, steps, llm);
    }
  }

  /** The results in task order, as they are gathered. */
  function Gathered(b: Batch): seq<LlmResult>
    requires AllSettled(b)
  {
    seq(|b.tasks|, i requires 0 <= i < |b.tasks| => b.tasks[i].result)
  }

  /** However the requests interleaved, the gathered results pair up with the candidates they were asked for. */
  lemma ResultsBelongToTheirTasks(
    ids: seq<CandidateId>, capacity: nat, steps: seq<Step>, llm: CandidateId -> LlmResult)
    requires AllSettled(After(Start(ids, capacity), steps, llm))
    ensures Gathered(After(Start(ids, capacity), steps, llm)) == Map(ids, llm)
  {
    AfterIsValid(ids, capacity, steps, llm);
  }

  /** Sending the requests of a batch and gathering their results, whatever order the tasks move in. */
  method Gather(ids: seq<CandidateId>, keys: nat, perKey: nat, llm: CandidateId -> LlmResult)
    returns (results: seq<LlmResult>)
    requires perKey > 0
    ensures results == Map(ids, llm)
  {
    var capacity := Capacity(keys, perKey);
    CapacityPositiveIff(keys, perKey);
    var b := Start(ids, capacity);
    StartIsValid(ids, capacity, llm);
    while !AllSettled(b)
      invariant Valid(b, capacity, llm) && b.ids == ids
      decreases Left(b)
    {
      SomeStepAllowed(b, capacity, llm);
      var i :| 0 <= i < |b.tasks| && Movable(b, i);
      var step := if b.tasks[i] == Queued then Enter(i) else Settle(i);
      StepKeepsValid(b, step, capacity, llm);
      EveryStepProgresses(b, step, llm);
      b := Next(b, step, llm);
    }
    results := Gathered(b);
  }
}
