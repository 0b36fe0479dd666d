/**
 The eval runner's concurrent row dispatcher as a state machine over every schedule.

 One worker per dataset row, a counting semaphore with first-in-first-out waiters whose release hands the
 permit to the first waiter, and a stop flag. An event is one stretch of a worker between suspensions:
 its start up to queuing or scoring, its resumption with a permit, and the end of scoring, in which the
 permit is released and the flag set without a suspension in between.
 */
module Dispatcher {
  import opened Common

  datatype Row = Row(id: string, expected: string)

  datatype RowResult = RowResult(
    rowId: string,
    score: real,
    passed: bool,
    prediction: string,
    expected: string,
    metadata: map<string, string>,
    error: Option<string>
  )

  const FAIL_FAST_ERROR := "cancelled by fail_fast"

  function SkippedRow(row: Row): RowResult {
    RowResult(row.id, 0.0, false, "", row.expected, map["skipped" := "True"], Some(FAIL_FAST_ERROR))
  }

  /** What a row that was never scored is reported as: an error, no pass, no score and no prediction. */
  predicate IsPlaceholder(r: RowResult, row: Row) {
    && r.rowId == row.id && r.expected == row.expected
    && r.error == Some("cancelled by fail_fast") && !r.passed && r.score == 0.0 && r.prediction == ""
  }

  /** A run's fixed data. `scored[i]` is what scoring row `i` returns if that row is ever scored. */
  datatype Job = Job(rows: seq<Row>, scored: seq<RowResult>, parallelism: nat, failFast: bool)

  ghost predicate JobOk(job: Job) {
    |job.scored| == |job.rows| && 1 <= job.parallelism
  }

  datatype Worker = Unstarted | Queued | Granted | Scoring | Scored(result: RowResult) | Skipped

  datatype State = State(
    workers: seq<Worker>,
    next: nat,               // workers start in dataset order; this one is next
    free: nat,               // the semaphore's value
    queue: seq<nat>,         // its waiters, first in first out
    stop: bool,
    trigger: Option<nat>
  )

  datatype Event = Start | Resume(i: nat) | Finish(i: nat)

  function Init(job: Job): State {
    State(seq(|job.rows|, i => Unstarted), 0, job.parallelism, [], false, None)
  }

  predicate Enabled(job: Job, s: State, e: Event) {
    match e
    case Start => s.next < |s.workers|
    case Resume(i) => i < |s.workers| && s.workers[i].Granted?
    case Finish(i) => i < |s.workers| && s.workers[i].Scoring?
  }

  /** Give a permit back: to the first waiter if there is one. */
  function Release(workers: seq<Worker>, free: nat, queue: seq<nat>): (seq<Worker>, nat, seq<nat>) {
    if queue != [] && queue[0] < |workers| then (workers[queue[0] := Granted], free, queue[1..])
    else (workers, free + 1, queue)
  }

  function Next(job: Job, s: State, e: Event): State
    requires JobOk(job) && |s.workers| == |job.rows| && Enabled(job, s, e)
  {
    match e
    case Start =>
      if s.stop then
        s.(workers := s.workers[s.next := Skipped], next := s.next + 1)
      else if s.free > 0 && s.queue == [] then
        s.(workers := s.workers[s.next := Scoring], next := s.next + 1, free := s.free - 1)
      else
        s.(workers := s.workers[s.next := Queued], next := s.next + 1, queue := s.queue + [s.next])
    case Resume(i) =>
      if s.stop then
        var (workers, free, queue) := Release(s.workers[i := Skipped], s.free, s.queue);
        s.(workers := workers, free := free, queue := queue)
      else
        s.(workers := s.workers[i := Scoring])
    case Finish(i) =>
      var (workers, free, queue) := Release(s.workers[i := Scored(job.scored[i])], s.free, s.queue);
      var trips := job.failFast && !job.scored[i].passed;
      s.(workers := workers, free := free, queue := queue,
         stop := s.stop || trips,
         trigger := if trips && !s.stop then Some(i) else s.trigger)
  }

  ghost predicate Legal(job: Job, s: State, es: seq<Event>)
    requires JobOk(job) && |s.workers| == |job.rows|
    decreases es
  {
    es == [] || (Enabled(job, s, es[0]) && Legal(job, Next(job, s, es[0]), es[1..]))
  }

  ghost function Run(job: Job, s: State, es: seq<Event>): (s': State)
    requires JobOk(job) && |s.workers| == |job.rows| && Legal(job, s, es)
    ensures |s'.workers| == |job.rows|
    decreases es
  {
    if es == [] then s else Run(job, Next(job, s, es[0]), es[1..])
  }

  /** What `gather` returns once every worker is done: row `i`'s result at position `i`. */
  function Results(job: Job, s: State): seq<RowResult>
    requires |job.rows| == |s.workers|
  {
    seq(|s.workers|, i requires 0 <= i < |s.workers| =>
      if s.workers[i].Scored? then s.workers[i].result else SkippedRow(job.rows[i]))
  }

  predicate AllDone(s: State) {
    forall i :: 0 <= i < |s.workers| ==> s.workers[i].Scored? || s.workers[i].Skipped?
  }

  /* ---------- the invariant ---------- */

  function HoldsPermit(w: Worker): nat {
    if w.Granted? || w.Scoring? then 1 else 0
  }

  /** Counts a row that was scored and did not pass. */
  function FailedRow(w: Worker): nat {
    if w.Scored? && !w.result.passed then 1 else 0
  }

  function BeingScored(w: Worker): nat {
    if w.Scoring? then 1 else 0
  }

  /** Every permit is either free or held; waiters wait only while none is free. */
  ghost predicate PermitsOk(workers: seq<Worker>, parallelism: nat, free: nat, queue: seq<nat>) {
    && free + Sum(workers, HoldsPermit) == parallelism
    && (queue != [] ==> free == 0)
  }

  /** The queue lists exactly the waiting workers, and the workers from `next` on have not started. */
  ghost predicate QueueOk(workers: seq<Worker>, next: nat, queue: seq<nat>) {
    && next <= |workers|
    && Distinct(queue)
    && (forall k :: 0 <= k < |queue| ==> queue[k] < |workers| && workers[queue[k]].Queued?)
    && (forall i :: 0 <= i < |workers| && workers[i].Queued? ==> i in queue)
    && (forall i :: 0 <= i < |workers| ==> (workers[i].Unstarted? <==> next <= i))
  }

  /** The flag is set exactly when some scored row did not pass under `fail_fast`; only then are rows skipped. */
  ghost predicate StopOk(job: Job, workers: seq<Worker>, stop: bool, trigger: Option<nat>)
    requires |job.scored| == |workers|
  {
    && (stop <==> trigger.Some?)
    && (forall i :: 0 <= i < |workers| && workers[i].Scored? ==> workers[i].result == job.scored[i])
    && (trigger.Some? ==> (job.failFast && trigger.value < |workers| && FailedRow(workers[trigger.value]) == 1))
    && (job.failFast ==> forall i :: 0 <= i < |workers| && FailedRow(workers[i]) == 1 ==> stop)
    && (forall i :: 0 <= i < |workers| && workers[i].Skipped? ==> stop)
  }

  ghost predicate Inv(job: Job, s: State) {
    && JobOk(job) && |s.workers| == |job.rows|
    && PermitsOk(s.workers, job.parallelism, s.free, s.queue)
    && QueueOk(s.workers, s.next, s.queue)
    && StopOk(job, s.workers, s.stop, s.trigger)
  }

  lemma InitInv(job: Job)
    requires JobOk(job)
    ensures Inv(job, Init(job))
  {
    SumZero(Init(job).workers, HoldsPermit);
  }

  lemma ReleaseKeepsPermits(workers: seq<Worker>, parallelism: nat, free: nat, queue: seq<nat>)
    requires free + 1 + Sum(workers, HoldsPermit) == parallelism && (queue != [] ==> free == 0)
    requires forall k :: 0 <= k < |queue| ==> queue[k] < |workers| && workers[queue[k]].Queued?
    ensures var (w, f, q) := Release(workers, free, queue); PermitsOk(w, parallelism, f, q)
  {
    if queue != [] {
      SumUpdate(workers, queue[0], Granted, HoldsPermit);
    }
  }

  lemma ReleaseKeepsQueue(workers: seq<Worker>, next: nat, free: nat, queue: seq<nat>)
    requires QueueOk(workers, next, queue)
    ensures var (w, f, q) := Release(workers, free, queue); QueueOk(w, next, q)
  {
    if queue != [] {
      assert queue == [queue[0]] + queue[1..];
      assert forall k :: 0 <= k < |queue[1..]| ==> queue[1..][k] == queue[k + 1];
    }
  }

  lemma ReleaseKeepsStop(job: Job, workers: seq<Worker>, free: nat, queue: seq<nat>, stop: bool, trigger: Option<nat>)
    requires |job.scored| == |workers| && StopOk(job, workers, stop, trigger)
    requires forall k :: 0 <= k < |queue| ==> queue[k] < |workers| && workers[queue[k]].Queued?
    ensures StopOk(job, Release(workers, free, queue).0, stop, trigger)
  {
  }

  lemma StartKeeps(job: Job, s: State)
    requires Inv(job, s) && Enabled(job, s, Start)
    ensures Inv(job, Next(job, s, Start))
  {
    var s' := Next(job, s, Start);
    SumUpdate(s.workers, s.next, s'.workers[s.next], HoldsPermit);
    if s'.workers[s.next].Queued? && s.queue == [] {
      assert s.free == 0;
    }
    assert forall k :: 0 <= k < |s.queue| ==> s'.queue[k] == s.queue[k];
    assert s'.workers[s.next].Queued? ==> s'.queue[|s.queue|] == s.next;
  }

  lemma ResumeKeeps(job: Job, s: State, i: nat)
    requires Inv(job, s) && Enabled(job, s, Resume(i))
    ensures Inv(job, Next(job, s, Resume(i)))
  {
    var w := s.workers[i := if s.stop then Skipped else Scoring];
    SumUpdate(s.workers, i, w[i], HoldsPermit);
    assert QueueOk(w, s.next, s.queue);
    assert StopOk(job, w, s.stop, s.trigger);
    if s.stop {
      ReleaseKeepsPermits(w, job.parallelism, s.free, s.queue);
      ReleaseKeepsQueue(w, s.next, s.free, s.queue);
      ReleaseKeepsStop(job, w, s.free, s.queue, s.stop, s.trigger);
    }
  }

  lemma FinishKeeps(job: Job, s: State, i: nat)
    requires Inv(job, s) && Enabled(job, s, Finish(i))
    ensures Inv(job, Next(job, s, Finish(i)))
  {
    var s' := Next(job, s, Finish(i));
    var w := s.workers[i := Scored(job.scored[i])];
    SumUpdate(s.workers, i, Scored(job.scored[i]), HoldsPermit);
    assert QueueOk(w, s.next, s.queue);
    assert StopOk(job, w, s'.stop, s'.trigger);
    ReleaseKeepsPermits(w, job.parallelism, s.free, s.queue);
    ReleaseKeepsQueue(w, s.next, s.free, s.queue);
    ReleaseKeepsStop(job, w, s.free, s.queue, s'.stop, s'.trigger);
  }

  lemma StepKeepsInv(job: Job, s: State, e: Event)
    requires Inv(job, s) && Enabled(job, s, e)
    ensures Inv(job, Next(job, s, e))
  {
    match e
    case Start => StartKeeps(job, s);
    case Resume(i) => ResumeKeeps(job, s, i);
    case Finish(i) => FinishKeeps(job, s, i);
  }

  lemma {:induction false} RunKeepsInv(job: Job, s: State, es: seq<Event>)
    requires Inv(job, s) && Legal(job, s, es)
    ensures Inv(job, Run(job, s, es))
    decreases es
  {
    if es != [] {
      StepKeepsInv(job, s, es[0]);
      RunKeepsInv(job, Next(job, s, es[0]), es[1..]);
    }
  }
}
