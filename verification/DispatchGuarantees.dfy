/** What every schedule of the dispatcher guarantees. */
module DispatchGuarantees {
  import opened Common
  import opened Dispatcher

  ghost predicate Reachable(job: Job, s: State) {
    JobOk(job) && exists es: seq<Event> :: Legal(job, Init(job), es) && Run(job, Init(job), es) == s
  }

  lemma ReachableInv(job: Job, s: State)
    requires Reachable(job, s)
    ensures Inv(job, s)
  {
    var es: seq<Event> :| Legal(job, Init(job), es) && Run(job, Init(job), es) == s;
    InitInv(job);
    RunKeepsInv(job, Init(job), es);
  }

  /** Never more than `parallelism` rows are being scored. */
  lemma AtMostParallelismInFlight(job: Job, s: State)
    requires Reachable(job, s)
    ensures Sum(s.workers, BeingScored) <= Sum(s.workers, HoldsPermit) <= job.parallelism
  {
    ReachableInv(job, s);
    SumMonotone(s.workers, BeingScored, HoldsPermit);
  }

  /** Once the flag is set no further row starts scoring, it stays set, and the row that set it stays the trigger. */
  lemma {:induction false} NothingStartsAfterStop(job: Job, s: State, es: seq<Event>, i: nat)
    requires Inv(job, s) && s.stop && Legal(job, s, es) && i < |s.workers|
    requires !s.workers[i].Scoring? && !s.workers[i].Scored?
    ensures Run(job, s, es).stop && Run(job, s, es).trigger == s.trigger
    ensures !Run(job, s, es).workers[i].Scoring? && !Run(job, s, es).workers[i].Scored?
    decreases es
  {
    if es != [] {
      StepKeepsInv(job, s, es[0]);
      NothingStartsAfterStop(job, Next(job, s, es[0]), es[1..], i);
    }
  }

  /** The flag is set by a row that did not pass, while at most `parallelism - 1` other rows are in flight. */
  lemma TripLeavesFewInFlight(job: Job, s: State, e: Event)
    requires Reachable(job, s) && Enabled(job, s, e) && !s.stop && Next(job, s, e).stop
    ensures e.Finish? && job.failFast && !job.scored[e.i].passed
    ensures Next(job, s, e).trigger == Some(e.i)
    ensures Sum(Next(job, s, e).workers, BeingScored) <= job.parallelism - 1
  {
    ReachableInv(job, s);
    AtMostParallelismInFlight(job, s);
    SumUpdate(s.workers, e.i, Scored(job.scored[e.i]), BeingScored);
    if s.queue != [] {
      SumUpdate(s.workers[e.i := Scored(job.scored[e.i])], s.queue[0], Granted, BeingScored);
    }
  }

  /** Failing rows paid for so far, plus those that may still turn out failing, never exceed `parallelism`. */
  ghost predicate BudgetOk(job: Job, s: State) {
    Sum(s.workers, FailedRow) + (if s.stop then Sum(s.workers, BeingScored) else 0) <= job.parallelism
    && (!s.stop ==> Sum(s.workers, FailedRow) == 0)
  }

  lemma ReleaseCounts(workers: seq<Worker>, free: nat, queue: seq<nat>)
    requires forall k :: 0 <= k < |queue| ==> queue[k] < |workers| && workers[queue[k]].Queued?
    ensures var w := Release(workers, free, queue).0;
            Sum(w, FailedRow) == Sum(workers, FailedRow) && Sum(w, BeingScored) == Sum(workers, BeingScored)
  {
    if queue != [] {
      SumUpdate(workers, queue[0], Granted, FailedRow);
      SumUpdate(workers, queue[0], Granted, BeingScored);
    }
  }

  lemma StepKeepsBudget(job: Job, s: State, e: Event)
    requires Inv(job, s) && job.failFast && BudgetOk(job, s) && Enabled(job, s, e)
    ensures BudgetOk(job, Next(job, s, e))
  {
    var s' := Next(job, s, e);
    var i := if e.Start? then s.next else e.i;
    var w := if e.Finish? then Scored(job.scored[i]) else if s.stop then Skipped else s'.workers[i];
    SumUpdate(s.workers, i, w, FailedRow);
    SumUpdate(s.workers, i, w, BeingScored);
    SumMonotone(s.workers, BeingScored, HoldsPermit);
    if e.Finish? || (e.Resume? && s.stop) {
      ReleaseCounts(s.workers[i := w], s.free, s.queue);
    }
  }

  lemma {:induction false} RunKeepsBudget(job: Job, s: State, es: seq<Event>)
    requires Inv(job, s) && job.failFast && BudgetOk(job, s) && Legal(job, s, es)
    ensures BudgetOk(job, Run(job, s, es))
    decreases es
  {
    if es != [] {
      StepKeepsInv(job, s, es[0]);
      StepKeepsBudget(job, s, es[0]);
      RunKeepsBudget(job, Next(job, s, es[0]), es[1..]);
    }
  }

  /** Under `fail_fast` at most `parallelism` rows that do not pass are ever scored. */
  lemma FailFastBoundsFailures(job: Job, s: State)
    requires Reachable(job, s) && job.failFast
    ensures Sum(s.workers, FailedRow) <= job.parallelism
  {
    var es: seq<Event> :| Legal(job, Init(job), es) && Run(job, Init(job), es) == s;
    InitInv(job);
    SumZero(Init(job).workers, FailedRow);
    RunKeepsBudget(job, Init(job), es);
  }

  /* ---------- every schedule finishes ---------- */

  function WorkerWork(w: Worker): nat {
    match w
    case Unstarted => 4
    case Queued => 3
    case Granted => 2
    case Scoring => 1
    case Scored(_) => 0
    case Skipped => 0
  }

  lemma StepWorks(job: Job, s: State, e: Event)
    requires Inv(job, s) && Enabled(job, s, e)
    ensures Sum(Next(job, s, e).workers, WorkerWork) < Sum(s.workers, WorkerWork)
  {
    var s' := Next(job, s, e);
    var i := if e.Start? then s.next else e.i;
    var w := if e.Finish? then Scored(job.scored[i]) else if s.stop then Skipped else s'.workers[i];
    SumUpdate(s.workers, i, w, WorkerWork);
    if (e.Finish? || (e.Resume? && s.stop)) && s.queue != [] {
      SumUpdate(s.workers[i := w], s.queue[0], Granted, WorkerWork);
    }
  }

  lemma {:induction false} EventsLowerWork(job: Job, s: State, es: seq<Event>)
    requires Inv(job, s) && Legal(job, s, es)
    ensures |es| + Sum(Run(job, s, es).workers, WorkerWork) <= Sum(s.workers, WorkerWork)
    decreases es
  {
    if es != [] {
      StepKeepsInv(job, s, es[0]);
      StepWorks(job, s, es[0]);
      EventsLowerWork(job, Next(job, s, es[0]), es[1..]);
    }
  }

  lemma {:induction false} UnstartedWork(workers: seq<Worker>)
    requires forall i :: 0 <= i < |workers| ==> workers[i] == Unstarted
    ensures Sum(workers, WorkerWork) == 4 * |workers|
  {
    if workers != [] {
      UnstartedWork(workers[1..]);
    }
  }

  /** No schedule of `n` rows has more than `4 n` events. */
  lemma SchedulesAreBounded(job: Job, es: seq<Event>)
    requires JobOk(job) && Legal(job, Init(job), es)
    ensures |es| <= 4 * |job.rows|
  {
    InitInv(job);
    EventsLowerWork(job, Init(job), es);
    UnstartedWork(Init(job).workers);
  }

  /** Nothing gets stuck: until every worker is done, some event is possible. */
  lemma NoStuckState(job: Job, s: State) returns (e: Event)
    requires Reachable(job, s) && !AllDone(s)
    ensures Enabled(job, s, e)
  {
    ReachableInv(job, s);
    if s.next < |s.workers| {
      e := Start;
    } else {
      var i :| 0 <= i < |s.workers| && !s.workers[i].Scored? && !s.workers[i].Skipped?;
      if s.workers[i].Queued? {
        assert s.free == 0;
        i := SumWitness(s.workers, HoldsPermit);
      }
      e := if s.workers[i].Granted? then Resume(i) else Finish(i);
    }
  }

  /* ---------- what comes back ---------- */

  /** Row `i`'s result is its own score or its own placeholder, and rows are skipped only after a failure. */
  lemma ResultsBelongToRows(job: Job, s: State)
    requires Reachable(job, s) && AllDone(s)
    ensures var r := Results(job, s);
            && |r| == |job.rows|
            && (forall i :: 0 <= i < |r| ==>
                  if s.workers[i].Scored? then r[i] == job.scored[i]
                  else s.workers[i].Skipped? && IsPlaceholder(r[i], job.rows[i]))
            && ((exists i :: 0 <= i < |r| && s.workers[i].Skipped?) ==>
                job.failFast && s.trigger.Some? && s.trigger.value < |r|
                && r[s.trigger.value] == job.scored[s.trigger.value] && !r[s.trigger.value].passed)
  {
    ReachableInv(job, s);
  }

  /** Without a failure to act on, every schedule returns exactly what the sequential loop returns. */
  lemma RefinesSequentialLoop(job: Job, s: State)
    requires Reachable(job, s) && AllDone(s)
    requires !job.failFast || forall i :: 0 <= i < |job.scored| ==> job.scored[i].passed
    ensures Results(job, s) == job.scored
  {
    ReachableInv(job, s);
  }

  /* ---------- one permit: dataset order ---------- */

  /** The loop a reader expects of `fail_fast` with one row at a time. */
  function FailFastLoop(rows: seq<Row>, scored: seq<RowResult>, stopped: bool): seq<RowResult>
    requires |rows| == |scored|
  {
    if rows == [] then []
    else if stopped then [SkippedRow(rows[0])] + FailFastLoop(rows[1..], scored[1..], true)
    else [scored[0]] + FailFastLoop(rows[1..], scored[1..], !scored[0].passed)
  }

  /** The index of the first row that does not pass; the length if all pass. */
  function FirstFailing(scored: seq<RowResult>): nat {
    if scored == [] || !scored[0].passed then 0 else 1 + FirstFailing(scored[1..])
  }

  lemma {:induction false} FirstFailingOf(scored: seq<RowResult>)
    ensures FirstFailing(scored) <= |scored|
    ensures forall i :: 0 <= i < FirstFailing(scored) ==> scored[i].passed
    ensures FirstFailing(scored) < |scored| ==> !scored[FirstFailing(scored)].passed
  {
    if scored != [] && scored[0].passed {
      FirstFailingOf(scored[1..]);
      assert forall i :: 1 <= i < |scored| ==> scored[i] == scored[1..][i - 1];
    }
  }

  lemma {:induction false} LoopCases(rows: seq<Row>, scored: seq<RowResult>, stopped: bool)
    requires |rows| == |scored|
    ensures var r := FailFastLoop(rows, scored, stopped);
            && |r| == |rows|
            && forall i :: 0 <= i < |rows| ==>
                 r[i] == if !stopped && i <= FirstFailing(scored) then scored[i] else SkippedRow(rows[i])
  {
    if rows != [] {
      LoopCases(rows[1..], scored[1..], stopped || !scored[0].passed);
      var r := FailFastLoop(rows, scored, stopped);
      assert r[1..] == FailFastLoop(rows[1..], scored[1..], stopped || !scored[0].passed);
      assert forall i :: 1 <= i < |rows| ==> r[i] == r[1..][i - 1] && scored[i] == scored[1..][i - 1] && rows[i] == rows[1..][i - 1];
    }
  }

  /** Scored up to the first row that does not pass, and from there on nothing but placeholders. */
  lemma FailFastLoopIs(rows: seq<Row>, scored: seq<RowResult>, stopped: bool)
    requires |rows| == |scored|
    ensures var r := FailFastLoop(rows, scored, stopped);
            && |r| == |rows|
            && forall i :: 0 <= i < |rows| ==>
                 if !stopped && (forall j :: 0 <= j < i ==> scored[j].passed) then r[i] == scored[i]
                 else IsPlaceholder(r[i], rows[i])
  {
    LoopCases(rows, scored, stopped);
    FirstFailingOf(scored);
  }

  function Range(lo: nat, hi: nat): seq<nat>
    requires lo <= hi
  {
    seq(hi - lo, i requires 0 <= i < hi - lo => lo + i)
  }

  /**
   With one permit: rows before `head` are done, `head` holds the permit (if anyone does), the rows from
   there up to `tail` queue in order, and the rows from `tail` to `next` were skipped on arrival.
   */
  ghost predicate LaneOk(job: Job, s: State, head: nat, tail: nat)
    requires |s.workers| == |job.rows| == |job.scored|
  {
    var first := FirstFailing(job.scored);
    && head <= tail <= s.next <= |s.workers|
    && (if s.free == 0 then
          head < tail && HoldsPermit(s.workers[head]) == 1 && s.queue == Range(head + 1, tail)
        else
          s.free == 1 && head == tail == s.next && s.queue == [])
    && (forall i :: 0 <= i < head ==> s.workers[i] == if i <= first then Scored(job.scored[i]) else Skipped)
    && (forall i :: tail <= i < s.next ==> s.workers[i] == Skipped)
    && (s.stop <==> first < head)
    && (tail < s.next ==> s.stop)
    && (head < tail && s.workers[head].Scoring? ==> head <= first)
  }

  /** With the single permit held by `head`, no other worker can resume or finish. */
  lemma OnlyHeadMoves(job: Job, s: State, head: nat, tail: nat, i: nat)
    requires Inv(job, s) && job.parallelism == 1 && LaneOk(job, s, head, tail)
    requires i < |s.workers| && HoldsPermit(s.workers[i]) == 1
    ensures i == head && s.free == 0
  {
    SumAtLeast(s.workers, i, HoldsPermit);
    if i < head {
      SumAtLeastTwo(s.workers, i, head, HoldsPermit);
    } else if head < i {
      SumAtLeastTwo(s.workers, head, i, HoldsPermit);
    }
  }

  lemma StartKeepsLane(job: Job, s: State, head: nat, tail: nat) returns (head': nat, tail': nat)
    requires Inv(job, s) && job.parallelism == 1 && LaneOk(job, s, head, tail) && Enabled(job, s, Start)
    ensures LaneOk(job, Next(job, s, Start), head', tail')
  {
    FirstFailingOf(job.scored);
    if s.stop {
      head', tail' := if s.free == 1 then head + 1 else head, if s.free == 1 then tail + 1 else tail;
    } else {
      head', tail' := head, tail + 1;
      if s.free == 0 {
        assert s.queue + [tail] == Range(head + 1, tail + 1);
      }
    }
  }

  /** The head leaves the lane: the next queued row gets the permit, or the permit becomes free. */
  lemma HeadLeaves(job: Job, s: State, head: nat, tail: nat, w: Worker, stop: bool, trigger: Option<nat>)
    returns (s': State, head': nat, tail': nat)
    requires |s.workers| == |job.rows| == |job.scored| && LaneOk(job, s, head, tail) && s.free == 0
    requires w == if head <= FirstFailing(job.scored) then Scored(job.scored[head]) else Skipped
    requires stop <==> FirstFailing(job.scored) <= head
    requires forall i :: head < i < tail ==> s.workers[i].Queued?
    ensures s' == (var (workers, free, queue) := Release(s.workers[head := w], s.free, s.queue);
                   s.(workers := workers, free := free, queue := queue, stop := stop, trigger := trigger))
    ensures LaneOk(job, s', head', tail')
  {
    var (workers, free, queue) := Release(s.workers[head := w], s.free, s.queue);
    s' := s.(workers := workers, free := free, queue := queue, stop := stop, trigger := trigger);
    if s.queue == [] {
      assert |Range(head + 1, tail)| == 0;
      head', tail' := s.next, s.next;
    } else {
      assert s.queue[0] == head + 1;
      assert s.queue[1..] == Range(head + 2, tail);
      head', tail' := head + 1, tail;
    }
  }

  lemma StepKeepsLane(job: Job, s: State, e: Event, head: nat, tail: nat) returns (head': nat, tail': nat)
    requires Inv(job, s) && job.parallelism == 1 && job.failFast && LaneOk(job, s, head, tail) && Enabled(job, s, e)
    ensures |Next(job, s, e).workers| == |job.rows| && LaneOk(job, Next(job, s, e), head', tail')
  {
    FirstFailingOf(job.scored);
    if e.Start? {
      head', tail' := StartKeepsLane(job, s, head, tail);
    } else {
      OnlyHeadMoves(job, s, head, tail, e.i);
      if e.Resume? && !s.stop {
        head', tail' := head, tail;
      } else {
        forall i | head < i < tail ensures s.workers[i].Queued? {
          assert s.queue[i - head - 1] == i;
        }
        var s', h, t := HeadLeaves(job, s, head, tail, if e.Finish? then Scored(job.scored[head]) else Skipped,
                                   Next(job, s, e).stop, Next(job, s, e).trigger);
        assert s' == Next(job, s, e);
        head', tail' := h, t;
      }
    }
  }

  lemma {:induction false} RunKeepsLane(job: Job, s: State, es: seq<Event>, head: nat, tail: nat)
    returns (head': nat, tail': nat)
    requires Inv(job, s) && job.parallelism == 1 && job.failFast && LaneOk(job, s, head, tail) && Legal(job, s, es)
    ensures LaneOk(job, Run(job, s, es), head', tail')
    decreases es
  {
    if es == [] {
      head', tail' := head, tail;
    } else {
      var h, t := StepKeepsLane(job, s, es[0], head, tail);
      StepKeepsInv(job, s, es[0]);
      head', tail' := RunKeepsLane(job, Next(job, s, es[0]), es[1..], h, t);
    }
  }

  /** One row at a time under `fail_fast`: every schedule returns what the plain loop with an early stop returns. */
  lemma OnePermitRefinesFailFastLoop(job: Job, s: State)
    requires Reachable(job, s) && AllDone(s) && job.parallelism == 1 && job.failFast
    ensures Results(job, s) == FailFastLoop(job.rows, job.scored, false)
  {
    var es: seq<Event> :| Legal(job, Init(job), es) && Run(job, Init(job), es) == s;
    InitInv(job);
    ReachableInv(job, s);
    var head, tail := RunKeepsLane(job, Init(job), es, 0, 0);
    LoopCases(job.rows, job.scored, false);
  }
}
