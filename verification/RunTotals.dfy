/** What an evaluation run reports, from the schedule of its rows to the diff with a baseline. */
module RunTotals {
  import opened Common
  import opened Dispatcher
  import opened DispatchGuarantees
  import opened Baseline

  /** The rows that were scored, by what came of them, and the rows that were not. */
  function Passing(job: Job, s: State): set<int>
    requires |job.scored| == |s.workers|
  {
    set i | 0 <= i < |s.workers| && s.workers[i].Scored? && job.scored[i].passed && job.scored[i].error == None
  }

  function Failing(job: Job, s: State): set<int>
    requires |job.scored| == |s.workers|
  {
    set i | 0 <= i < |s.workers| && s.workers[i].Scored? && !job.scored[i].passed && job.scored[i].error == None
  }

  function Erring(job: Job, s: State): set<int>
    requires |job.scored| == |s.workers|
  {
    set i | 0 <= i < |s.workers| && s.workers[i].Scored? && job.scored[i].error != None
  }

  function NotScored(s: State): set<int> {
    set i | 0 <= i < |s.workers| && s.workers[i].Skipped?
  }

  /** The scores of the rows that were scored without an error, in dataset order. */
  function Counting(scored: seq<RowResult>, workers: seq<Worker>): seq<real>
    requires |scored| == |workers|
  {
    if scored == [] then []
    else (if workers[0].Scored? && scored[0].error == None then [scored[0].score] else []) + Counting(scored[1..], workers[1..])
  }

  /** `r` reports each row: its own score if it was scored, a placeholder if it was skipped. */
  ghost predicate Reports(r: seq<RowResult>, rows: seq<Row>, scored: seq<RowResult>, workers: seq<Worker>) {
    && |r| == |rows| == |scored| == |workers|
    && forall i :: 0 <= i < |r| ==>
         if workers[i].Scored? then r[i] == scored[i] else workers[i].Skipped? && IsPlaceholder(r[i], rows[i])
  }

  lemma {:induction false} ScoresAre(r: seq<RowResult>, rows: seq<Row>, scored: seq<RowResult>, workers: seq<Worker>)
    requires Reports(r, rows, scored, workers)
    ensures Scores(r) == Counting(scored, workers)
  {
    if r != [] {
      assert forall i :: 1 <= i < |r| ==>
               && r[i] == r[1..][i - 1] && rows[i] == rows[1..][i - 1]
               && scored[i] == scored[1..][i - 1] && workers[i] == workers[1..][i - 1];
      ScoresAre(r[1..], rows[1..], scored[1..], workers[1..]);
    }
  }

  /**
   The report of a finished run, in whatever order its rows were scored and wherever it was cut short: rows that were
   not scored count as errors and as nothing else, and the mean is that of the rows scored without an error.
   */
  lemma TotalsOfARun(job: Job, s: State)
    requires Reachable(job, s) && AllDone(s)
    ensures |s.workers| == |job.scored|
    ensures var report := Report(Results(job, s));
            var scores := Counting(job.scored, s.workers);
            && report.datasetSize == |job.rows|
            && report.passed == |Passing(job, s)|
            && report.failed == |Failing(job, s)|
            && report.errored == |Erring(job, s)| + |NotScored(s)|
            && report.meanScore == if scores == [] then 0.0 else Total(scores) / |scores| as real
  {
    ReachableInv(job, s);
    ResultsBelongToRows(job, s);
    var r := Results(job, s);
    assert Reports(r, job.rows, job.scored, s.workers);
    hide Report, Results, Inv, Reachable, Reports, Passing, Failing, Erring, NotScored, Scores, Counting, Total;
    TotalsCountRows(r);
    MeanOfScores(r);
    ScoresAre(r, job.rows, job.scored, s.workers);
    PassingRows(job, s, r);
    FailingRows(job, s, r);
    ErringRows(job, s, r);
  }

  lemma PassingRows(job: Job, s: State, r: seq<RowResult>)
    requires Reports(r, job.rows, job.scored, s.workers)
    ensures (set i | 0 <= i < |r| && r[i].passed && r[i].error == None) == Passing(job, s)
  {
  }

  lemma FailingRows(job: Job, s: State, r: seq<RowResult>)
    requires Reports(r, job.rows, job.scored, s.workers)
    ensures (set i | 0 <= i < |r| && !r[i].passed && r[i].error == None) == Failing(job, s)
  {
  }

  lemma ErringRows(job: Job, s: State, r: seq<RowResult>)
    requires Reports(r, job.rows, job.scored, s.workers)
    ensures |set i | 0 <= i < |r| && r[i].error != None| == |Erring(job, s)| + |NotScored(s)|
  {
    assert (set i | 0 <= i < |r| && r[i].error != None) == Erring(job, s) + NotScored(s);
  }

  /** Scoring a row yields a result under that row's id. */
  predicate OwnIds(job: Job) {
    |job.scored| == |job.rows| && forall i :: 0 <= i < |job.rows| ==> job.scored[i].rowId == job.rows[i].id
  }

  /** Every result carries the id of the row at its place, whether the row was scored or not. */
  lemma ResultsCarryTheirIds(job: Job, s: State)
    requires Reachable(job, s) && AllDone(s) && OwnIds(job)
    ensures |Results(job, s)| == |job.rows|
    ensures forall i :: 0 <= i < |job.rows| ==> Results(job, s)[i].rowId == job.rows[i].id
  {
    ResultsBelongToRows(job, s);
  }

  /**
   A run that was cut short does not look clean in the diff: no skipped row is among the clean ids, and every skipped
   row that was clean in the baseline is listed as regressed.
   */
  lemma SkippedRowsRegress(job: Job, s: State, base: seq<RowResult>, i: nat)
    requires Reachable(job, s) && AllDone(s) && OwnIds(job) && UniqueIds(base)
    requires forall j, k :: 0 <= j < k < |job.rows| ==> job.rows[j].id != job.rows[k].id
    requires i < |s.workers| == |job.rows| && s.workers[i].Skipped?
    ensures job.rows[i].id !in CleanIds(ById(Results(job, s)))
    ensures (exists j :: 0 <= j < |base| && base[j].rowId == job.rows[i].id && base[j].passed && base[j].error == None)
            ==> job.rows[i].id in DiffReports(Report(base), Report(Results(job, s))).regressed
  {
    ResultsBelongToRows(job, s);
    ResultsCarryTheirIds(job, s);
    var r := Results(job, s);
    hide Results, Inv, Reachable;
    assert UniqueIds(r);
    ByIdOf(r);
    ByIdOf(base);
    assert r[i].rowId in ById(r) && ById(r)[r[i].rowId] == r[i];
  }
}
