/** The totals of an evaluation report and the diff of two reports. Listing order of ids is not modelled. */
module Baseline {
  import opened Common
  import opened Dispatcher

  datatype EvalReport = EvalReport(
    datasetSize: int,
    passed: int,
    failed: int,
    errored: int,
    meanScore: real,
    rows: seq<RowResult>
  )

  predicate IsCleanPass(r: RowResult) {
    r.passed && r.error == None
  }

  function CleanPass(r: RowResult): nat {
    if IsCleanPass(r) then 1 else 0
  }

  function Errored(r: RowResult): nat {
    if r.error != None then 1 else 0
  }

  function PlainFailure(r: RowResult): nat {
    if !r.passed && r.error == None then 1 else 0
  }

  /** The scores of the rows without an error, added up. */
  function ScoreSum(rows: seq<RowResult>): real {
    if rows == [] then 0.0
    else (if rows[0].error == None then rows[0].score else 0.0) + ScoreSum(rows[1..])
  }

  function Report(rows: seq<RowResult>): EvalReport {
    var passed := Sum(rows, CleanPass);
    var errored := Sum(rows, Errored);
    var scored := |rows| - errored;
    EvalReport(|rows|, passed, |rows| - passed - errored, errored,
               if scored == 0 then 0.0 else ScoreSum(rows) / scored as real, rows)
  }

  /** Each row falls in exactly one of the three totals; `failed` is the rows that ran and did not pass. */
  lemma {:induction false} TotalsPartitionRows(rows: seq<RowResult>)
    ensures var r := Report(rows);
            && r.passed + r.failed + r.errored == r.datasetSize == |rows|
            && r.failed == Sum(rows, PlainFailure)
  {
    if rows != [] {
      TotalsPartitionRows(rows[1..]);
    }
  }

  lemma {:induction false} ScoreSumBounds(rows: seq<RowResult>, lo: real, hi: real)
    requires forall i :: 0 <= i < |rows| && rows[i].error == None ==> lo <= rows[i].score <= hi
    ensures Sum(rows, Errored) <= |rows|
    ensures Between(|rows| - Sum(rows, Errored), lo, hi, ScoreSum(rows))
  {
    hide Between;
    if rows == [] {
      NoScore(lo, hi);
    } else {
      ScoreSumBounds(rows[1..], lo, hi);
      if rows[0].error == None {
        OneMoreScore(|rows[1..]| - Sum(rows[1..], Errored), lo, hi, ScoreSum(rows[1..]), rows[0].score);
      }
    }
  }

  /** `total` lies between `n` times `lo` and `n` times `hi`. */
  predicate Between(n: nat, lo: real, hi: real, total: real) {
    n as real * lo <= total <= n as real * hi
  }

  lemma NoScore(lo: real, hi: real)
    ensures Between(0, lo, hi, 0.0)
  {
  }

  lemma OneMoreScore(n: nat, lo: real, hi: real, total: real, score: real)
    requires Between(n, lo, hi, total) && lo <= score <= hi
    ensures Between(n + 1, lo, hi, score + total)
  {
    var x := n as real;
    assert (n + 1) as real == x + 1.0;
    assert (x + 1.0) * lo == x * lo + lo && (x + 1.0) * hi == x * hi + hi;
  }

  lemma QuotientBounds(total: real, n: nat, lo: real, hi: real)
    requires n > 0 && Between(n, lo, hi, total)
    ensures lo <= total / n as real <= hi
  {
  }

  /** The mean lies between the scores it averages, whatever rows errored or were skipped. */
  lemma MeanBetweenScores(rows: seq<RowResult>, lo: real, hi: real)
    requires forall i :: 0 <= i < |rows| && rows[i].error == None ==> lo <= rows[i].score <= hi
    ensures Sum(rows, Errored) < |rows| ==> lo <= Report(rows).meanScore <= hi
    ensures Sum(rows, Errored) == |rows| ==> Report(rows).meanScore == 0.0
  {
    hide Between, ScoreSum, Sum;
    ScoreSumBounds(rows, lo, hi);
    if Sum(rows, Errored) < |rows| {
      QuotientBounds(ScoreSum(rows), |rows| - Sum(rows, Errored), lo, hi);
    }
  }

  /* ---------- the totals by counting rows ---------- */

  /** A sum of zeros and ones counts the places with a one. */
  lemma {:induction false} SumCounts<T>(s: seq<T>, f: T -> nat, places: set<int>)
    requires forall i :: 0 <= i < |s| ==> f(s[i]) <= 1
    requires forall i :: i in places <==> 0 <= i < |s| && f(s[i]) == 1
    ensures Sum(s, f) == |places|
  {
    if s == [] {
      assert forall i :: i !in places;
    } else {
      var rest, last := s[..|s| - 1], |s| - 1;
      SumCounts(rest, f, places - {last});
      assert f(s[last]) == 1 ==> places == (places - {last}) + {last};
      assert s == rest + [s[last]];
      SumAppend(rest, [s[last]], f);
      SumSingle(s[last], f);
    }
  }

  lemma CleanCount(rows: seq<RowResult>)
    ensures Sum(rows, CleanPass) == |set i | 0 <= i < |rows| && rows[i].passed && rows[i].error == None|
  {
    SumCounts(rows, CleanPass, set i | 0 <= i < |rows| && rows[i].passed && rows[i].error == None);
  }

  lemma ErrorCount(rows: seq<RowResult>)
    ensures Sum(rows, Errored) == |set i | 0 <= i < |rows| && rows[i].error != None|
  {
    SumCounts(rows, Errored, set i | 0 <= i < |rows| && rows[i].error != None);
  }

  lemma FailureCount(rows: seq<RowResult>)
    ensures Sum(rows, PlainFailure) == |set i | 0 <= i < |rows| && !rows[i].passed && rows[i].error == None|
  {
    SumCounts(rows, PlainFailure, set i | 0 <= i < |rows| && !rows[i].passed && rows[i].error == None);
  }

  /** Each total is the number of rows it is about. */
  lemma TotalsCountRows(rows: seq<RowResult>)
    ensures var r := Report(rows);
            && r.datasetSize == |rows|
            && r.passed == |set i | 0 <= i < |rows| && rows[i].passed && rows[i].error == None|
            && r.errored == |set i | 0 <= i < |rows| && rows[i].error != None|
            && r.failed == |set i | 0 <= i < |rows| && !rows[i].passed && rows[i].error == None|
  {
    hide Sum, ScoreSum;
    CleanCount(rows);
    ErrorCount(rows);
    FailureCount(rows);
    TotalsPartitionRows(rows);
  }

  function Total(scores: seq<real>): real {
    if scores == [] then 0.0 else scores[0] + Total(scores[1..])
  }

  /** The scores that count: those of the rows without an error. */
  function Scores(rows: seq<RowResult>): seq<real> {
    if rows == [] then [] else (if rows[0].error == None then [rows[0].score] else []) + Scores(rows[1..])
  }

  lemma {:induction false} ScoreSumIsTotal(rows: seq<RowResult>)
    ensures Sum(rows, Errored) + |Scores(rows)| == |rows| && ScoreSum(rows) == Total(Scores(rows))
  {
    if rows != [] {
      ScoreSumIsTotal(rows[1..]);
      if rows[0].error == None {
        assert ([rows[0].score] + Scores(rows[1..]))[1..] == Scores(rows[1..]);
      } else {
        assert [] + Scores(rows[1..]) == Scores(rows[1..]);
      }
    }
  }

  /** The mean is that of the scores that count, and zero if none does. */
  lemma MeanOfScores(rows: seq<RowResult>)
    ensures Report(rows).meanScore
         == if Scores(rows) == [] then 0.0 else Total(Scores(rows)) / |Scores(rows)| as real
  {
    ScoreSumIsTotal(rows);
  }

  lemma {:induction false} ScoresAppend(a: seq<RowResult>, b: seq<RowResult>)
    ensures Scores(a + b) == Scores(a) + Scores(b)
  {
    if a == [] {
      assert a + b == b;
    } else {
      assert (a + b)[1..] == a[1..] + b;
      ScoresAppend(a[1..], b);
      var first := if a[0].error == None then [a[0].score] else [];
      assert first + (Scores(a[1..]) + Scores(b)) == (first + Scores(a[1..])) + Scores(b);
    }
  }

  lemma {:induction false} TotalAppend(x: seq<real>, y: seq<real>)
    ensures Total(x + y) == Total(x) + Total(y)
  {
    if x == [] {
      assert x + y == y;
    } else {
      assert (x + y)[1..] == x[1..] + y;
      TotalAppend(x[1..], y);
    }
  }

  function Times(mean: real, n: nat): real {
    mean * n as real
  }

  /** Two runs taken as one: their scores add up, so the mean of both is the weighted mean of the two. */
  lemma MeansCombine(a: seq<RowResult>, b: seq<RowResult>)
    ensures ScoreSum(a + b) == ScoreSum(a) + ScoreSum(b)
    ensures Times(Report(a + b).meanScore, |Scores(a)| + |Scores(b)|)
         == Times(Report(a).meanScore, |Scores(a)|) + Times(Report(b).meanScore, |Scores(b)|)
  {
    hide Report, ScoreSum, Scores, Total, Times;
    ScoresAppend(a, b);
    TotalAppend(Scores(a), Scores(b));
    ScoreSumIsTotal(a);
    ScoreSumIsTotal(b);
    ScoreSumIsTotal(a + b);
    MeanTimesCount(a);
    MeanTimesCount(b);
    MeanTimesCount(a + b);
  }

  lemma MeanTimesCount(rows: seq<RowResult>)
    ensures Times(Report(rows).meanScore, |Scores(rows)|) == ScoreSum(rows)
  {
    ScoreSumIsTotal(rows);
  }

  /* ---------- the diff ---------- */

  datatype ReportDiff = ReportDiff(
    meanScoreDelta: real,
    passRateDelta: real,
    passedDelta: int,
    failedDelta: int,
    erroredDelta: int,
    regressed: set<string>,
    added: set<string>,
    dropped: set<string>
  )

  function PassRate(r: EvalReport): real {
    if r.datasetSize == 0 then 0.0 else r.passed as real / r.datasetSize as real
  }

  /** Rows by id; a later row replaces an earlier one of the same id. */
  function ById(rows: seq<RowResult>): map<string, RowResult> {
    if rows == [] then map[]
    else ById(rows[..|rows| - 1])[rows[|rows| - 1].rowId := rows[|rows| - 1]]
  }

  function DiffReports(baseline: EvalReport, current: EvalReport): ReportDiff {
    var base := ById(baseline.rows);
    var cur := ById(current.rows);
    ReportDiff(
      current.meanScore - baseline.meanScore,
      PassRate(current) - PassRate(baseline),
      current.passed - baseline.passed,
      current.failed - baseline.failed,
      current.errored - baseline.errored,
      (set id | id in base.Keys * cur.Keys && IsCleanPass(base[id]) && !IsCleanPass(cur[id])),
      cur.Keys - base.Keys,
      base.Keys - cur.Keys)
  }

  /** Read from the other side every delta changes its sign, and what was added has been dropped. */
  lemma DiffIsAntisymmetric(a: EvalReport, b: EvalReport)
    ensures var d, e := DiffReports(a, b), DiffReports(b, a);
            && d.meanScoreDelta == -e.meanScoreDelta && d.passRateDelta == -e.passRateDelta
            && d.passedDelta == -e.passedDelta && d.failedDelta == -e.failedDelta && d.erroredDelta == -e.erroredDelta
            && d.added == e.dropped && d.dropped == e.added && d.regressed !! e.regressed
  {
  }

  /** Over a third report in between, the deltas add up. */
  lemma DeltasAddUp(a: EvalReport, b: EvalReport, c: EvalReport)
    ensures var d, e, f := DiffReports(a, b), DiffReports(b, c), DiffReports(a, c);
            && f.meanScoreDelta == d.meanScoreDelta + e.meanScoreDelta
            && f.passRateDelta == d.passRateDelta + e.passRateDelta
            && f.passedDelta == d.passedDelta + e.passedDelta
            && f.failedDelta == d.failedDelta + e.failedDelta
            && f.erroredDelta == d.erroredDelta + e.erroredDelta
  {
  }

  /** The counted rows of a report. */
  ghost function Where(rows: seq<RowResult>, p: RowResult -> bool): set<int> {
    set i | 0 <= i < |rows| && p(rows[i])
  }

  /** What the deltas say of the two runs: how many more rows pass, fail and end in an error; a negative one is a loss. */
  lemma DeltasCountRows(base: seq<RowResult>, cur: seq<RowResult>)
    ensures var d := DiffReports(Report(base), Report(cur));
            var passing := (r: RowResult) => r.passed && r.error == None;
            var failing := (r: RowResult) => !r.passed && r.error == None;
            var erring := (r: RowResult) => r.error != None;
            && d.passedDelta == |Where(cur, passing)| - |Where(base, passing)|
            && d.failedDelta == |Where(cur, failing)| - |Where(base, failing)|
            && d.erroredDelta == |Where(cur, erring)| - |Where(base, erring)|
            && d.passedDelta + d.failedDelta + d.erroredDelta == |cur| - |base|
            && (d.meanScoreDelta > 0.0 <==> Report(cur).meanScore > Report(base).meanScore)
            && (d.meanScoreDelta < 0.0 <==> Report(cur).meanScore < Report(base).meanScore)
  {
    TotalsCountRows(base);
    TotalsCountRows(cur);
    CountedOne(base);
    CountedOne(cur);
  }

  lemma CountedOne(rows: seq<RowResult>)
    ensures Where(rows, (r: RowResult) => r.passed && r.error == None)
         == set i | 0 <= i < |rows| && rows[i].passed && rows[i].error == None
    ensures Where(rows, (r: RowResult) => !r.passed && r.error == None)
         == set i | 0 <= i < |rows| && !rows[i].passed && rows[i].error == None
    ensures Where(rows, (r: RowResult) => r.error != None) == set i | 0 <= i < |rows| && rows[i].error != None
  {
  }

  /** The pass rate went up exactly if the share of passing rows did, compared by cross-multiplying. */
  lemma PassRateSign(base: seq<RowResult>, cur: seq<RowResult>)
    requires base != [] && cur != []
    ensures var d := DiffReports(Report(base), Report(cur));
            var p, q := Report(base).passed, Report(cur).passed;
            && (d.passRateDelta > 0.0 <==> q * |base| > p * |cur|)
            && (d.passRateDelta < 0.0 <==> q * |base| < p * |cur|)
  {
    CompareQuotients(Report(base).passed, |base|, Report(cur).passed, |cur|);
  }

  lemma CompareQuotients(p: int, m: nat, q: int, n: nat)
    requires m > 0 && n > 0
    ensures q as real / n as real > p as real / m as real <==> q * m > p * n
    ensures q as real / n as real < p as real / m as real <==> q * m < p * n
  {
    var a, b := p as real / m as real, q as real / n as real;
    var k := m as real * n as real;
    assert a * m as real == p as real && b * n as real == q as real;
    assert a * k == (p * n) as real by { assert a * k == (a * m as real) * n as real; }
    assert b * k == (q * m) as real by { assert b * k == (b * n as real) * m as real; }
    assert k > 0.0;
    Scaled(a, b, k);
  }

  lemma Scaled(a: real, b: real, k: real)
    requires k > 0.0
    ensures b > a <==> b * k > a * k
    ensures b < a <==> b * k < a * k
  {
    if b > a {
      assert (b - a) * k > 0.0;
    } else if b < a {
      assert (a - b) * k > 0.0;
    }
  }

  ghost predicate UniqueIds(rows: seq<RowResult>) {
    forall i, j :: 0 <= i < j < |rows| ==> rows[i].rowId != rows[j].rowId
  }

  function CleanIds(m: map<string, RowResult>): set<string> {
    set id | id in m && IsCleanPass(m[id])
  }

  /** When ids repeat, the last row of an id is the one that counts. */
  lemma {:induction false} LastRowCounts(rows: seq<RowResult>, i: nat)
    requires i < |rows| && forall j :: i < j < |rows| ==> rows[j].rowId != rows[i].rowId
    ensures rows[i].rowId in ById(rows) && ById(rows)[rows[i].rowId] == rows[i]
  {
    if i < |rows| - 1 {
      LastRowCounts(rows[..|rows| - 1], i);
    }
  }

  lemma {:induction false} ByIdOf(rows: seq<RowResult>)
    requires UniqueIds(rows)
    ensures forall id :: id in ById(rows) <==> exists i :: 0 <= i < |rows| && rows[i].rowId == id
    ensures forall i :: 0 <= i < |rows| ==> rows[i].rowId in ById(rows) && ById(rows)[rows[i].rowId] == rows[i]
  {
    if rows != [] {
      var rest := rows[..|rows| - 1];
      ByIdOf(rest);
      assert forall i :: 0 <= i < |rest| ==> rest[i] == rows[i];
      forall id ensures id in ById(rows) <==> exists i :: 0 <= i < |rows| && rows[i].rowId == id {
        if id in ById(rest) {
          var i :| 0 <= i < |rest| && rest[i].rowId == id;
          assert rows[i].rowId == id;
        }
      }
    }
  }

  /** Row `i` has this id; a clean pass is one that ran without an error and passed. */
  ghost predicate HasRow(rows: seq<RowResult>, id: string, i: int) {
    0 <= i < |rows| && rows[i].rowId == id
  }

  /** The listed ids row by row: a regressed one passed cleanly before and does not now; added and dropped ones have one row. */
  lemma DiffListsAre(base: seq<RowResult>, cur: seq<RowResult>, id: string)
    requires UniqueIds(base) && UniqueIds(cur)
    ensures var d := DiffReports(Report(base), Report(cur));
            && (id in d.regressed <==>
                exists i, j :: HasRow(base, id, i) && HasRow(cur, id, j)
                               && base[i].passed && base[i].error == None && !(cur[j].passed && cur[j].error == None))
            && (id in d.added <==> (exists j :: HasRow(cur, id, j)) && !exists i :: HasRow(base, id, i))
            && (id in d.dropped <==> (exists i :: HasRow(base, id, i)) && !exists j :: HasRow(cur, id, j))
  {
    RowOf(base, id);
    RowOf(cur, id);
    hide ById, Sum, ScoreSum;
  }

  lemma RowOf(rows: seq<RowResult>, id: string)
    requires UniqueIds(rows)
    ensures id in ById(rows) <==> exists i :: HasRow(rows, id, i)
    ensures forall i :: HasRow(rows, id, i) ==> id in ById(rows) && ById(rows)[id] == rows[i]
  {
    ByIdOf(rows);
    hide ById;
    if id in ById(rows) {
      var i :| 0 <= i < |rows| && rows[i].rowId == id;
      assert HasRow(rows, id, i);
    }
  }

  lemma CleanIdsAfterInsert(m: map<string, RowResult>, r: RowResult)
    requires r.rowId !in m
    ensures |CleanIds(m[r.rowId := r])| == |CleanIds(m)| + CleanPass(r)
  {
    assert CleanIds(m[r.rowId := r]) == if IsCleanPass(r) then CleanIds(m) + {r.rowId} else CleanIds(m);
  }

  /** With unique ids, counting clean rows and counting clean ids is the same. */
  lemma {:induction false} CleanRowsAreCleanIds(rows: seq<RowResult>)
    requires UniqueIds(rows)
    ensures Sum(rows, CleanPass) == |CleanIds(ById(rows))|
  {
    if rows != [] {
      var rest, last := rows[..|rows| - 1], rows[|rows| - 1];
      CleanRowsAreCleanIds(rest);
      ByIdOf(rest);
      assert rows == rest + [last];
      SumAppend(rest, [last], CleanPass);
      SumSingle(last, CleanPass);
      assert last.rowId !in ById(rest);
      CleanIdsAfterInsert(ById(rest), last);
    }
  }

  /** The part of `s` inside `t` and the part outside make up `s`. */
  lemma SplitCard(s: set<string>, t: set<string>)
    ensures |s| == |s * t| + |s - t|
  {
    assert s == (s * t) + (s - t);
  }

  lemma DifferenceOfSizes(cb: set<string>, cc: set<string>, b: set<string>, c: set<string>)
    requires cb <= b && cc <= c
    ensures |cc| - |cb| == |cc * b - cb| + |cc - b| - |cb * c - cc| - |cb - c|
  {
    SplitCard(cc, b);
    SplitCard(cb, c);
    SplitCard(cc * b, cb);
    SplitCard(cb * c, cc);
    assert cc * b * cb == cb * c * cc;
  }

  /** The diff's id sets in terms of the clean ids of the two reports. */
  lemma DiffSets(base: EvalReport, cur: EvalReport)
    ensures var d := DiffReports(base, cur);
            var b, c := ById(base.rows), ById(cur.rows);
            && CleanIds(b) <= b.Keys && CleanIds(c) <= c.Keys
            && d.regressed == CleanIds(b) * c.Keys - CleanIds(c)
            && CleanIds(c) * d.added == CleanIds(c) - b.Keys
            && CleanIds(b) * d.dropped == CleanIds(b) - c.Keys
  {
  }

  /**
   Conservation across the runner and the diff: the change in passed rows is exactly the shared rows that
   became clean plus the clean new ones, minus the regressed rows and the clean dropped ones.
   */
  lemma PassedDeltaIsConserved(base: seq<RowResult>, cur: seq<RowResult>)
    requires UniqueIds(base) && UniqueIds(cur)
    ensures var d := DiffReports(Report(base), Report(cur));
            var b, c := ById(base), ById(cur);
            var improved := CleanIds(c) * b.Keys - CleanIds(b);
            d.passedDelta == |improved| + |CleanIds(c) * d.added| - |d.regressed| - |CleanIds(b) * d.dropped|
  {
    CleanRowsAreCleanIds(base);
    CleanRowsAreCleanIds(cur);
    DiffSets(Report(base), Report(cur));
    DifferenceOfSizes(CleanIds(ById(base)), CleanIds(ById(cur)), ById(base).Keys, ById(cur).Keys);
  }

  /** Every id is shared, new or dropped, never two of them; a regression is always on a shared row. */
  lemma IdsArePartitioned(base: EvalReport, cur: EvalReport)
    ensures var d := DiffReports(base, cur);
            var b, c := ById(base.rows).Keys, ById(cur.rows).Keys;
            && b + c == b * c + d.added + d.dropped
            && d.added !! d.dropped && d.added !! b * c && d.dropped !! b * c
            && d.regressed <= b * c
            && |b + c| == |b * c| + |d.added| + |d.dropped|
  {
    ThreeParts(ById(base.rows).Keys, ById(cur.rows).Keys);
  }

  lemma ThreeParts(b: set<string>, c: set<string>)
    ensures b + c == b * c + (c - b) + (b - c)
    ensures |b + c| == |b * c| + |c - b| + |b - c|
  {
    SplitCard(c, b);
    assert b + c == c + (b - c) && c * b == b * c;
    assert b + c == b * c + (c - b) + (b - c);
  }

  /** A gate on regressions misses nothing: no regressed and no clean dropped row means no fewer passes. */
  lemma NoRegressionNoLoss(base: seq<RowResult>, cur: seq<RowResult>)
    requires UniqueIds(base) && UniqueIds(cur)
    requires var d := DiffReports(Report(base), Report(cur)); d.regressed == {} && d.dropped == {}
    ensures DiffReports(Report(base), Report(cur)).passedDelta >= 0
    ensures |base| == |cur| ==> DiffReports(Report(base), Report(cur)).passRateDelta >= 0.0
  {
    PassedDeltaIsConserved(base, cur);
    var d := DiffReports(Report(base), Report(cur));
    assert CleanIds(ById(base)) * d.dropped == {};
    if |base| == |cur| > 0 {
      QuotientMonotone(Report(base).passed as real, Report(cur).passed as real, |base| as real);
    }
  }

  lemma QuotientMonotone(p: real, q: real, n: real)
    requires p <= q && n > 0.0
    ensures p / n <= q / n
  {
  }
}
