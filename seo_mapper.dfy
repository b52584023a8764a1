/**
 * The BigQuery-to-dashboard mapper (src/lib/mappers/seo-mapper.ts): audit rows, one per
 * domain of an audit run, become the run list of the dashboard (one run per audit id, newest
 * first) and the report of one run (a report per row and a summary over them).
 */
module SeoMapper {
  import opened Wrappers
  import opened Seqs
  import opened Records
  import opened StableSort
  import opened BigQueryTypes

  // ── extractDateValue ─────────────────────────────────────────────────────

  /** `extractDateValue(field)`: the object's `value`, a string unchanged, "" when missing. */
  function ExtractDateValue(field: DateValue): (r: string)
    ensures field.DateObject? ==> r == field.value
    ensures field.DateText? ==> r == field.text
    ensures field.NoDate? ==> r == ""
  {
    match field
    case NoDate => ""
    case DateText(text) => if text == "" then "" else text
    case DateObject(value) => value
  }

  // ── getCategoryStatus ────────────────────────────────────────────────────

  datatype CategoryStatus = Excellent | Good | NeedsImprovement | Poor

  /** The status as the dashboard spells it. */
  function StatusName(s: CategoryStatus): string {
    match s
    case Excellent => "excellent"
    case Good => "good"
    case NeedsImprovement => "needs-improvement"
    case Poor => "poor"
  }

  /** Position of a status from worst (0) to best (3). */
  function Rank(s: CategoryStatus): nat {
    match s
    case Poor => 0
    case NeedsImprovement => 1
    case Good => 2
    case Excellent => 3
  }

  /** `getCategoryStatus(score)`: bands at 90, 70 and 50; a missing score is poor. */
  function GetCategoryStatus(score: Option<int>): (r: CategoryStatus)
    ensures score.None? ==> r == Poor
    ensures score.Some? ==> (r == Excellent <==> score.value >= 90)
    ensures score.Some? ==> (r == Good <==> 70 <= score.value < 90)
    ensures score.Some? ==> (r == NeedsImprovement <==> 50 <= score.value < 70)
    ensures score.Some? ==> (r == Poor <==> score.value < 50)
  {
    match score
    case None => Poor
    case Some(s) =>
      if s >= 90 then Excellent
      else if s >= 70 then Good
      else if s >= 50 then NeedsImprovement
      else Poor
  }

  /** A higher score never gets a worse status, and a missing score ranks with the lowest. */
  lemma StatusMonotone(a: int, b: int)
    requires a <= b
    ensures Rank(GetCategoryStatus(Some(a))) <= Rank(GetCategoryStatus(Some(b)))
    ensures Rank(GetCategoryStatus(None)) <= Rank(GetCategoryStatus(Some(a)))
  {
  }

  /** The four names are distinct, so the status can be read back from its name. */
  lemma StatusNamesDistinct(s: CategoryStatus, t: CategoryStatus)
    ensures StatusName(s) == StatusName(t) <==> s == t
  {
    if s != t {
      assert StatusName(s)[0] != StatusName(t)[0] || |StatusName(s)| != |StatusName(t)|;
    }
  }

  // ── Math.round ───────────────────────────────────────────────────────────

  /** `Math.round(x / d)` for integers: the nearest integer to x/d, halves rounded up. */
  function RoundDiv(x: int, d: int): (r: int)
    requires d > 0
    ensures 2 * d * r <= 2 * x + d < 2 * d * (r + 1)
  {
    var n := 2 * x + d;
    var m := 2 * d;
    assert n == m * (n / m) + n % m;
    n / m
  }

  // ── mapRowsToAuditRuns ───────────────────────────────────────────────────

  /** An entry of the run list. `date` is the date text (`parseDate` reads it into a Date). */
  datatype AuditRun = AuditRun(
    id: string,
    filename: string,
    date: string,
    domains: seq<string>,
    healthScoreTenths: int,
    totalIssues: int,
    newIssues: int,
    duration: int,
    status: string)

  /** The audit id of every row, in row order. */
  function AuditIds(rows: seq<SeoAuditRow>): (r: seq<string>)
    ensures |r| == |rows| && forall i | 0 <= i < |rows| :: r[i] == rows[i].auditId
    decreases |rows|
  {
    if rows == [] then [] else AuditIds(rows[..|rows| - 1]) + [rows[|rows| - 1].auditId]
  }

  /** The rows of one audit id, in row order: what the grouping loop collects under that id. */
  function RowsWithId(rows: seq<SeoAuditRow>, id: string): (r: seq<SeoAuditRow>)
    ensures r != [] <==> id in AuditIds(rows)
    decreases |rows|
  {
    if rows == [] then []
    else
      var front := rows[..|rows| - 1];
      assert AuditIds(rows) == AuditIds(front) + [rows[|rows| - 1].auditId];
      RowsWithId(front, id) + (if rows[|rows| - 1].auditId == id then [rows[|rows| - 1]] else [])
  }

  /** The domain of every row, in row order. */
  function DomainsOf(rows: seq<SeoAuditRow>): (r: seq<string>)
    ensures |r| == |rows| && forall i | 0 <= i < |rows| :: r[i] == rows[i].domain
    decreases |rows|
  {
    if rows == [] then [] else DomainsOf(rows[..|rows| - 1]) + [rows[|rows| - 1].domain]
  }

  /** `r.total_issues || 0`. */
  function IssuesOf(row: SeoAuditRow): int {
    OrZero(row.totalIssues)
  }

  /** `(r.critical_count || 0) + (r.high_count || 0)`: critical and high issues count as new. */
  function NewIssuesOf(row: SeoAuditRow): int {
    OrZero(row.criticalCount) + OrZero(row.highCount)
  }

  /** `r.health_score || 0`. */
  function HealthOf(row: SeoAuditRow): int {
    OrZero(row.healthScore)
  }

  /** `Math.round(avg * 10)`, the average health score in tenths. */
  function AverageTenths(sum: int, n: int): (r: int)
    requires n > 0
    ensures 2 * n * r <= 20 * sum + n < 2 * n * (r + 1)
  {
    RoundDiv(10 * sum, n)
  }

  /** The run built from the rows of one audit id (the body of the second loop). */
  function RunOfGroup(id: string, group: seq<SeoAuditRow>): (r: AuditRun)
    requires group != []
  {
    var domains := Dedup(DomainsOf(group));
    AuditRun(
      id,
      "audit_report_" + (if domains == [] then "undefined" else domains[0]) + "_" + id + ".json",
      ExtractDateValue(group[0].auditDate),
      domains,
      AverageTenths(SumOf(group, HealthOf), |group|),
      SumOf(group, IssuesOf),
      SumOf(group, NewIssuesOf),
      0,
      "completed")
  }

  /** The runs of the given audit ids, in that order. */
  function RunsFor(rows: seq<SeoAuditRow>, ids: seq<string>): (r: seq<AuditRun>)
    requires forall id | id in ids :: id in AuditIds(rows)
    ensures |r| == |ids|
    decreases |ids|
  {
    if ids == [] then []
    else
      var id := ids[|ids| - 1];
      RunsFor(rows, ids[..|ids| - 1]) + [RunOfGroup(id, RowsWithId(rows, id))]
  }

  /** The run list before sorting: one run per audit id, in first-seen order (the Map's order). */
  function UnsortedRuns(rows: seq<SeoAuditRow>): seq<AuditRun> {
    DedupSpec(AuditIds(rows));
    RunsFor(rows, Dedup(AuditIds(rows)))
  }

  /** `b.date.getTime() - a.date.getTime()`: newest first, ties keep their order. */
  function DateKey(timeOf: string -> int): AuditRun -> SortKey {
    (r: AuditRun) => SortKey(-timeOf(r.date), 0)
  }

  /**
   * `mapRowsToAuditRuns(rows)`: `timeOf` is the millisecond timestamp `new Date(text)`
   * gives for a date text.
   */
  function AuditRuns(rows: seq<SeoAuditRow>, timeOf: string -> int): seq<AuditRun> {
    Sort(UnsortedRuns(rows), DateKey(timeOf))
  }

  /** The Map of the grouping loop after `rows`: its key order and the rows under each key. */
  ghost predicate Grouped(rows: seq<SeoAuditRow>, order: seq<string>, groups: map<string, seq<SeoAuditRow>>) {
    && order == Dedup(AuditIds(rows))
    && (forall id :: id in groups <==> id in AuditIds(rows))
    && (forall id | id in groups :: groups[id] == RowsWithId(rows, id))
  }

  /** One more row: a new id is appended to the key order and every row is pushed onto its id's list. */
  lemma GroupedAdd(rows: seq<SeoAuditRow>, row: SeoAuditRow, order: seq<string>, groups: map<string, seq<SeoAuditRow>>)
    requires Grouped(rows, order, groups)
    ensures Grouped(rows + [row],
                    if row.auditId in groups then order else order + [row.auditId],
                    groups[row.auditId := (if row.auditId in groups then groups[row.auditId] else []) + [row]])
  {
    var rs := rows + [row];
    AuditIdsSnoc(rows, row);
    DedupMembers(AuditIds(rows));
    DedupSnoc(AuditIds(rows), row.auditId);
    forall id ensures RowsWithId(rs, id) == RowsWithId(rows, id) + (if row.auditId == id then [row] else []) {
      RowsWithIdSnoc(rows, row, id);
    }
  }

  lemma AuditIdsSnoc(rows: seq<SeoAuditRow>, row: SeoAuditRow)
    ensures AuditIds(rows + [row]) == AuditIds(rows) + [row.auditId]
  {
    assert (rows + [row])[..|rows|] == rows;
  }

  lemma RowsWithIdSnoc(rows: seq<SeoAuditRow>, row: SeoAuditRow, id: string)
    ensures RowsWithId(rows + [row], id) == RowsWithId(rows, id) + (if row.auditId == id then [row] else [])
  {
    assert (rows + [row])[..|rows|] == rows;
  }

  /** The grouping loop of `mapRowsToAuditRuns`: the Map's key order and the rows under each key. */
  method GroupByAuditId(rows: seq<SeoAuditRow>) returns (order: seq<string>, groups: map<string, seq<SeoAuditRow>>)
    ensures order == Dedup(AuditIds(rows))
    ensures forall id :: id in groups <==> id in AuditIds(rows)
    ensures forall id | id in groups :: groups[id] == RowsWithId(rows, id)
  {
    order := [];
    groups := map[];
    var i := 0;
    while i < |rows|
      invariant 0 <= i <= |rows|
      invariant Grouped(rows[..i], order, groups)
    {
      var row := rows[i];
      GroupedNext(rows, i, order, groups);
      order, groups :=
        if row.auditId in groups then order else order + [row.auditId],
        groups[row.auditId := (if row.auditId in groups then groups[row.auditId] else []) + [row]];
      i := i + 1;
    }
    GroupedAll(rows, order, groups);
  }

  lemma GroupedNext(rows: seq<SeoAuditRow>, i: nat, order: seq<string>, groups: map<string, seq<SeoAuditRow>>)
    requires i < |rows| && Grouped(rows[..i], order, groups)
    ensures var row := rows[i];
      Grouped(rows[..i + 1],
              if row.auditId in groups then order else order + [row.auditId],
              groups[row.auditId := (if row.auditId in groups then groups[row.auditId] else []) + [row]])
  {
    GroupedAdd(rows[..i], rows[i], order, groups);
    assert rows[..i + 1] == rows[..i] + [rows[i]];
  }

  lemma GroupedAll(rows: seq<SeoAuditRow>, order: seq<string>, groups: map<string, seq<SeoAuditRow>>)
    requires Grouped(rows[..|rows|], order, groups)
    ensures order == Dedup(AuditIds(rows))
    ensures forall id :: id in groups <==> id in AuditIds(rows)
    ensures forall id | id in groups :: groups[id] == RowsWithId(rows, id)
  {
    assert rows[..|rows|] == rows;
  }

  /** The loop over the Map builds the run list one audit id at a time. */
  lemma RunsForStep(rows: seq<SeoAuditRow>, ids: seq<string>, j: nat)
    requires forall id | id in ids :: id in AuditIds(rows)
    requires j < |ids|
    ensures forall id | id in ids[..j + 1] :: id in AuditIds(rows)
    ensures RunsFor(rows, ids[..j + 1]) == RunsFor(rows, ids[..j]) + [RunOfGroup(ids[j], RowsWithId(rows, ids[j]))]
  {
    assert ids[..j + 1][..j] == ids[..j];
  }

  /** `mapRowsToAuditRuns(rows)`: group by audit id, build one run per group, sort newest first. */
  method MapRowsToAuditRuns(rows: seq<SeoAuditRow>, timeOf: string -> int) returns (runs: seq<AuditRun>)
    ensures runs == AuditRuns(rows, timeOf)
  {
    var order, groups := GroupByAuditId(rows);
    assert forall id | id in order :: id in AuditIds(rows) by {
      DedupSpec(AuditIds(rows));
    }
    runs := [];
    var j := 0;
    while j < |order|
      invariant 0 <= j <= |order|
      invariant forall id | id in order[..j] :: id in AuditIds(rows)
      invariant runs == RunsFor(rows, order[..j])
    {
      var id := order[j];
      RunsForStep(rows, order, j);
      runs := runs + [RunOfGroup(id, groups[id])];
      j := j + 1;
    }
    assert order[..j] == order;
    runs := Sort(runs, DateKey(timeOf));
  }

  /** The run at position k of `RunsFor` is the run of `ids[k]`. */
  lemma {:induction false} RunsForAt(rows: seq<SeoAuditRow>, ids: seq<string>, k: nat)
    requires forall id | id in ids :: id in AuditIds(rows)
    requires k < |ids|
    ensures RunsFor(rows, ids)[k] == RunOfGroup(ids[k], RowsWithId(rows, ids[k]))
    decreases |ids|
  {
    if k < |ids| - 1 {
      var front := ids[..|ids| - 1];
      RunsForAt(rows, front, k);
    }
  }

  /** Every run of the list is the run of its own audit id. */
  lemma RunsAreGroups(rows: seq<SeoAuditRow>, timeOf: string -> int, i: nat)
    requires i < |AuditRuns(rows, timeOf)|
    ensures AuditRuns(rows, timeOf)[i].id in AuditIds(rows)
    ensures AuditRuns(rows, timeOf)[i]
         == RunOfGroup(AuditRuns(rows, timeOf)[i].id, RowsWithId(rows, AuditRuns(rows, timeOf)[i].id))
  {
    var ids := Dedup(AuditIds(rows));
    DedupSpec(AuditIds(rows));
    var u := UnsortedRuns(rows);
    var run := AuditRuns(rows, timeOf)[i];
    assert run in multiset(u);
    var k :| 0 <= k < |u| && u[k] == run;
    RunsForAt(rows, ids, k);
  }

  /** Runs of distinct ids are distinct values. */
  lemma UnsortedRunsNoDup(rows: seq<SeoAuditRow>)
    ensures NoDup(UnsortedRuns(rows))
  {
    var ids := Dedup(AuditIds(rows));
    DedupSpec(AuditIds(rows));
    var u := UnsortedRuns(rows);
    forall a, b | 0 <= a < b < |u| ensures u[a] != u[b] {
      RunsForAt(rows, ids, a);
      RunsForAt(rows, ids, b);
    }
  }

  /** Every audit id of the rows is the id of some run. */
  lemma RunForEveryId(rows: seq<SeoAuditRow>, timeOf: string -> int, id: string)
    requires id in AuditIds(rows)
    ensures exists i | 0 <= i < |AuditRuns(rows, timeOf)| :: AuditRuns(rows, timeOf)[i].id == id
  {
    var ids := Dedup(AuditIds(rows));
    DedupSpec(AuditIds(rows));
    var u := UnsortedRuns(rows);
    var runs := AuditRuns(rows, timeOf);
    var k :| 0 <= k < |ids| && ids[k] == id;
    RunsForAt(rows, ids, k);
    assert u[k] in multiset(runs);
    var i :| 0 <= i < |runs| && runs[i] == u[k];
    assert runs[i].id == id;
  }

  /**
   * One run per audit id: the ids of the run list are distinct and are exactly the ids of the
   * rows, so every row belongs to exactly one run.
   */
  lemma AuditRunsOnePerId(rows: seq<SeoAuditRow>, timeOf: string -> int)
    ensures |AuditRuns(rows, timeOf)| == |Dedup(AuditIds(rows))|
    ensures forall i, j | 0 <= i < j < |AuditRuns(rows, timeOf)| ::
      AuditRuns(rows, timeOf)[i].id != AuditRuns(rows, timeOf)[j].id
    ensures forall id :: id in AuditIds(rows) <==>
      exists i | 0 <= i < |AuditRuns(rows, timeOf)| :: AuditRuns(rows, timeOf)[i].id == id
  {
    var runs := AuditRuns(rows, timeOf);
    assert NoDup(runs) by {
      UnsortedRunsNoDup(rows);
      SortNoDup(UnsortedRuns(rows), DateKey(timeOf));
    }
    forall i, j | 0 <= i < j < |runs| ensures runs[i].id != runs[j].id {
      RunsAreGroups(rows, timeOf, i);
      RunsAreGroups(rows, timeOf, j);
    }
    forall id ensures id in AuditIds(rows) <==> exists i | 0 <= i < |runs| :: runs[i].id == id {
      if id in AuditIds(rows) {
        RunForEveryId(rows, timeOf, id);
      }
      if exists i | 0 <= i < |runs| :: runs[i].id == id {
        var i :| 0 <= i < |runs| && runs[i].id == id;
        RunsAreGroups(rows, timeOf, i);
      }
    }
    assert |runs| == |Dedup(AuditIds(rows))| by {
      DedupSpec(AuditIds(rows));
    }
  }

  /**
   * What a run holds: the file name of its first domain, the date of its first row, the sums
   * over its rows with nulls read as 0, the average health score rounded to a tenth, no duration
   * and status "completed".
   */
  lemma RunOfGroupShape(id: string, group: seq<SeoAuditRow>)
    requires group != []
    ensures var r := RunOfGroup(id, group);
      && r.id == id
      && r.filename == "audit_report_" + group[0].domain + "_" + id + ".json"
      && r.date == ExtractDateValue(group[0].auditDate)
      && r.totalIssues == SumOf(group, IssuesOf)
      && r.newIssues == SumOf(group, NewIssuesOf)
      && r.healthScoreTenths == AverageTenths(SumOf(group, HealthOf), |group|)
      && r.duration == 0 && r.status == "completed"
  {
    DedupFirst(DomainsOf(group));
  }

  /** A run lists the distinct domains of its rows, each once, in first-seen order. */
  lemma RunDomains(id: string, group: seq<SeoAuditRow>)
    requires group != []
    ensures var r := RunOfGroup(id, group);
      && NoDup(r.domains) && r.domains != [] && r.domains[0] == group[0].domain
      && (forall d :: d in r.domains <==> exists k | 0 <= k < |group| :: group[k].domain == d)
      && (forall d :: d in r.domains <==> d in DomainsOf(group))
      && (forall i, j | 0 <= i < j < |r.domains| ::
            FirstIndex(DomainsOf(group), r.domains[i]) < FirstIndex(DomainsOf(group), r.domains[j]))
  {
    var ds := DomainsOf(group);
    DedupSpec(ds);
    DedupFirst(ds);
    forall d ensures d in ds <==> exists k | 0 <= k < |group| :: group[k].domain == d {
      if d in ds {
        var k :| 0 <= k < |ds| && ds[k] == d;
        assert group[k].domain == d;
      }
    }
  }

  /** The run list is in date order, newest first. */
  lemma AuditRunsNewestFirst(rows: seq<SeoAuditRow>, timeOf: string -> int)
    ensures forall i, j | 0 <= i < j < |AuditRuns(rows, timeOf)| ::
      timeOf(AuditRuns(rows, timeOf)[i].date) >= timeOf(AuditRuns(rows, timeOf)[j].date)
  {
    SortSorted(UnsortedRuns(rows), DateKey(timeOf));
    var runs := AuditRuns(rows, timeOf);
    forall i, j | 0 <= i < j < |runs| ensures timeOf(runs[i].date) >= timeOf(runs[j].date) {
      assert KeyLe(DateKey(timeOf)(runs[i]), DateKey(timeOf)(runs[j]));
    }
  }

  function RunIssues(r: AuditRun): int {
    r.totalIssues
  }

  function RunNewIssues(r: AuditRun): int {
    r.newIssues
  }

  /** Σ over the given ids of f summed over each id's rows. */
  function GroupSums(rows: seq<SeoAuditRow>, ids: seq<string>, f: SeoAuditRow -> int): int
    decreases |ids|
  {
    if ids == [] then 0 else GroupSums(rows, ids[..|ids| - 1], f) + SumOf(RowsWithId(rows, ids[|ids| - 1]), f)
  }

  /** One more row adds its value to the sum of its own id's group, once. */
  lemma {:induction false} GroupSumsStep(rows: seq<SeoAuditRow>, row: SeoAuditRow, ids: seq<string>, f: SeoAuditRow -> int)
    requires NoDup(ids)
    ensures GroupSums(rows + [row], ids, f) == GroupSums(rows, ids, f) + (if row.auditId in ids then f(row) else 0)
    decreases |ids|
  {
    if ids != [] {
      var front := ids[..|ids| - 1];
      var id := ids[|ids| - 1];
      assert NoDup(front);
      GroupSumsStep(rows, row, front, f);
      var rs := rows + [row];
      assert rs[..|rs| - 1] == rows;
      assert ids == front + [id];
      if id == row.auditId {
        assert RowsWithId(rs, id) == RowsWithId(rows, id) + [row];
        SumOfConcat(RowsWithId(rows, id), [row], f);
        assert row.auditId !in front;
      } else {
        assert RowsWithId(rs, id) == RowsWithId(rows, id);
        assert row.auditId in ids <==> row.auditId in front;
      }
    }
  }

  /** The group sums over all audit ids add up to the sum over all rows: no row is lost or counted twice. */
  lemma {:induction false} GroupSumsTotal(rows: seq<SeoAuditRow>, f: SeoAuditRow -> int)
    ensures GroupSums(rows, Dedup(AuditIds(rows)), f) == SumOf(rows, f)
    decreases |rows|
  {
    if rows != [] {
      var front := rows[..|rows| - 1];
      var row := rows[|rows| - 1];
      assert rows == front + [row];
      GroupSumsTotal(front, f);
      GroupSumsTotalStep(front, row, f);
    }
  }

  /** The step of `GroupSumsTotal`: one more row keeps the two sums equal. */
  lemma GroupSumsTotalStep(front: seq<SeoAuditRow>, row: SeoAuditRow, f: SeoAuditRow -> int)
    requires GroupSums(front, Dedup(AuditIds(front)), f) == SumOf(front, f)
    ensures GroupSums(front + [row], Dedup(AuditIds(front + [row])), f) == SumOf(front + [row], f)
  {
    var rows := front + [row];
    var d := Dedup(AuditIds(front));
    DedupDistinct(AuditIds(front));
    GroupSumsStep(front, row, d, f);
    SumOfConcat(front, [row], f);
    SumOfSingle(row, f);
    AuditIdsSnoc(front, row);
    DedupSnoc(AuditIds(front), row.auditId);
    if row.auditId !in d {
      GroupSumsNew(rows, d, row.auditId, f);
      DedupMembers(AuditIds(front));
      RowsWithIdNew(front, row);
    }
  }

  lemma SumOfSingle(row: SeoAuditRow, f: SeoAuditRow -> int)
    ensures SumOf([row], f) == f(row)
  {
    assert [row][1..] == [];
  }

  /** The first row of an id is the whole of its group so far. */
  lemma RowsWithIdNew(front: seq<SeoAuditRow>, row: SeoAuditRow)
    requires row.auditId !in AuditIds(front)
    ensures RowsWithId(front + [row], row.auditId) == [row]
  {
    RowsWithIdSnoc(front, row, row.auditId);
  }

  lemma GroupSumsNew(rows: seq<SeoAuditRow>, ids: seq<string>, id: string, f: SeoAuditRow -> int)
    ensures GroupSums(rows, ids + [id], f) == GroupSums(rows, ids, f) + SumOf(RowsWithId(rows, id), f)
  {
    assert (ids + [id])[..|ids|] == ids;
  }

  /** Summing a field of the runs of some ids sums the matching row field over their groups. */
  lemma {:induction false} RunsForSums(rows: seq<SeoAuditRow>, ids: seq<string>)
    requires forall id | id in ids :: id in AuditIds(rows)
    ensures SumOf(RunsFor(rows, ids), RunIssues) == GroupSums(rows, ids, IssuesOf)
    ensures SumOf(RunsFor(rows, ids), RunNewIssues) == GroupSums(rows, ids, NewIssuesOf)
    decreases |ids|
  {
    if ids != [] {
      var front := ids[..|ids| - 1];
      var id := ids[|ids| - 1];
      RunsForSums(rows, front);
      var last := RunOfGroup(id, RowsWithId(rows, id));
      SumOfConcat(RunsFor(rows, front), [last], RunIssues);
      SumOfConcat(RunsFor(rows, front), [last], RunNewIssues);
    }
  }

  /** Across the run list the issue counts add up to those of all rows. */
  lemma AuditRunsTotals(rows: seq<SeoAuditRow>, timeOf: string -> int)
    ensures SumOf(AuditRuns(rows, timeOf), RunIssues) == SumOf(rows, IssuesOf)
    ensures SumOf(AuditRuns(rows, timeOf), RunNewIssues) == SumOf(rows, NewIssuesOf)
  {
    DedupSpec(AuditIds(rows));
    SortSum(UnsortedRuns(rows), DateKey(timeOf), RunIssues);
    SortSum(UnsortedRuns(rows), DateKey(timeOf), RunNewIssues);
    RunsForSums(rows, Dedup(AuditIds(rows)));
    GroupSumsTotal(rows, IssuesOf);
    GroupSumsTotal(rows, NewIssuesOf);
  }

  // ── mapRowToDomainReport ─────────────────────────────────────────────────

  datatype CategoryScore = CategoryScore(score: int, issueCount: int, status: CategoryStatus)

  datatype IssueSummary = IssueSummary(
    totalIssues: int,
    newIssues: int,
    fixedIssues: int,
    regressedIssues: int,
    criticalCount: int,
    highCount: int,
    mediumCount: int,
    lowCount: int,
    infoCount: int)

  /** A domain's report. `anomalies` is always empty and not modelled. */
  datatype DomainReport = DomainReport(
    domain: string,
    auditDate: string,
    auditTimestamp: string,
    healthScore: int,
    durationSeconds: int,
    issueSummary: IssueSummary,
    categoryScores: Entries<CategoryScore>)

  /** The eight category names, in the report's key order. */
  const CategoryNames: seq<string> :=
    ["crawlability", "content", "performance", "security", "mobile", "international", "links", "schema"]

  /** The two categories the table has nothing on, reported as perfect. */
  predicate PerfectByDefault(name: string) {
    name == "mobile" || name == "international"
  }

  /** `mapRowToDomainReport(row)`. */
  function MapRowToDomainReport(row: SeoAuditRow): DomainReport {
    var totalIssues := OrZero(row.totalIssues);
    var criticalCount := OrZero(row.criticalCount);
    var highCount := OrZero(row.highCount);
    var healthScore := OrZero(row.healthScore);
    var default := CategoryScore(healthScore, RoundDiv(totalIssues, 8), GetCategoryStatus(Some(healthScore)));
    var perfect := CategoryScore(100, 0, Excellent);
    DomainReport(
      row.domain,
      ExtractDateValue(row.auditDate),
      ExtractDateValue(row.auditDate),
      healthScore,
      0,
      IssueSummary(totalIssues, criticalCount + highCount, 0, 0, criticalCount, highCount,
                   OrZero(row.mediumCount), OrZero(row.lowCount), 0),
      [("crawlability", default), ("content", default), ("performance", default), ("security", default),
       ("mobile", perfect), ("international", perfect), ("links", default), ("schema", default)])
  }

  /**
   * The report's categories are the eight names, each once. The two without data score 100 with
   * no issues; every other one carries the domain's health score, its status band and an eighth
   * of the domain's issues rounded to the nearest integer.
   */
  lemma DomainReportCategories(row: SeoAuditRow)
    ensures var r := MapRowToDomainReport(row);
      && Keys(r.categoryScores) == CategoryNames
      && DistinctKeys(r.categoryScores)
      && forall k | 0 <= k < |r.categoryScores| ::
        var c := r.categoryScores[k].1;
        if PerfectByDefault(r.categoryScores[k].0) then c == CategoryScore(100, 0, Excellent)
        else
          && c.score == r.healthScore
          && c.status == GetCategoryStatus(Some(r.healthScore))
          && 16 * c.issueCount <= 2 * r.issueSummary.totalIssues + 8 < 16 * (c.issueCount + 1)
  {
    var r := MapRowToDomainReport(row);
    assert Keys(r.categoryScores) == CategoryNames;
  }

  /** The summary of a report: new issues are the critical and high ones, nothing fixed or regressed. */
  lemma DomainReportSummary(row: SeoAuditRow)
    ensures var s := MapRowToDomainReport(row).issueSummary;
      && s.newIssues == s.criticalCount + s.highCount
      && s.totalIssues == IssuesOf(row)
      && s.newIssues == NewIssuesOf(row)
      && s.fixedIssues == 0 && s.regressedIssues == 0 && s.infoCount == 0
  {
  }

  // ── mapRowsToAuditReport ─────────────────────────────────────────────────

  /** The summary of a report. `anomalies` is always empty and not modelled. */
  datatype AuditSummary = AuditSummary(
    domainsAudited: int,
    averageHealthTenths: int,
    totalIssues: int,
    newIssues: int,
    fixedIssues: int,
    regressedIssues: int,
    criticalIssues: int,
    domainScores: Entries<int>,
    auditDate: string)

  datatype AuditReport = AuditReport(summary: AuditSummary, reports: seq<DomainReport>)

  /** `rows.map(mapRowToDomainReport)`. */
  function MapReports(rows: seq<SeoAuditRow>): (r: seq<DomainReport>)
    ensures |r| == |rows| && forall i | 0 <= i < |rows| :: r[i] == MapRowToDomainReport(rows[i])
    decreases |rows|
  {
    if rows == [] then [] else MapReports(rows[..|rows| - 1]) + [MapRowToDomainReport(rows[|rows| - 1])]
  }

  function ReportIssues(r: DomainReport): int {
    r.issueSummary.totalIssues
  }

  function ReportCritical(r: DomainReport): int {
    r.issueSummary.criticalCount
  }

  function ReportNew(r: DomainReport): int {
    r.issueSummary.criticalCount + r.issueSummary.highCount
  }

  function ReportHealth(r: DomainReport): int {
    r.healthScore
  }

  /** `(report.domain, report.health_score)` for every report, in order. */
  function DomainHealth(reports: seq<DomainReport>): (r: Entries<int>)
    ensures |r| == |reports|
    decreases |reports|
  {
    if reports == [] then []
    else DomainHealth(reports[..|reports| - 1]) + [(reports[|reports| - 1].domain, reports[|reports| - 1].healthScore)]
  }

  const EmptySummary := AuditSummary(0, 0, 0, 0, 0, 0, 0, [], "")

  /** `mapRowsToAuditReport(rows)`. */
  function AuditReportOf(rows: seq<SeoAuditRow>): AuditReport {
    if rows == [] then AuditReport(EmptySummary, [])
    else
      var reports := MapReports(rows);
      AuditReport(
        AuditSummary(
          |reports|,
          AverageTenths(SumOf(reports, ReportHealth), |reports|),
          SumOf(reports, ReportIssues),
          SumOf(reports, ReportNew),
          0,
          0,
          SumOf(reports, ReportCritical),
          Assigned(DomainHealth(reports)),
          reports[0].auditDate),
        reports)
  }

  /** The summary loop: the last health score per domain and the issue and critical sums. */
  method SummarizeReports(reports: seq<DomainReport>) returns (domainScores: Entries<int>, totalIssues: int, criticalIssues: int)
    ensures domainScores == Assigned(DomainHealth(reports))
    ensures totalIssues == SumOf(reports, ReportIssues)
    ensures criticalIssues == SumOf(reports, ReportCritical)
  {
    domainScores := [];
    totalIssues := 0;
    criticalIssues := 0;
    var i := 0;
    while i < |reports|
      invariant 0 <= i <= |reports|
      invariant domainScores == Assigned(DomainHealth(reports[..i]))
      invariant totalIssues == SumOf(reports[..i], ReportIssues)
      invariant criticalIssues == SumOf(reports[..i], ReportCritical)
    {
      var report := reports[i];
      assert reports[..i + 1] == reports[..i] + [report];
      assert reports[..i + 1][..i] == reports[..i];
      SumOfConcat(reports[..i], [report], ReportIssues);
      SumOfConcat(reports[..i], [report], ReportCritical);
      domainScores := Assign(domainScores, report.domain, report.healthScore);
      totalIssues := totalIssues + report.issueSummary.totalIssues;
      criticalIssues := criticalIssues + report.issueSummary.criticalCount;
      i := i + 1;
    }
    assert reports[..i] == reports;
  }

  /** `mapRowsToAuditReport(rows)`: the empty report, or a report per row and their summary. */
  method MapRowsToAuditReport(rows: seq<SeoAuditRow>) returns (report: AuditReport)
    ensures report == AuditReportOf(rows)
  {
    if |rows| == 0 {
      return AuditReport(EmptySummary, []);
    }
    var reports := MapReports(rows);
    var domainScores, totalIssues, criticalIssues := SummarizeReports(reports);
    var summary := AuditSummary(
      |reports|,
      AverageTenths(SumOf(reports, ReportHealth), |reports|),
      totalIssues,
      SumOf(reports, ReportNew),
      0,
      0,
      criticalIssues,
      domainScores,
      reports[0].auditDate);
    report := AuditReport(summary, reports);
  }

  /** Summing a report field over `MapReports` sums the matching row field. */
  lemma {:induction false} MapReportsSums(rows: seq<SeoAuditRow>)
    ensures SumOf(MapReports(rows), ReportIssues) == SumOf(rows, IssuesOf)
    ensures SumOf(MapReports(rows), ReportCritical) == SumOf(rows, CriticalOf)
    ensures SumOf(MapReports(rows), ReportNew) == SumOf(rows, NewIssuesOf)
    ensures SumOf(MapReports(rows), ReportHealth) == SumOf(rows, HealthOf)
    decreases |rows|
  {
    if rows != [] {
      var front := rows[..|rows| - 1];
      var last := rows[|rows| - 1];
      assert rows == front + [last];
      MapReportsSums(front);
      var m := MapRowToDomainReport(last);
      assert MapReports(rows) == MapReports(front) + [m];
      SumOfConcat(MapReports(front), [m], ReportIssues);
      SumOfConcat(MapReports(front), [m], ReportCritical);
      SumOfConcat(MapReports(front), [m], ReportNew);
      SumOfConcat(MapReports(front), [m], ReportHealth);
      SumOfConcat(front, [last], IssuesOf);
      SumOfConcat(front, [last], CriticalOf);
      SumOfConcat(front, [last], NewIssuesOf);
      SumOfConcat(front, [last], HealthOf);
    }
  }

  /** `r.critical_count || 0`. */
  function CriticalOf(row: SeoAuditRow): int {
    OrZero(row.criticalCount)
  }

  /** No rows give the all-zero summary, no reports and no date. */
  lemma AuditReportEmpty()
    ensures AuditReportOf([]).reports == []
    ensures AuditReportOf([]).summary.domainsAudited == 0
    ensures AuditReportOf([]).summary.totalIssues == 0 && AuditReportOf([]).summary.criticalIssues == 0
    ensures AuditReportOf([]).summary.domainScores == [] && AuditReportOf([]).summary.auditDate == ""
  {
  }

  /**
   * A report per row, in row order; the summary counts every row as a domain, adds up the issue
   * counts of all rows with nulls read as 0, takes the date of the first row and rounds the
   * average health score to a tenth.
   */
  lemma AuditReportTotals(rows: seq<SeoAuditRow>)
    requires rows != []
    ensures var a := AuditReportOf(rows);
      && |a.reports| == |rows|
      && (forall i | 0 <= i < |rows| :: a.reports[i] == MapRowToDomainReport(rows[i]))
      && a.summary.domainsAudited == |rows|
      && a.summary.totalIssues == SumOf(rows, IssuesOf)
      && a.summary.criticalIssues == SumOf(rows, CriticalOf)
      && a.summary.newIssues == SumOf(rows, NewIssuesOf)
      && a.summary.fixedIssues == 0 && a.summary.regressedIssues == 0
      && a.summary.auditDate == ExtractDateValue(rows[0].auditDate)
      && a.summary.averageHealthTenths == AverageTenths(SumOf(rows, HealthOf), |rows|)
  {
    MapReportsSums(rows);
  }

  /** `(row.domain, row.health_score || 0)` for every row, in order. */
  function RowScores(rows: seq<SeoAuditRow>): (r: Entries<int>)
    ensures |r| == |rows|
    decreases |rows|
  {
    if rows == [] then [] else RowScores(rows[..|rows| - 1]) + [(rows[|rows| - 1].domain, HealthOf(rows[|rows| - 1]))]
  }

  lemma {:induction false} DomainHealthOfRows(rows: seq<SeoAuditRow>)
    ensures DomainHealth(MapReports(rows)) == RowScores(rows)
    ensures Keys(RowScores(rows)) == DomainsOf(rows)
    decreases |rows|
  {
    if rows != [] {
      var front := rows[..|rows| - 1];
      DomainHealthOfRows(front);
      assert MapReports(rows)[..|rows| - 1] == MapReports(front);
      assert RowScores(rows)[..|rows| - 1] == RowScores(front);
    }
  }

  /**
   * `domain_scores` holds each audited domain once, in first-seen order, with the health score
   * of the LAST row of that domain (a later row overwrites an earlier one).
   */
  lemma DomainScoresLastWins(rows: seq<SeoAuditRow>, domain: string)
    requires rows != []
    ensures Keys(AuditReportOf(rows).summary.domainScores) == Dedup(DomainsOf(rows))
    ensures Lookup(AuditReportOf(rows).summary.domainScores, domain) == LastValue(RowScores(rows), domain)
  {
    DomainHealthOfRows(rows);
    KeysAssigned(RowScores(rows));
    LookupAssigned(RowScores(rows), domain);
  }

  /** The value `LastValue` finds for a domain is the health score of its last row. */
  lemma {:induction false} LastValueIsLastRow(rows: seq<SeoAuditRow>, domain: string)
    ensures LastValue(RowScores(rows), domain).None? <==> domain !in DomainsOf(rows)
    ensures LastValue(RowScores(rows), domain).Some? ==>
      exists i | 0 <= i < |rows| ::
        && rows[i].domain == domain
        && LastValue(RowScores(rows), domain).value == HealthOf(rows[i])
        && forall j | i < j < |rows| :: rows[j].domain != domain
    decreases |rows|
  {
    if rows != [] {
      var front := rows[..|rows| - 1];
      LastValueIsLastRow(front, domain);
      assert RowScores(rows)[..|rows| - 1] == RowScores(front);
      assert DomainsOf(rows) == DomainsOf(front) + [rows[|rows| - 1].domain];
      if rows[|rows| - 1].domain != domain && LastValue(RowScores(front), domain).Some? {
        var i :| 0 <= i < |front| && front[i].domain == domain
          && LastValue(RowScores(front), domain).value == HealthOf(front[i])
          && forall j | i < j < |front| :: front[j].domain != domain;
        assert rows[i] == front[i];
        assert forall j | i < j < |rows| :: rows[j].domain != domain by {
          forall j | i < j < |rows| ensures rows[j].domain != domain {
            if j < |front| { assert rows[j] == front[j]; }
          }
        }
      }
    }
  }
}
