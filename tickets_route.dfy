/**
 * The cross-domain tickets route (src/app/api/seo/tickets/route.ts). POST runs the combined
 * ticket pipeline once per latest audit date, guarded by the `seo_combined_ticket_runs` table;
 * GET reports the newest combined run. The BigQuery tables are modelled as sequences of rows
 * (the audit table read-only, the runs table a class whose rows POST appends to), the bucket
 * as a `Storage`, Jira as a `JiraServer`, and the classifier agent as an oracle.
 */
module TicketsRoute {
  import opened Wrappers
  import opened JsString
  import opened TicketTypes
  import opened Classifier
  import opened Gcs
  import opened JiraPublisher
  import opened Pipeline
  import opened BigQueryTypes
  import CrossDomainGrouper
  import Grouper
  import IssueIndex
  import StableSort
  import Seqs

  // ── resolveDate ──────────────────────────────────────────────────────────

  /**
   * `resolveDate(val)`: the object's `value`, a string unchanged, "" when missing. The route
   * declares it but never calls it.
   */
  function ResolveDate(v: DateValue): (r: string)
    ensures v.DateObject? ==> r == v.value
    ensures v.DateText? ==> r == v.text
    ensures v.NoDate? ==> r == ""
  {
    match v
    case NoDate => ""
    case DateText(text) => if text == "" then "" else text
    case DateObject(value) => value
  }

  // ── The audit table ──────────────────────────────────────────────────────

  /** A row of the audit table; `auditDate` is `CAST(audit_date AS STRING)`. */
  datatype AuditRow = AuditRow(auditId: string, domain: string, reportGcsPath: Option<string>, auditDate: string)

  /** `SELECT MAX(...)` over the dates: null for no rows, otherwise the greatest in string order. */
  function MaxDate(ds: seq<string>): (r: Option<string>)
    ensures r.None? <==> ds == []
    decreases |ds|
  {
    if ds == [] then None
    else
      var m := MaxDate(ds[..|ds| - 1]);
      var last := ds[|ds| - 1];
      if m.None? || StrLe(m.value, last) then Some(last) else m
  }

  function AuditDates(audits: seq<AuditRow>): (r: seq<string>)
    ensures |r| == |audits| && forall i | 0 <= i < |audits| :: r[i] == audits[i].auditDate
  {
    seq(|audits|, i requires 0 <= i < |audits| => audits[i].auditDate)
  }

  /** `SELECT MAX(CAST(audit_date AS STRING)) AS latest_date`. */
  function LatestAuditDate(audits: seq<AuditRow>): Option<string> {
    MaxDate(AuditDates(audits))
  }

  lemma StrLeRefl(a: string)
    ensures StrLe(a, a)
  {
    StrLeTotal(a, a);
  }

  /** The maximum is one of the dates and no date is greater. */
  lemma {:induction false} MaxDateIsMax(ds: seq<string>)
    ensures MaxDate(ds).Some? ==> MaxDate(ds).value in ds && forall d | d in ds :: StrLe(d, MaxDate(ds).value)
    decreases |ds|
  {
    if ds != [] {
      var front := ds[..|ds| - 1];
      var last := ds[|ds| - 1];
      assert ds == front + [last];
      MaxDateIsMax(front);
      var m := MaxDate(front);
      if m.None? {
        StrLeRefl(last);
      } else if StrLe(m.value, last) {
        StrLeRefl(last);
        forall d | d in front ensures StrLe(d, last) {
          StrLeTrans(d, m.value, last);
        }
      } else {
        StrLeTotal(m.value, last);
      }
    }
  }

  /** The latest audit date is the date of some row, and no row is dated later. */
  lemma LatestIsLatest(audits: seq<AuditRow>)
    ensures LatestAuditDate(audits).None? <==> audits == []
    ensures LatestAuditDate(audits).Some? ==>
      && (exists i | 0 <= i < |audits| :: audits[i].auditDate == LatestAuditDate(audits).value)
      && forall i | 0 <= i < |audits| :: StrLe(audits[i].auditDate, LatestAuditDate(audits).value)
  {
    var ds := AuditDates(audits);
    MaxDateIsMax(ds);
    if LatestAuditDate(audits).Some? {
      var m := LatestAuditDate(audits).value;
      var k :| 0 <= k < |ds| && ds[k] == m;
      assert audits[k].auditDate == m;
      forall i | 0 <= i < |audits| ensures StrLe(audits[i].auditDate, m) {
        assert ds[i] in ds;
      }
    }
  }

  /** A selected row of `WHERE CAST(audit_date AS STRING) = @latestDate AND report_gcs_path IS NOT NULL`. */
  datatype ReportRow = ReportRow(auditId: string, domain: string, uri: string)

  function ReportRowsFor(audits: seq<AuditRow>, date: string): (r: seq<ReportRow>)
    ensures |r| <= |audits|
    ensures r == [] <==> forall i | 0 <= i < |audits| :: audits[i].auditDate != date || audits[i].reportGcsPath.None?
    decreases |audits|
  {
    if audits == [] then []
    else
      var a := audits[|audits| - 1];
      var front := ReportRowsFor(audits[..|audits| - 1], date);
      if a.auditDate == date && a.reportGcsPath.Some?
      then front + [ReportRow(a.auditId, a.domain, a.reportGcsPath.value)]
      else front
  }

  // ── The runs table ───────────────────────────────────────────────────────

  /** A row of `seo_combined_ticket_runs`; `created_at` is not modelled. */
  datatype RunRow = RunRow(runDate: string, gcsPath: Option<string>)

  /** `WHERE run_date = @runDate LIMIT 1`: the first row with the date. */
  function FindRun(runs: seq<RunRow>, date: string): (r: Option<RunRow>)
    ensures r.None? <==> forall i | 0 <= i < |runs| :: runs[i].runDate != date
    ensures r.Some? ==> r.value in runs && r.value.runDate == date
    decreases |runs|
  {
    if runs == [] then None
    else
      var front := FindRun(runs[..|runs| - 1], date);
      var last := runs[|runs| - 1];
      if front.Some? then front
      else if last.runDate == date then Some(last)
      else None
  }

  /**
   * `ORDER BY run_date DESC LIMIT 1`: a row whose date no other row exceeds. The query leaves the
   * order of equal dates open; the model takes the first such row in table order.
   */
  function NewestRun(runs: seq<RunRow>): (r: Option<RunRow>)
    ensures r.None? <==> runs == []
    ensures r.Some? ==> r.value in runs
    decreases |runs|
  {
    if runs == [] then None
    else
      var m := NewestRun(runs[..|runs| - 1]);
      var last := runs[|runs| - 1];
      if m.None? || !StrLe(last.runDate, m.value.runDate) then Some(last) else m
  }

  /** No run is dated later than the newest one. */
  lemma {:induction false} NewestIsNewest(runs: seq<RunRow>)
    ensures NewestRun(runs).Some? ==> forall row | row in runs :: StrLe(row.runDate, NewestRun(runs).value.runDate)
    decreases |runs|
  {
    if runs != [] {
      var front := runs[..|runs| - 1];
      var last := runs[|runs| - 1];
      assert runs == front + [last];
      NewestIsNewest(front);
      var m := NewestRun(front);
      if m.None? {
        StrLeRefl(last.runDate);
      } else if !StrLe(last.runDate, m.value.runDate) {
        StrLeTotal(last.runDate, m.value.runDate);
        StrLeRefl(last.runDate);
        forall row | row in front ensures StrLe(row.runDate, last.runDate) {
          StrLeTrans(row.runDate, m.value.runDate, last.runDate);
        }
      }
    }
  }

  /** A run dated strictly later than every existing run becomes the newest. */
  lemma NewestAfterLaterInsert(runs: seq<RunRow>, row: RunRow)
    requires forall i | 0 <= i < |runs| :: StrLe(runs[i].runDate, row.runDate) && runs[i].runDate != row.runDate
    ensures NewestRun(runs + [row]) == Some(row)
  {
    assert (runs + [row])[..|runs|] == runs;
    var m := NewestRun(runs);
    if m.Some? {
      var k :| 0 <= k < |runs| && runs[k] == m.value;
      if StrLe(row.runDate, m.value.runDate) {
        StrLeAntisym(row.runDate, m.value.runDate);
      }
    }
  }

  /** The combined runs table. */
  class RunsTable {
    var rows: seq<RunRow>

    constructor (rows: seq<RunRow>)
      ensures this.rows == rows
    {
      this.rows := rows;
    }

    /** The idempotency query for one date. */
    method FindByDate(date: string) returns (r: Option<RunRow>)
      ensures r == FindRun(rows, date)
    {
      r := FindRun(rows, date);
    }

    /** The newest-run query of GET. */
    method Newest() returns (r: Option<RunRow>)
      ensures r == NewestRun(rows)
    {
      r := NewestRun(rows);
    }

    /** `INSERT INTO ... VALUES (@runDate, @gcsPath, CURRENT_TIMESTAMP())`. */
    method Insert(row: RunRow)
      modifies this
      ensures rows == old(rows) + [row]
    {
      rows := rows + [row];
    }
  }

  // ── Step 4: the downloads ────────────────────────────────────────────────

  /** A stored tickets record read as audit JSON has no `urls`. */
  function AsAuditJson(obj: StoredObject): RawAuditJson {
    match obj
    case AuditObject(audit) => audit
    case _ => RawAuditJson("", "", 0, RawIssueSummary(0, 0, 0, 0, 0), None)
  }

  /** One row's callback: parse the URI, download, `JSON.parse`, and label with the row's audit and domain. */
  function LoadOne(row: ReportRow, objects: map<GcsLocation, StoredObject>): Result<CrossDomainGrouper.AuditInput> {
    match FetchOutcome(row.uri, objects)
    case Err(e) => Err(e)
    case Ok(obj) => Ok(CrossDomainGrouper.AuditInput(row.auditId, row.domain, AsAuditJson(obj)))
  }

  predicate ValidUri(row: ReportRow) {
    ParseGcsUri(row.uri).Some?
  }

  /** The index of the first row whose URI does not parse. */
  function FirstInvalid(rows: seq<ReportRow>): (r: Option<nat>)
    ensures r.Some? ==> r.value < |rows|
    decreases |rows|
  {
    if rows == [] then None
    else
      var front := FirstInvalid(rows[..|rows| - 1]);
      if front.Some? then front
      else if !ValidUri(rows[|rows| - 1]) then Some(|rows| - 1)
      else None
  }

  /** It is none exactly when every URI parses, and otherwise the first row that does not. */
  lemma {:induction false} FirstInvalidSpec(rows: seq<ReportRow>)
    ensures FirstInvalid(rows).None? <==> forall i | 0 <= i < |rows| :: ValidUri(rows[i])
    ensures FirstInvalid(rows).Some? ==>
      && FirstInvalid(rows).value < |rows| && !ValidUri(rows[FirstInvalid(rows).value])
      && forall j | 0 <= j < FirstInvalid(rows).value :: ValidUri(rows[j])
    decreases |rows|
  {
    if rows != [] {
      var front := rows[..|rows| - 1];
      FirstInvalidSpec(front);
      assert forall j | 0 <= j < |front| :: front[j] == rows[j];
    }
  }

  /** `if (!bucket) bucket = parsed.bucket`, run for every row whose URI parses. */
  function BucketOf(rows: seq<ReportRow>): string
    decreases |rows|
  {
    if rows == [] then ""
    else
      var b := BucketOf(rows[..|rows| - 1]);
      var parsed := ParseGcsUri(rows[|rows| - 1].uri);
      if b == "" && parsed.Some? then parsed.value.bucket else b
  }

  /** The locations whose downloads were started, in row order. */
  function Started(rows: seq<ReportRow>): seq<GcsLocation>
    decreases |rows|
  {
    if rows == [] then [] else Started(rows[..|rows| - 1]) + RowStarted(rows[|rows| - 1])
  }

  /** The download one row's callback starts: none when its URI does not parse. */
  function RowStarted(row: ReportRow): seq<GcsLocation> {
    var parsed := ParseGcsUri(row.uri);
    if parsed.Some? then [parsed.value] else []
  }

  /** The loaded audits in row order, or the error of the first row that failed. */
  function Loaded(rows: seq<ReportRow>, objects: map<GcsLocation, StoredObject>): Result<seq<CrossDomainGrouper.AuditInput>> {
    CollectAll(row => LoadOne(row, objects), rows)
  }

  /** Loading succeeds exactly when every row loads, and then holds each row's input at its position. */
  lemma LoadedSpec(rows: seq<ReportRow>, objects: map<GcsLocation, StoredObject>)
    ensures var r := Loaded(rows, objects);
      && (r.Ok? <==> forall i | 0 <= i < |rows| :: LoadOne(rows[i], objects).Ok?)
      && (r.Ok? ==> |r.value| == |rows| && forall i | 0 <= i < |rows| :: LoadOne(rows[i], objects) == Ok(r.value[i]))
  {
    CollectAllOk(row => LoadOne(row, objects), rows);
    CollectAllValues(row => LoadOne(row, objects), rows);
  }

  /**
   * `await Promise.all(rows.map(async row => ...))` with the bucket it leaves behind. Every
   * callback parses its URI and starts its download before any download completes, so an invalid
   * URI rejects first; among failed downloads the first row's error is taken.
   */
  function LoadAudits(rows: seq<ReportRow>, objects: map<GcsLocation, StoredObject>): Result<(seq<CrossDomainGrouper.AuditInput>, string)> {
    match FirstInvalid(rows)
    case Some(k) => Err("Invalid GCS URI: " + rows[k].uri)
    case None =>
      match Loaded(rows, objects)
      case Err(e) => Err(e)
      case Ok(inputs) => Ok((inputs, BucketOf(rows)))
  }

  lemma {:induction false} BucketOfFirst(rows: seq<ReportRow>)
    requires rows != [] && forall i | 0 <= i < |rows| :: ValidUri(rows[i])
    ensures ParseGcsUri(rows[0].uri).Some? && BucketOf(rows) == ParseGcsUri(rows[0].uri).value.bucket
    decreases |rows|
  {
    if |rows| > 1 {
      var front := rows[..|rows| - 1];
      assert front[0] == rows[0];
      BucketOfFirst(front);
    } else {
      assert BucketOf(rows[..0]) == "";
    }
  }

  /**
   * Loading succeeds exactly when every URI parses and every object downloads and parses; then it
   * yields one input per row, in row order, and the first row's bucket, which is never empty, so
   * the `Could not determine GCS bucket` response cannot be reached.
   */
  lemma LoadAuditsOutcome(rows: seq<ReportRow>, objects: map<GcsLocation, StoredObject>)
    requires rows != []
    ensures var r := LoadAudits(rows, objects);
      && (r.Ok? <==> forall i | 0 <= i < |rows| :: FetchOutcome(rows[i].uri, objects).Ok?)
      && (FirstInvalid(rows).Some? ==> r == Err("Invalid GCS URI: " + rows[FirstInvalid(rows).value].uri))
      && (r.Ok? ==>
            && |r.value.0| == |rows|
            && (forall i | 0 <= i < |rows| :: r.value.0[i].auditId == rows[i].auditId && r.value.0[i].domain == rows[i].domain)
            && r.value.1 == ParseGcsUri(rows[0].uri).value.bucket
            && r.value.1 != "" && NoSlash(r.value.1))
  {
    var r := LoadAudits(rows, objects);
    FirstInvalidSpec(rows);
    LoadedSpec(rows, objects);
    if forall i | 0 <= i < |rows| :: FetchOutcome(rows[i].uri, objects).Ok? {
      forall i | 0 <= i < |rows| ensures ValidUri(rows[i]) && LoadOne(rows[i], objects).Ok? {
        assert FetchOutcome(rows[i].uri, objects).Ok?;
      }
      BucketOfFirst(rows);
    } else {
      var i :| 0 <= i < |rows| && FetchOutcome(rows[i].uri, objects).Err?;
      assert LoadOne(rows[i], objects).Err?;
    }
  }

  /** One row's callback: the URI is parsed and, when it parses, the download is started. */
  method LoadRow(row: ReportRow, storage: Storage) returns (outcome: Result<CrossDomainGrouper.AuditInput>)
    modifies storage
    ensures storage.objects == old(storage.objects) && storage.writable == old(storage.writable)
    ensures storage.downloads == old(storage.downloads) + RowStarted(row)
    ensures outcome == LoadOne(row, old(storage.objects))
  {
    var parsed := ParseGcsUri(row.uri);
    if parsed.None? {
      return Err("Invalid GCS URI: " + row.uri);
    }
    var contents := storage.Download(parsed.value);
    var json := ParseStored(contents);
    if json.Err? {
      return Err(json.error);
    }
    outcome := Ok(CrossDomainGrouper.AuditInput(row.auditId, row.domain, AsAuditJson(json.value)));
  }

  /** The loading functions on one more row. */
  lemma LoadStep(rows: seq<ReportRow>, i: nat, objects: map<GcsLocation, StoredObject>,
                 invalid: Option<nat>, bucket: string, loaded: Result<seq<CrossDomainGrouper.AuditInput>>,
                 outcome: Result<CrossDomainGrouper.AuditInput>)
    requires i < |rows|
    requires invalid == FirstInvalid(rows[..i]) && bucket == BucketOf(rows[..i]) && loaded == Loaded(rows[..i], objects)
    requires outcome == LoadOne(rows[i], objects)
    ensures var parsed := ParseGcsUri(rows[i].uri);
      && Started(rows[..i + 1]) == Started(rows[..i]) + RowStarted(rows[i])
      && FirstInvalid(rows[..i + 1]) == (if invalid.None? && parsed.None? then Some(i) else invalid)
      && BucketOf(rows[..i + 1]) == (if bucket == "" && parsed.Some? then parsed.value.bucket else bucket)
      && Loaded(rows[..i + 1], objects)
         == (if loaded.Err? then loaded else if outcome.Err? then Err(outcome.error) else Ok(loaded.value + [outcome.value]))
  {
    LoadStepOn(rows, i, objects);
  }

  lemma LoadStepOn(rows: seq<ReportRow>, i: nat, objects: map<GcsLocation, StoredObject>)
    requires i < |rows|
    ensures var parsed := ParseGcsUri(rows[i].uri);
      var invalid := FirstInvalid(rows[..i]);
      var bucket := BucketOf(rows[..i]);
      var loaded := Loaded(rows[..i], objects);
      var outcome := LoadOne(rows[i], objects);
      && Started(rows[..i + 1]) == Started(rows[..i]) + RowStarted(rows[i])
      && FirstInvalid(rows[..i + 1]) == (if invalid.None? && parsed.None? then Some(i) else invalid)
      && BucketOf(rows[..i + 1]) == (if bucket == "" && parsed.Some? then parsed.value.bucket else bucket)
      && Loaded(rows[..i + 1], objects)
         == (if loaded.Err? then loaded else if outcome.Err? then Err(outcome.error) else Ok(loaded.value + [outcome.value]))
  {
    var front := rows[..i];
    assert rows[..i + 1] == front + [rows[i]];
    RowFunctionsSnoc(front, rows[i]);
    CollectAllSnoc(row => LoadOne(row, objects), front, rows[i]);
  }

  lemma RowFunctionsSnoc(rows: seq<ReportRow>, row: ReportRow)
    ensures var parsed := ParseGcsUri(row.uri);
      && Started(rows + [row]) == Started(rows) + RowStarted(row)
      && FirstInvalid(rows + [row]) == (if FirstInvalid(rows).None? && parsed.None? then Some(|rows|) else FirstInvalid(rows))
      && BucketOf(rows + [row]) == (if BucketOf(rows) == "" && parsed.Some? then parsed.value.bucket else BucketOf(rows))
  {
    assert (rows + [row])[..|rows|] == rows;
  }

  /** The download loop: each row is parsed, the bucket noted, the download started and its result kept. */
  method LoadAuditInputs(rows: seq<ReportRow>, storage: Storage) returns (r: Result<(seq<CrossDomainGrouper.AuditInput>, string)>)
    modifies storage
    ensures storage.objects == old(storage.objects) && storage.writable == old(storage.writable)
    ensures storage.downloads == old(storage.downloads) + Started(rows)
    ensures r == LoadAudits(rows, old(storage.objects))
  {
    ghost var objects := storage.objects;
    ghost var downloads0 := storage.downloads;
    ghost var started := [];
    var invalid: Option<nat> := None;
    var bucket := "";
    var loaded: Result<seq<CrossDomainGrouper.AuditInput>> := Ok([]);
    var i := 0;
    while i < |rows|
      invariant 0 <= i <= |rows|
      invariant storage.objects == objects && storage.writable == old(storage.writable)
      invariant storage.downloads == downloads0 + started && started == Started(rows[..i])
      invariant invalid == FirstInvalid(rows[..i])
      invariant bucket == BucketOf(rows[..i])
      invariant loaded == Loaded(rows[..i], objects)
    {
      var parsed := ParseGcsUri(rows[i].uri);
      var outcome := LoadRow(rows[i], storage);
      LoadStep(rows, i, objects, invalid, bucket, loaded, outcome);
      Seqs.AppendAssoc(downloads0, started, RowStarted(rows[i]));
      started := started + RowStarted(rows[i]);
      invalid := if invalid.None? && parsed.None? then Some(i) else invalid;
      bucket := if bucket == "" && parsed.Some? then parsed.value.bucket else bucket;
      loaded := if loaded.Err? then loaded else if outcome.Err? then Err(outcome.error) else Ok(loaded.value + [outcome.value]);
      assert started == Started(rows[..i + 1]) && invalid == FirstInvalid(rows[..i + 1]);
      assert bucket == BucketOf(rows[..i + 1]) && loaded == Loaded(rows[..i + 1], objects);
      i := i + 1;
    }
    assert rows[..i] == rows;
    if invalid.Some? {
      return Err("Invalid GCS URI: " + rows[invalid.value].uri);
    }
    if loaded.Err? {
      return Err(loaded.error);
    }
    r := Ok((loaded.value, bucket));
  }

  // ── Steps 5-7: the combined pipeline ─────────────────────────────────────

  const CombinedDomain: string := "combined"

  /**
   * The stage chain on the cross-domain groups, stored under `tickets/combined/<runDate>/`: the
   * call the route evidently means at line 207, with the latest date as audit id and audit date.
   */
  function CombinedStages(latestDate: string, groups: seq<IssueGroupForTicket>, bucket: string,
                          agent: IssueGroupForTicket -> AgentRun, env: map<string, string>,
                          answer: (seq<JiraCall>, JiraCall) -> HttpResponse, log: seq<JiraCall>, writable: set<string>): PipelineRun
  {
    StagesRun(latestDate, groups, CombinedDomain, latestDate, bucket, ClassifierOf(agent), env, answer, log, writable)
  }

  /** Every cross-domain group is classified and, once drafted, sent to Jira; each is accounted for once. */
  lemma CombinedStagesPublishesGroups(latestDate: string, groups: seq<IssueGroupForTicket>, bucket: string,
                                      agent: IssueGroupForTicket -> AgentRun, env: map<string, string>,
                                      answer: (seq<JiraCall>, JiraCall) -> HttpResponse, log: seq<JiraCall>, writable: set<string>)
    requires GetJiraConfig(env).Ok?
    ensures var run := CombinedStages(latestDate, groups, bucket, agent, env, answer, log, writable);
      && CreateBodies(run.calls) == CreateBodies(log) + BodiesOf(DraftedOf(groups, ClassifierOf(agent)), GetJiraConfig(env).value)
      && (run.result.Ok? ==>
            && run.result.value.ticketsCreated + |run.result.value.failures| == |groups|
            && run.result.value.gcsPath == GcsUri(bucket, TicketsPath(CombinedDomain, latestDate)))
  {
    StagesRunAccounting(latestDate, groups, CombinedDomain, latestDate, bucket, ClassifierOf(agent), env, answer, log, writable);
    StagesRunOutcome(latestDate, groups, CombinedDomain, latestDate, bucket, ClassifierOf(agent), env, answer, log, writable);
  }

  /** JavaScript's rendering of a missing argument in a template literal. */
  const Undefined: string := "undefined"

  /** The group array passed where `rawJson` is expected: it has no `urls` property. */
  function ArrayAsAudit(): RawAuditJson {
    RawAuditJson(Undefined, Undefined, 0, RawIssueSummary(0, 0, 0, 0, 0), None)
  }

  /**
   * Line 207 as written: `runTicketCreationPipeline(latestDate, issueGroups, bucket)` against the
   * five-parameter signature, so the groups land in `rawJson`, the bucket in `domain`, and
   * `auditDate` and `bucket` are undefined; the pipeline regroups its `rawJson` itself.
   */
  function AsWrittenCombinedStages(latestDate: string, groups: seq<IssueGroupForTicket>, bucket: string,
                                   agent: IssueGroupForTicket -> AgentRun, env: map<string, string>,
                                   answer: (seq<JiraCall>, JiraCall) -> HttpResponse, log: seq<JiraCall>, writable: set<string>): PipelineRun
  {
    StagesRun(latestDate, Grouper.TicketGroups(ArrayAsAudit()), bucket, Undefined, Undefined, ClassifierOf(agent), env, answer, log, writable)
  }

  lemma NoGroupsFromArray()
    ensures Grouper.TicketGroups(ArrayAsAudit()) == []
  {
    var ps := Grouper.Sightings(ArrayAsAudit());
    assert ps == [];
    assert IssueIndex.KeysInOrder(ps) == [];
    var unsorted := Grouper.GroupsOf(ps, IssueIndex.KeysInOrder(ps), Undefined);
    assert unsorted == [];
    assert StableSort.Sort(unsorted, Grouper.GroupOrder) == [];
  }

  /**
   * As written, the combined run makes no Jira call and reports no tickets and no failures
   * whatever the groups, and stores its record under the bucket name rather than `combined`.
   */
  lemma AsWrittenDropsGroups(latestDate: string, groups: seq<IssueGroupForTicket>, bucket: string,
                             agent: IssueGroupForTicket -> AgentRun, env: map<string, string>,
                             answer: (seq<JiraCall>, JiraCall) -> HttpResponse, log: seq<JiraCall>, writable: set<string>)
    ensures var run := AsWrittenCombinedStages(latestDate, groups, bucket, agent, env, answer, log, writable);
      && run.calls == log
      && (run.result.Ok? ==>
            && run.result.value.ticketsCreated == 0 && run.result.value.failures == []
            && run.result.value.gcsPath == GcsUri(Undefined, TicketsPath(bucket, Undefined)))
  {
    NoGroupsFromArray();
    var classify := ClassifierOf(agent);
    assert DraftedOf([], classify) == [] && ClassifierFailuresOf([], classify) == [];
    if GetJiraConfig(env).Ok? {
      var all := PublishAll([], GetJiraConfig(env).value, answer, log);
      assert all == ([], log);
      assert SuccessfulTickets([]) == [] && FailedErrors([]) == [];
      assert PublishFailuresAsWritten([], []) == [];
    }
  }

  // ── POST ─────────────────────────────────────────────────────────────────

  /** What POST answers. `Crashed` is an exception thrown outside the try block. */
  datatype PostResponse =
    | NotFound(error: string)
    | AlreadyExists(runId: string, gcsPath: Option<string>)
    | ServerError(error: string, details: Option<string>)
    | Crashed(message: string)
    | Completed(result: TicketCreationResult)

  const NoAuditsMessage: string := "No audits found in BigQuery"
  const NoRowsPrefix: string := "No audit rows with GCS reports found for date "
  const NoBucketMessage: string := "Could not determine GCS bucket"
  const PipelineFailedMessage: string := "Combined ticket creation pipeline failed"

  /** The response and the state POST leaves: the runs table, the Jira calls and the stored objects. */
  datatype PostRun = PostRun(response: PostResponse, runs: seq<RunRow>, calls: seq<JiraCall>, objects: map<GcsLocation, StoredObject>)

  /** POST as a function of the tables, the bucket, the classifier agent and Jira. */
  function PostSpec(audits: seq<AuditRow>, runs: seq<RunRow>, objects: map<GcsLocation, StoredObject>, writable: set<string>,
                    agent: IssueGroupForTicket -> AgentRun, env: map<string, string>,
                    answer: (seq<JiraCall>, JiraCall) -> HttpResponse, log: seq<JiraCall>): PostRun
  {
    var latest := LatestAuditDate(audits);
    if !Truthy(latest) then PostRun(NotFound(NoAuditsMessage), runs, log, objects)
    else
      var date := latest.value;
      match FindRun(runs, date)
      case Some(existing) => PostRun(AlreadyExists(existing.runDate, existing.gcsPath), runs, log, objects)
      case None =>
        var rows := ReportRowsFor(audits, date);
        if rows == [] then PostRun(NotFound(NoRowsPrefix + date), runs, log, objects)
        else
          match LoadAudits(rows, objects)
          case Err(e) => PostRun(Crashed(e), runs, log, objects)
          case Ok(loaded) =>
            var bucket := loaded.1;
            if bucket == "" then PostRun(ServerError(NoBucketMessage, None), runs, log, objects)
            else
              var groups := CrossDomainGrouper.CrossDomainGroups(loaded.0);
              var stages := CombinedStages(date, groups, bucket, agent, env, answer, log, writable);
              var objects' := if stages.stored.Some?
                              then objects[GcsLocation(bucket, TicketsPath(CombinedDomain, date)) := TicketsObject(stages.stored.value)]
                              else objects;
              match stages.result
              case Err(e) => PostRun(ServerError(PipelineFailedMessage, Some(e)), runs, stages.calls, objects')
              case Ok(result) => PostRun(Completed(result), runs + [RunRow(date, Some(result.gcsPath))], stages.calls, objects')
  }

  /** `POST /api/seo/tickets`. */
  method Post(audits: seq<AuditRow>, runs: RunsTable, storage: Storage, jira: JiraServer,
              agent: IssueGroupForTicket -> AgentRun, env: map<string, string>)
    returns (resp: PostResponse)
    modifies runs, storage, jira
    ensures var spec := PostSpec(audits, old(runs.rows), old(storage.objects), old(storage.writable), agent, env, jira.answer, old(jira.calls));
      && resp == spec.response
      && runs.rows == spec.runs
      && jira.calls == spec.calls
      && storage.objects == spec.objects
  {
    var latest := LatestAuditDate(audits);
    if !Truthy(latest) {
      return NotFound(NoAuditsMessage);
    }
    var date := latest.value;
    var existing := runs.FindByDate(date);
    if existing.Some? {
      return AlreadyExists(existing.value.runDate, existing.value.gcsPath);
    }
    var rows := ReportRowsFor(audits, date);
    if rows == [] {
      return NotFound(NoRowsPrefix + date);
    }
    var loaded := LoadAuditInputs(rows, storage);
    if loaded.Err? {
      return Crashed(loaded.error);
    }
    var bucket := loaded.value.1;
    if bucket == "" {
      return ServerError(NoBucketMessage, None);
    }
    var groups := CrossDomainGrouper.GroupIssuesAcrossDomains(loaded.value.0);
    var result := RunStages(date, groups, CombinedDomain, date, bucket, ClassifierOf(agent), env, jira, storage);
    if result.Err? {
      return ServerError(PipelineFailedMessage, Some(result.error));
    }
    runs.Insert(RunRow(date, Some(result.value.gcsPath)));
    resp := Completed(result.value);
  }

  /** Without a latest audit date POST answers 404 and changes nothing. */
  lemma PostWithoutAudits(audits: seq<AuditRow>, runs: seq<RunRow>, objects: map<GcsLocation, StoredObject>, writable: set<string>,
                          agent: IssueGroupForTicket -> AgentRun, env: map<string, string>,
                          answer: (seq<JiraCall>, JiraCall) -> HttpResponse, log: seq<JiraCall>)
    requires !Truthy(LatestAuditDate(audits))
    ensures PostSpec(audits, runs, objects, writable, agent, env, answer, log) == PostRun(NotFound(NoAuditsMessage), runs, log, objects)
  {
  }

  /**
   * When any run row carries the latest date POST answers `exists` with that row, whether or not
   * its `gcs_path` is null, and runs nothing.
   */
  lemma PostWhenRunExists(audits: seq<AuditRow>, runs: seq<RunRow>, objects: map<GcsLocation, StoredObject>, writable: set<string>,
                          agent: IssueGroupForTicket -> AgentRun, env: map<string, string>,
                          answer: (seq<JiraCall>, JiraCall) -> HttpResponse, log: seq<JiraCall>, k: nat)
    requires Truthy(LatestAuditDate(audits))
    requires k < |runs| && runs[k].runDate == LatestAuditDate(audits).value
    ensures var latest := LatestAuditDate(audits).value;
      var post := PostSpec(audits, runs, objects, writable, agent, env, answer, log);
      && post.response.AlreadyExists?
      && post.response.runId == latest
      && (exists j | 0 <= j < |runs| :: runs[j] == RunRow(latest, post.response.gcsPath))
      && post.runs == runs && post.calls == log && post.objects == objects
  {
  }

  /** A row whose `gcs_path` is null still blocks a new run for its date. */
  lemma NullPathBlocksRun(audit: AuditRow, objects: map<GcsLocation, StoredObject>, writable: set<string>,
                          agent: IssueGroupForTicket -> AgentRun, env: map<string, string>,
                          answer: (seq<JiraCall>, JiraCall) -> HttpResponse, log: seq<JiraCall>)
    requires audit.auditDate != ""
    ensures PostSpec([audit], [RunRow(audit.auditDate, None)], objects, writable, agent, env, answer, log)
         == PostRun(AlreadyExists(audit.auditDate, None), [RunRow(audit.auditDate, None)], log, objects)
  {
    assert AuditDates([audit]) == [audit.auditDate];
    assert MaxDate([audit.auditDate]) == Some(audit.auditDate);
  }

  /**
   * What a completed POST did: the latest date had no run, the bucket of the first report row was
   * well formed, the record was written at `tickets/combined/<date>/tickets.json` in that bucket,
   * and exactly one run row with its path was appended.
   */
  lemma CompletedRecord(audits: seq<AuditRow>, runs: seq<RunRow>, objects: map<GcsLocation, StoredObject>, writable: set<string>,
                        agent: IssueGroupForTicket -> AgentRun, env: map<string, string>,
                        answer: (seq<JiraCall>, JiraCall) -> HttpResponse, log: seq<JiraCall>)
    returns (bucket: string)
    requires PostSpec(audits, runs, objects, writable, agent, env, answer, log).response.Completed?
    ensures Truthy(LatestAuditDate(audits))
    ensures var post := PostSpec(audits, runs, objects, writable, agent, env, answer, log);
      var date := LatestAuditDate(audits).value;
      var result := post.response.result;
      var path := TicketsPath(CombinedDomain, date);
      && FindRun(runs, date).None?
      && bucket != "" && NoSlash(bucket)
      && result.status == Complete && result.auditId == date
      && result.ticketsCreated == |result.tickets|
      && result.gcsPath == GcsUri(bucket, path)
      && post.runs == runs + [RunRow(date, Some(result.gcsPath))]
      && post.objects == objects[GcsLocation(bucket, path) :=
                                 TicketsObject(TicketsFile(date, CombinedDomain, date, result.ticketsCreated, result.tickets, result.failures))]
  {
    var date := LatestAuditDate(audits).value;
    var rows := ReportRowsFor(audits, date);
    LoadAuditsOutcome(rows, objects);
    var loaded := LoadAudits(rows, objects).value;
    bucket := loaded.1;
    var groups := CrossDomainGrouper.CrossDomainGroups(loaded.0);
    StagesRunOutcome(date, groups, CombinedDomain, date, bucket, ClassifierOf(agent), env, answer, log, writable);
  }

  /** POST adds a run row only when it completes, and then exactly one, for the latest date and the stored path. */
  lemma PostInsertsOnlyOnCompletion(audits: seq<AuditRow>, runs: seq<RunRow>, objects: map<GcsLocation, StoredObject>, writable: set<string>,
                                    agent: IssueGroupForTicket -> AgentRun, env: map<string, string>,
                                    answer: (seq<JiraCall>, JiraCall) -> HttpResponse, log: seq<JiraCall>)
    ensures var post := PostSpec(audits, runs, objects, writable, agent, env, answer, log);
      && (!post.response.Completed? ==> post.runs == runs)
      && (post.response.Completed? ==>
            var date := LatestAuditDate(audits).value;
            && FindRun(runs, date).None?
            && post.runs == runs + [RunRow(date, Some(post.response.result.gcsPath))])
  {
    var post := PostSpec(audits, runs, objects, writable, agent, env, answer, log);
    if post.response.Completed? {
      var _ := CompletedRecord(audits, runs, objects, writable, agent, env, answer, log);
    } else {
      PostKeepsRuns(audits, runs, objects, writable, agent, env, answer, log);
    }
  }

  lemma PostKeepsRuns(audits: seq<AuditRow>, runs: seq<RunRow>, objects: map<GcsLocation, StoredObject>, writable: set<string>,
                      agent: IssueGroupForTicket -> AgentRun, env: map<string, string>,
                      answer: (seq<JiraCall>, JiraCall) -> HttpResponse, log: seq<JiraCall>)
    requires !PostSpec(audits, runs, objects, writable, agent, env, answer, log).response.Completed?
    ensures PostSpec(audits, runs, objects, writable, agent, env, answer, log).runs == runs
  {
    var latest := LatestAuditDate(audits);
    if Truthy(latest) && FindRun(runs, latest.value).None? {
      var rows := ReportRowsFor(audits, latest.value);
      if rows != [] && LoadAudits(rows, objects).Ok? && LoadAudits(rows, objects).value.1 != "" {
        var loaded := LoadAudits(rows, objects).value;
        var stages := CombinedStages(latest.value, CrossDomainGrouper.CrossDomainGroups(loaded.0), loaded.1, agent, env, answer, log, writable);
        assert stages.result.Err?;
      }
    }
  }

  /** A pipeline failure answers 500 with its message and inserts no row; the Jira calls made so far stay made. */
  lemma PostPipelineFailure(audits: seq<AuditRow>, runs: seq<RunRow>, objects: map<GcsLocation, StoredObject>, writable: set<string>,
                            agent: IssueGroupForTicket -> AgentRun, env: map<string, string>,
                            answer: (seq<JiraCall>, JiraCall) -> HttpResponse, log: seq<JiraCall>)
    requires Truthy(LatestAuditDate(audits)) && GetJiraConfig(env).Err?
    requires FindRun(runs, LatestAuditDate(audits).value).None?
    requires var rows := ReportRowsFor(audits, LatestAuditDate(audits).value);
      rows != [] && forall i | 0 <= i < |rows| :: FetchOutcome(rows[i].uri, objects).Ok?
    ensures PostSpec(audits, runs, objects, writable, agent, env, answer, log)
         == PostRun(ServerError(PipelineFailedMessage, Some(MissingJiraEnv)), runs, log, objects)
  {
    var date := LatestAuditDate(audits).value;
    var rows := ReportRowsFor(audits, date);
    LoadAuditsOutcome(rows, objects);
    var loaded := LoadAudits(rows, objects).value;
    var groups := CrossDomainGrouper.CrossDomainGroups(loaded.0);
    StagesRunOutcome(date, groups, CombinedDomain, date, loaded.1, ClassifierOf(agent), env, answer, log, writable);
  }

  /** A second POST after a completed one answers `exists` with the recorded path and changes nothing. */
  lemma PostIsIdempotent(audits: seq<AuditRow>, runs: seq<RunRow>, objects: map<GcsLocation, StoredObject>, writable: set<string>,
                         agent: IssueGroupForTicket -> AgentRun, env: map<string, string>,
                         answer: (seq<JiraCall>, JiraCall) -> HttpResponse, log: seq<JiraCall>)
    requires PostSpec(audits, runs, objects, writable, agent, env, answer, log).response.Completed?
    ensures var first := PostSpec(audits, runs, objects, writable, agent, env, answer, log);
      var date := LatestAuditDate(audits).value;
      PostSpec(audits, first.runs, first.objects, writable, agent, env, answer, first.calls)
        == PostRun(AlreadyExists(date, Some(first.response.result.gcsPath)), first.runs, first.calls, first.objects)
  {
    PostInsertsOnlyOnCompletion(audits, runs, objects, writable, agent, env, answer, log);
    var first := PostSpec(audits, runs, objects, writable, agent, env, answer, log);
    var date := LatestAuditDate(audits).value;
    assert first.runs[..|runs|] == runs;
  }

  // ── GET ──────────────────────────────────────────────────────────────────

  /** What GET answers: `not_generated` with the latest audit date, or `complete` with the stored record. */
  datatype GetResponse =
    | NotGenerated(latestDate: Option<string>)
    | RunComplete(runDate: string, gcsPath: string, data: StoredObject)

  function GetSpec(audits: seq<AuditRow>, runs: seq<RunRow>, objects: map<GcsLocation, StoredObject>): GetResponse {
    var latest := LatestAuditDate(audits);
    match NewestRun(runs)
    case None => NotGenerated(latest)
    case Some(row) =>
      if !Truthy(row.gcsPath) then NotGenerated(latest)
      else
        match FetchOutcome(row.gcsPath.value, objects)
        case Err(_) => NotGenerated(latest)
        case Ok(data) => RunComplete(row.runDate, row.gcsPath.value, data)
  }

  /** `GET /api/seo/tickets`. */
  method Get(audits: seq<AuditRow>, runs: RunsTable, storage: Storage) returns (resp: GetResponse)
    modifies storage
    ensures resp == GetSpec(audits, runs.rows, old(storage.objects))
    ensures storage.objects == old(storage.objects) && storage.writable == old(storage.writable)
  {
    var newest := runs.Newest();
    var latest := LatestAuditDate(audits);
    if newest.None? {
      return NotGenerated(latest);
    }
    var row := newest.value;
    if !Truthy(row.gcsPath) {
      return NotGenerated(latest);
    }
    var fetched := FetchJsonFromGcs(storage, row.gcsPath.value);
    if fetched.Err? {
      return NotGenerated(latest);
    }
    resp := RunComplete(row.runDate, row.gcsPath.value, fetched.value);
  }

  /**
   * GET looks only at the newest run: it is complete exactly when that run has a path whose
   * record can be read, and then it reports that run's date, which no other run's date exceeds.
   */
  lemma GetOutcome(audits: seq<AuditRow>, runs: seq<RunRow>, objects: map<GcsLocation, StoredObject>)
    ensures var resp := GetSpec(audits, runs, objects);
      var newest := NewestRun(runs);
      && (resp.RunComplete? <==> newest.Some? && Truthy(newest.value.gcsPath) && FetchOutcome(newest.value.gcsPath.value, objects).Ok?)
      && (resp.NotGenerated? ==> resp.latestDate == LatestAuditDate(audits))
      && (resp.RunComplete? ==>
            && resp.runDate == newest.value.runDate
            && Some(resp.gcsPath) == newest.value.gcsPath
            && resp.data == FetchOutcome(resp.gcsPath, objects).value
            && forall row | row in runs :: StrLe(row.runDate, resp.runDate))
  {
    NewestIsNewest(runs);
  }

  /**
   * After a completed POST whose date is later than every earlier run, GET reports that run as
   * complete with the very record the pipeline stored.
   */
  lemma GetAfterPost(audits: seq<AuditRow>, runs: seq<RunRow>, objects: map<GcsLocation, StoredObject>, writable: set<string>,
                     agent: IssueGroupForTicket -> AgentRun, env: map<string, string>,
                     answer: (seq<JiraCall>, JiraCall) -> HttpResponse, log: seq<JiraCall>)
    requires PostSpec(audits, runs, objects, writable, agent, env, answer, log).response.Completed?
    requires Truthy(LatestAuditDate(audits)) && NoLineTerminator(LatestAuditDate(audits).value)
    requires forall i | 0 <= i < |runs| :: StrLe(runs[i].runDate, LatestAuditDate(audits).value)
    ensures var post := PostSpec(audits, runs, objects, writable, agent, env, answer, log);
      var result := post.response.result;
      GetSpec(audits, post.runs, post.objects)
        == RunComplete(LatestAuditDate(audits).value, result.gcsPath,
                       TicketsObject(TicketsFile(result.auditId, CombinedDomain, LatestAuditDate(audits).value,
                                                 result.ticketsCreated, result.tickets, result.failures)))
  {
    var bucket := CompletedRecord(audits, runs, objects, writable, agent, env, answer, log);
    var post := PostSpec(audits, runs, objects, writable, agent, env, answer, log);
    var result := post.response.result;
    GetAfterInsert(audits, runs, objects, bucket, LatestAuditDate(audits).value,
                   TicketsFile(result.auditId, CombinedDomain, LatestAuditDate(audits).value, result.ticketsCreated, result.tickets, result.failures));
  }

  lemma CombinedDomainPlain()
    ensures NoLineTerminator(CombinedDomain)
  {
  }

  /** GET after a run row for a later date was appended and its record stored. */
  lemma GetAfterInsert(audits: seq<AuditRow>, runs: seq<RunRow>, objects: map<GcsLocation, StoredObject>,
                       bucket: string, date: string, file: TicketsFile)
    requires bucket != "" && NoSlash(bucket) && NoLineTerminator(date)
    requires forall i | 0 <= i < |runs| :: StrLe(runs[i].runDate, date) && runs[i].runDate != date
    ensures var path := TicketsPath(CombinedDomain, date);
      GetSpec(audits, runs + [RunRow(date, Some(GcsUri(bucket, path)))], objects[GcsLocation(bucket, path) := TicketsObject(file)])
        == RunComplete(date, GcsUri(bucket, path), TicketsObject(file))
  {
    var path := TicketsPath(CombinedDomain, date);
    NewestAfterLaterInsert(runs, RunRow(date, Some(GcsUri(bucket, path))));
    CombinedDomainPlain();
    StoredPathParses(bucket, CombinedDomain, date);
  }
}
