/**
 * The test-ticket cleanup script (scripts/cleanup-test-tickets.mjs): the `.env` loader that
 * fills the process environment, the split of the stored tickets URI, and the loop that deletes
 * every ticket of an audit from Jira and reports each outcome.
 */
module CleanupScript {
  import opened Wrappers
  import opened JsString
  import opened Gcs

  /** Drops one trailing carriage return. */
  function DropCarriageReturn(s: string): (r: string)
    ensures r == s || r + "\r" == s
  {
    if s != [] && s[|s| - 1] == '\r' then s[..|s| - 1] else s
  }

  /** `content.split(/\r?\n/)`: cut at every "\n", a "\r" just before it belongs to the separator. */
  function EnvLines(content: string): seq<string> {
    WithoutCarriageReturns(SplitChar(content, '\n'))
  }

  /** The pieces of a split on "\n", each but the last without the "\r" that ended it. */
  function WithoutCarriageReturns(pieces: seq<string>): (r: seq<string>)
    ensures |r| == |pieces|
    ensures forall k | 0 <= k < |pieces| :: r[k] == if k < |pieces| - 1 then DropCarriageReturn(pieces[k]) else pieces[k]
  {
    seq(|pieces|, k requires 0 <= k < |pieces| => if k < |pieces| - 1 then DropCarriageReturn(pieces[k]) else pieces[k])
  }

  lemma {:induction false} TrimStartAllSpace(s: string)
    requires AllSpace(s)
    ensures TrimStart(s) == []
    decreases |s|
  {
    if s != [] {
      assert IsSpace(s[0]);
      assert AllSpace(s[1..]) by {
        forall k | 0 <= k < |s[1..]| ensures IsSpace(s[1..][k]) {
          assert s[1..][k] == s[k + 1];
        }
      }
      TrimStartAllSpace(s[1..]);
    }
  }

  lemma TrimStartSnoc(t: string, c: char)
    requires IsSpace(c)
    ensures TrimStart(t + [c]) == if AllSpace(t) then [] else TrimStart(t) + [c]
  {
    if AllSpace(t) {
      TrimStartSnocAllSpace(t, c);
    } else {
      TrimStartSnocText(t, c);
    }
  }

  /** Whitespace after whitespace trims away entirely. */
  lemma TrimStartSnocAllSpace(t: string, c: char)
    requires IsSpace(c) && AllSpace(t)
    ensures TrimStart(t + [c]) == []
  {
    var tc := t + [c];
    assert AllSpace(tc) by {
      forall k | 0 <= k < |tc| ensures IsSpace(tc[k]) {
        if k < |t| { assert tc[k] == t[k]; }
      }
    }
    assert tc[..|tc|] == tc;
    TrimStartAt(tc, |tc|);
  }

  /** Whitespace after some text survives the trim. */
  lemma TrimStartSnocText(t: string, c: char)
    requires !AllSpace(t)
    ensures TrimStart(t + [c]) == TrimStart(t) + [c]
  {
    var tc := t + [c];
    var r := TrimStart(t);
    var n := |t| - |r|;
    assert tc[..n] == t[..n];
    assert tc[n] == r[0];
    TrimStartAt(tc, n);
    assert tc[n..] == r + [c];
  }

  /** A carriage return before the line feed makes no difference once the line is trimmed. */
  lemma TrimDropsCarriageReturn(s: string)
    ensures Trim(DropCarriageReturn(s)) == Trim(s)
  {
    if s != [] && s[|s| - 1] == '\r' {
      var t := s[..|s| - 1];
      assert s == t + ['\r'];
      TrimStartSnoc(t, '\r');
      if AllSpace(t) {
        TrimStartAllSpace(t);
      } else {
        var u := TrimStart(t);
        assert (u + ['\r'])[..|u|] == u;
      }
    }
  }

  /** Splitting on "\r\n" or "\n" gives, after trimming, the lines of a split on "\n" alone. */
  lemma EnvLinesTrimmed(pieces: seq<string>, k: nat)
    requires k < |pieces|
    ensures Trim(WithoutCarriageReturns(pieces)[k]) == Trim(pieces[k])
  {
    var line := WithoutCarriageReturns(pieces)[k];
    if k < |pieces| - 1 {
      assert line == DropCarriageReturn(pieces[k]);
      TrimDropsCarriageReturn(pieces[k]);
    } else {
      assert line == pieces[k];
    }
  }

  /** What one line of `.env` assigns: `EntryOfTrimmed` of the trimmed line. */
  function EnvEntry(line: string): Option<(string, string)> {
    EntryOfTrimmed(Trim(line))
  }

  /**
   * What a trimmed line assigns: nothing for a blank line, a comment or a line without '=';
   * otherwise the line cut at its first '=', with neither side trimmed again.
   */
  function EntryOfTrimmed(t: string): (r: Option<(string, string)>)
    ensures r.None? <==> t == "" || StartsWith(t, "#") || forall k | 0 <= k < |t| :: t[k] != '='
    ensures r.Some? ==> r.value.0 + "=" + r.value.1 == t
    ensures r.Some? ==> forall k | 0 <= k < |r.value.0| :: r.value.0[k] != '='
  {
    if t == "" || StartsWith(t, "#") then None
    else
      var eqIdx := IndexOfChar(t, '=');
      if eqIdx < 0 then None
      else
        assert t == t[..eqIdx] + "=" + t[eqIdx + 1..];
        Some((t[..eqIdx], t[eqIdx + 1..]))
  }

  /** The text of an assignment `key=value`. */
  function EnvText(key: string, value: string): string {
    key + "=" + value
  }

  /**
   * The converse of `EnvEntry`: an assignment whose key is not blank, has no '=' and does not
   * open a comment, and whose text has no surrounding whitespace, is read back exactly.
   */
  lemma EnvEntryOfText(key: string, value: string)
    requires key != [] && key[0] != '#' && !IsSpace(key[0]) && forall k | 0 <= k < |key| :: key[k] != '='
    requires value == [] || !IsSpace(value[|value| - 1])
    ensures EnvEntry(EnvText(key, value)) == Some((key, value))
  {
    var line := EnvText(key, value);
    assert line[0] == key[0];
    assert line[|line| - 1] == if value == [] then '=' else value[|value| - 1];
    TrimOfTrimmed(line);
    EntryOfText(key, value);
  }

  lemma EntryOfText(key: string, value: string)
    requires key != [] && key[0] != '#' && forall k | 0 <= k < |key| :: key[k] != '='
    ensures EntryOfTrimmed(EnvText(key, value)) == Some((key, value))
  {
    var line := EnvText(key, value);
    assert line[..1] == [key[0]];
    IndexOfFirstChar(line, '=', |key|);
    assert line[..|key|] == key;
    assert line[|key| + 1..] == value;
  }

  /** `!process.env[key]`: the variable is unset or empty. */
  predicate Unset(env: map<string, string>, key: string) {
    key !in env || env[key] == ""
  }

  /** One assignment of `loadEnv`: it writes only a variable that is unset or empty. */
  function Apply(env: map<string, string>, e: Option<(string, string)>): map<string, string> {
    if e.Some? && Unset(env, e.value.0) then env[e.value.0 := e.value.1] else env
  }

  /** The environment after the assignments `es`, in order. */
  function Loaded(env: map<string, string>, es: seq<Option<(string, string)>>): map<string, string>
    decreases |es|
  {
    if es == [] then env else Apply(Loaded(env, es[..|es| - 1]), es[|es| - 1])
  }

  /** What each line assigns, in order. */
  function EnvEntries(lines: seq<string>): (r: seq<Option<(string, string)>>)
    ensures |r| == |lines|
    decreases |lines|
  {
    if lines == [] then [] else EnvEntries(lines[..|lines| - 1]) + [EnvEntry(lines[|lines| - 1])]
  }

  lemma EnvEntriesSnoc(lines: seq<string>, i: nat)
    requires i < |lines|
    ensures EnvEntries(lines[..i + 1]) == EnvEntries(lines[..i]) + [EnvEntry(lines[i])]
  {
    assert lines[..i + 1][..i] == lines[..i];
  }

  lemma LoadedSnoc(env: map<string, string>, es: seq<Option<(string, string)>>, e: Option<(string, string)>)
    ensures Loaded(env, es + [e]) == Apply(Loaded(env, es), e)
  {
    assert (es + [e])[..|es|] == es;
  }

  /** The process environment the script reads its configuration from. */
  class Environment {
    var vars: map<string, string>

    constructor (vars: map<string, string>)
      ensures this.vars == vars
    {
      this.vars := vars;
    }

    /** `loadEnv` over the text of `.env`. */
    method LoadEnv(content: string)
      modifies this
      ensures vars == Loaded(old(vars), EnvEntries(EnvLines(content)))
    {
      var lines := EnvLines(content);
      LoadLines(lines);
    }

    /** The loop of `loadEnv` over the lines of `.env`. */
    method LoadLines(lines: seq<string>)
      modifies this
      ensures vars == Loaded(old(vars), EnvEntries(lines))
    {
      var i := 0;
      while i < |lines|
        invariant 0 <= i <= |lines|
        invariant vars == Loaded(old(vars), EnvEntries(lines[..i]))
      {
        EnvEntriesSnoc(lines, i);
        LoadedSnoc(old(vars), EnvEntries(lines[..i]), EnvEntry(lines[i]));
        ghost var before := vars;
        var trimmed := Trim(lines[i]);
        if trimmed != "" && !StartsWith(trimmed, "#") {
          var eqIdx := IndexOfChar(trimmed, '=');
          if eqIdx >= 0 {
            var key := trimmed[..eqIdx];
            var value := trimmed[eqIdx + 1..];
            if Unset(vars, key) {
              vars := vars[key := value];
            }
          }
        }
        assert vars == Apply(before, EntryOfTrimmed(trimmed));
        i := i + 1;
      }
      assert lines[..|lines|] == lines;
    }
  }

  /** The first non-empty value the assignments give `key`. */
  function FirstValue(es: seq<Option<(string, string)>>, key: string): (r: Option<string>)
    ensures r.Some? ==> r.value != ""
    decreases |es|
  {
    if es == [] then None
    else if es[0].Some? && es[0].value.0 == key && es[0].value.1 != "" then Some(es[0].value.1)
    else FirstValue(es[1..], key)
  }

  /** Some assignment names `key`. */
  predicate Names(es: seq<Option<(string, string)>>, key: string) {
    exists k | 0 <= k < |es| :: es[k].Some? && es[k].value.0 == key
  }

  /** The variable `key` of an environment, as an optional value. */
  function Get(env: map<string, string>, key: string): Option<string> {
    if key in env then Some(env[key]) else None
  }

  /** What `key` ends up holding, when it starts as `cur`. */
  function Settled(cur: Option<string>, es: seq<Option<(string, string)>>, key: string): Option<string> {
    if Truthy(cur) then cur
    else if FirstValue(es, key).Some? then FirstValue(es, key)
    else if Names(es, key) then Some("")
    else cur
  }

  lemma {:induction false} FirstValueSnoc(es: seq<Option<(string, string)>>, e: Option<(string, string)>, key: string)
    ensures FirstValue(es + [e], key) ==
      if FirstValue(es, key).Some? then FirstValue(es, key)
      else if e.Some? && e.value.0 == key && e.value.1 != "" then Some(e.value.1)
      else None
    decreases |es|
  {
    if es == [] {
      assert [e][1..] == [];
    } else {
      assert (es + [e])[1..] == es[1..] + [e];
      FirstValueSnoc(es[1..], e, key);
    }
  }

  lemma NamesSnoc(es: seq<Option<(string, string)>>, e: Option<(string, string)>, key: string)
    ensures Names(es + [e], key) <==> Names(es, key) || (e.Some? && e.value.0 == key)
  {
    if Names(es, key) {
      var k :| 0 <= k < |es| && es[k].Some? && es[k].value.0 == key;
      assert (es + [e])[k] == es[k];
    }
    if Names(es + [e], key) && !(e.Some? && e.value.0 == key) {
      var k :| 0 <= k < |es| + 1 && (es + [e])[k].Some? && (es + [e])[k].value.0 == key;
      assert es[k] == (es + [e])[k];
    }
    if e.Some? && e.value.0 == key {
      assert (es + [e])[|es|] == e;
    }
  }

  lemma FirstValueNames(es: seq<Option<(string, string)>>, key: string)
    requires FirstValue(es, key).Some?
    ensures Names(es, key)
    decreases |es|
  {
    if es[0].Some? && es[0].value.0 == key && es[0].value.1 != "" {
      assert es[0].Some? && es[0].value.0 == key;
    } else {
      FirstValueNames(es[1..], key);
      var k :| 0 <= k < |es[1..]| && es[1..][k].Some? && es[1..][k].value.0 == key;
      assert es[k + 1] == es[1..][k];
    }
  }

  /**
   * The law of `loadEnv` for one variable: a variable already set to a non-empty value is kept;
   * an unset or empty one takes the first non-empty value `.env` gives it, or "" when every
   * assignment of it is empty; a variable `.env` does not name is untouched.
   */
  lemma {:induction false} LoadedLaw(env: map<string, string>, es: seq<Option<(string, string)>>, key: string)
    ensures Get(Loaded(env, es), key) == Settled(Get(env, key), es, key)
    decreases |es|
  {
    if es != [] {
      var n := |es| - 1;
      var front := es[..n];
      var e := es[n];
      assert es == front + [e];
      LoadedLaw(env, front, key);
      FirstValueSnoc(front, e, key);
      NamesSnoc(front, e, key);
      if FirstValue(front, key).Some? {
        FirstValueNames(front, key);
      }
      var before := Loaded(env, front);
      var c := Get(before, key);
      assert Unset(before, key) <==> !Truthy(c);
      assert Loaded(env, es) == Apply(before, e);
      if e.Some? && e.value.0 == key {
        assert Get(Apply(before, e), key) == if Truthy(c) then c else Some(e.value.1);
      } else {
        assert Get(Apply(before, e), key) == c;
      }
    }
  }

  /** The first occurrence of a variable with a non-empty value wins over every later one. */
  lemma FirstOccurrenceWins(env: map<string, string>, es: seq<Option<(string, string)>>, key: string)
    requires Unset(env, key) && FirstValue(es, key).Some?
    ensures key in Loaded(env, es) && Loaded(env, es)[key] == FirstValue(es, key).value
  {
    LoadedLaw(env, es, key);
  }

  /** What Jira answers one DELETE request with. */
  datatype DeleteResponse = DeleteResponse(status: int, text: string)

  /** The report line of one ticket. */
  datatype DeleteOutcome =
    | Deleted(issueKey: string)
    | AlreadyGone(issueKey: string)
    | DeleteFailed(issueKey: string, status: int, detail: string)

  /** 204 is a deletion, 404 an issue already gone, anything else a failure with the first 200 characters of the body. */
  function Classify(issueKey: string, response: DeleteResponse): (r: DeleteOutcome)
    ensures r.issueKey == issueKey
    ensures r.Deleted? <==> response.status == 204
    ensures r.AlreadyGone? <==> response.status == 404
    ensures r.DeleteFailed? ==> r.status == response.status && r.detail == Prefix(response.text, 200)
  {
    if response.status == 204 then Deleted(issueKey)
    else if response.status == 404 then AlreadyGone(issueKey)
    else DeleteFailed(issueKey, response.status, Prefix(response.text, 200))
  }

  /**
   * How far the delete loop gets: the outcome of every ticket it finished, and the message of a
   * rejected `fetch` (a network error), which throws out of the loop and skips the other tickets.
   */
  datatype DeleteRun = DeleteRun(outcomes: seq<DeleteOutcome>, rejected: Option<string>)

  /** The run over `issueKeys` in order; the `k`-th request is answered by `respond(k, key)`. */
  function DeleteResults(issueKeys: seq<string>, respond: (nat, string) -> Result<DeleteResponse>): DeleteRun
    decreases |issueKeys|
  {
    if issueKeys == [] then DeleteRun([], None)
    else
      var n := |issueKeys| - 1;
      var before := DeleteResults(issueKeys[..n], respond);
      if before.rejected.Some? then before
      else
        match respond(n, issueKeys[n])
        case Err(message) => DeleteRun(before.outcomes, Some(message))
        case Ok(response) => DeleteRun(before.outcomes + [Classify(issueKeys[n], response)], None)
  }

  /** Once a request was rejected, later tickets change nothing: the loop has been left. */
  lemma {:induction false} RejectionSticks(issueKeys: seq<string>, respond: (nat, string) -> Result<DeleteResponse>, i: nat)
    requires i <= |issueKeys| && DeleteResults(issueKeys[..i], respond).rejected.Some?
    ensures DeleteResults(issueKeys, respond) == DeleteResults(issueKeys[..i], respond)
    decreases |issueKeys|
  {
    if i < |issueKeys| {
      var n := |issueKeys| - 1;
      assert issueKeys[..n][..i] == issueKeys[..i];
      RejectionSticks(issueKeys[..n], respond, i);
    } else {
      assert issueKeys[..i] == issueKeys;
    }
  }

  /** The delete loop: one request per ticket, until a request is rejected. */
  method DeleteTickets(issueKeys: seq<string>, respond: (nat, string) -> Result<DeleteResponse>)
    returns (run: DeleteRun)
    ensures run == DeleteResults(issueKeys, respond)
  {
    var outcomes := [];
    var i := 0;
    while i < |issueKeys|
      invariant 0 <= i <= |issueKeys|
      invariant DeleteResults(issueKeys[..i], respond) == DeleteRun(outcomes, None)
    {
      assert issueKeys[..i + 1][..i] == issueKeys[..i];
      var issueKey := issueKeys[i];
      var response := respond(i, issueKey);
      if response.Err? {
        RejectionSticks(issueKeys, respond, i + 1);
        return DeleteRun(outcomes, Some(response.error));
      }
      if response.value.status == 204 {
        outcomes := outcomes + [Deleted(issueKey)];
      } else if response.value.status == 404 {
        outcomes := outcomes + [AlreadyGone(issueKey)];
      } else {
        outcomes := outcomes + [DeleteFailed(issueKey, response.value.status, Prefix(response.value.text, 200))];
      }
      i := i + 1;
    }
    assert issueKeys[..|issueKeys|] == issueKeys;
    run := DeleteRun(outcomes, None);
  }

  /**
   * The tickets before the first rejected request are visited once each, in order, and get the
   * outcome of their own response; the loop reaches every ticket exactly when no request is
   * rejected, and a rejection is reported with its message.
   */
  lemma {:induction false} DeleteOutcomesEach(issueKeys: seq<string>, respond: (nat, string) -> Result<DeleteResponse>)
    ensures var run := DeleteResults(issueKeys, respond);
      && |run.outcomes| <= |issueKeys|
      && (forall k | 0 <= k < |run.outcomes| ::
            respond(k, issueKeys[k]).Ok? && run.outcomes[k] == Classify(issueKeys[k], respond(k, issueKeys[k]).value))
      && (run.rejected.None? <==> |run.outcomes| == |issueKeys|)
      && (run.rejected.Some? ==> respond(|run.outcomes|, issueKeys[|run.outcomes|]) == Err(run.rejected.value))
    decreases |issueKeys|
  {
    if issueKeys != [] {
      var n := |issueKeys| - 1;
      DeleteOutcomesEach(issueKeys[..n], respond);
      forall k | 0 <= k < n ensures issueKeys[..n][k] == issueKeys[k] {
      }
    }
  }

  /** Without network errors every ticket is visited once, in order, and gets its own outcome. */
  lemma AllAnswered(issueKeys: seq<string>, respond: (nat, string) -> Result<DeleteResponse>)
    requires forall k | 0 <= k < |issueKeys| :: respond(k, issueKeys[k]).Ok?
    ensures DeleteResults(issueKeys, respond).rejected.None?
    ensures |DeleteResults(issueKeys, respond).outcomes| == |issueKeys|
  {
    DeleteOutcomesEach(issueKeys, respond);
  }

  /** The number of outcomes of each kind. */
  function CountOf(outcomes: seq<DeleteOutcome>, kind: nat): nat
    decreases |outcomes|
  {
    if outcomes == [] then 0
    else
      var o := outcomes[|outcomes| - 1];
      var here := if (kind == 0 && o.Deleted?) || (kind == 1 && o.AlreadyGone?) || (kind == 2 && o.DeleteFailed?) then 1 else 0;
      CountOf(outcomes[..|outcomes| - 1], kind) + here
  }

  /** The deleted, the already gone and the failed tickets add up to every ticket. */
  lemma {:induction false} OutcomesPartition(outcomes: seq<DeleteOutcome>)
    ensures CountOf(outcomes, 0) + CountOf(outcomes, 1) + CountOf(outcomes, 2) == |outcomes|
    decreases |outcomes|
  {
    if outcomes != [] {
      OutcomesPartition(outcomes[..|outcomes| - 1]);
    }
  }

  // ── The audit table ──────────────────────────────────────────────────────

  /** A row of the audit table, reduced to its id and its `jira_tickets_gcs_path`. */
  datatype AuditPathRow = AuditPathRow(auditId: string, ticketsPath: Option<string>)

  /**
   * The `jira_tickets_gcs_path` of every row of the audit, in table order. The query says
   * `LIMIT 1` with no `ORDER BY`, so BigQuery may return any one of these rows; the script reads
   * only the first row returned, and the model takes the first row in table order.
   */
  function PathsOf(rows: seq<AuditPathRow>, auditId: string): (r: seq<Option<string>>)
    ensures |r| <= |rows|
    decreases |rows|
  {
    if rows == [] then []
    else
      var n := |rows| - 1;
      PathsOf(rows[..n], auditId) + (if rows[n].auditId == auditId then [rows[n].ticketsPath] else [])
  }

  /** `UPDATE ... SET jira_tickets_gcs_path = NULL WHERE audit_id = @auditId`. */
  function Cleared(rows: seq<AuditPathRow>, auditId: string): (r: seq<AuditPathRow>)
    ensures |r| == |rows|
  {
    seq(|rows|, k requires 0 <= k < |rows| =>
      if rows[k].auditId == auditId then rows[k].(ticketsPath := None) else rows[k])
  }

  /** After the update, no row of the audit has a path and every other row is unchanged. */
  lemma {:induction false} ClearedPaths(rows: seq<AuditPathRow>, auditId: string)
    ensures forall k | 0 <= k < |PathsOf(Cleared(rows, auditId), auditId)| :: PathsOf(Cleared(rows, auditId), auditId)[k].None?
    ensures |PathsOf(Cleared(rows, auditId), auditId)| == |PathsOf(rows, auditId)|
    ensures forall k | 0 <= k < |rows| && rows[k].auditId != auditId :: Cleared(rows, auditId)[k] == rows[k]
    decreases |rows|
  {
    if rows != [] {
      var n := |rows| - 1;
      ClearedPaths(rows[..n], auditId);
      assert Cleared(rows, auditId)[..n] == Cleared(rows[..n], auditId);
    }
  }

  /** The audit table the script queries and updates. */
  class AuditTable {
    var rows: seq<AuditPathRow>

    constructor (rows: seq<AuditPathRow>)
      ensures this.rows == rows
    {
      this.rows := rows;
    }

    /**
     * `SELECT jira_tickets_gcs_path ... WHERE audit_id = @auditId LIMIT 1`: the paths in table order,
     * of which the script uses the first; which matching row BigQuery returns is left open by the query.
     */
    method SelectPaths(auditId: string) returns (r: seq<Option<string>>)
      ensures r == PathsOf(rows, auditId)
    {
      r := PathsOf(rows, auditId);
    }

    /** The final UPDATE of the script, which clears the audit's paths. */
    method ClearPaths(auditId: string)
      modifies this
      ensures rows == Cleared(old(rows), auditId)
    {
      rows := Cleared(rows, auditId);
    }
  }

  // ── main ─────────────────────────────────────────────────────────────────

  /**
   * How a run of the script ends. `Aborted` is an error caught by `main().catch`, with the
   * outcomes of the tickets handled before it.
   */
  datatype CleanupOutcome =
    | NothingToCleanUp
    | Aborted(message: string, outcomes: seq<DeleteOutcome>)
    | Cleaned(location: GcsLocation, outcomes: seq<DeleteOutcome>)

  /**
   * What `main` does after the BigQuery lookup: `storedPaths` are the paths of the rows found, and
   * the first of them stands for the one row `LIMIT 1` returns (an audit has one row per domain, and
   * the query does not say which comes back),
   * `download` what reading and parsing the stored object gives (`None` when it has no `tickets`),
   * `respond` what Jira answers or the error a rejected request throws.
   */
  function CleanupOf(storedPaths: seq<Option<string>>, download: GcsLocation -> Result<Option<seq<string>>>,
                     respond: (nat, string) -> Result<DeleteResponse>): CleanupOutcome
  {
    if storedPaths == [] || !Truthy(storedPaths[0]) then NothingToCleanUp
    else
      var gcsUri := storedPaths[0].value;
      match ParseGcsUri(gcsUri)
      case None => Aborted("Invalid GCS URI: " + gcsUri, [])
      case Some(location) =>
        match download(location)
        case Err(e) => Aborted(e, [])
        case Ok(tickets) =>
          var run := DeleteResults(tickets.GetOr([]), respond);
          if run.rejected.Some? then Aborted(run.rejected.value, run.outcomes) else Cleaned(location, run.outcomes)
  }

  /**
   * The script finds nothing to do exactly when the first row has no path; it aborts on an invalid
   * URI with that message; it cleans up exactly when the URI parses, the object downloads and
   * every DELETE request gets an answer, and then it reports the outcome of every ticket.
   * A rejected request aborts with its message after the tickets before it.
   */
  lemma CleanupCases(storedPaths: seq<Option<string>>, download: GcsLocation -> Result<Option<seq<string>>>,
                     respond: (nat, string) -> Result<DeleteResponse>)
    ensures var r := CleanupOf(storedPaths, download, respond);
      && (r.NothingToCleanUp? <==> storedPaths == [] || !Truthy(storedPaths[0]))
      && (r.Aborted? && storedPaths != [] && Truthy(storedPaths[0]) && ParseGcsUri(storedPaths[0].value).None? ==>
            r.message == "Invalid GCS URI: " + storedPaths[0].value && r.outcomes == [])
      && (r.Cleaned? <==>
            && storedPaths != [] && Truthy(storedPaths[0]) && ParseGcsUri(storedPaths[0].value).Some?
            && download(ParseGcsUri(storedPaths[0].value).value).Ok?
            && DeleteResults(download(ParseGcsUri(storedPaths[0].value).value).value.GetOr([]), respond).rejected.None?)
      && (r.Cleaned? ==>
            && r.location == ParseGcsUri(storedPaths[0].value).value
            && var keys := download(r.location).value.GetOr([]);
               |r.outcomes| == |keys|
               && forall k | 0 <= k < |keys| :: respond(k, keys[k]).Ok? && r.outcomes[k] == Classify(keys[k], respond(k, keys[k]).value))
  {
    var r := CleanupOf(storedPaths, download, respond);
    if r.Cleaned? {
      DeleteOutcomesEach(download(r.location).value.GetOr([]), respond);
    }
  }

  /** After a completed cleanup the audit has no path left, so running the script again does nothing. */
  lemma RerunFindsNothing(rows: seq<AuditPathRow>, auditId: string, download: GcsLocation -> Result<Option<seq<string>>>,
                          respond: (nat, string) -> Result<DeleteResponse>)
    ensures CleanupOf(PathsOf(Cleared(rows, auditId), auditId), download, respond) == NothingToCleanUp
  {
    ClearedPaths(rows, auditId);
  }

  /**
   * `main` from the BigQuery lookup on: the outcome is `CleanupOf` on the audit's paths, and the
   * table is updated, clearing the audit's paths, exactly when the cleanup completes.
   */
  method Cleanup(auditId: string, table: AuditTable, download: GcsLocation -> Result<Option<seq<string>>>,
                 respond: (nat, string) -> Result<DeleteResponse>)
    returns (r: CleanupOutcome)
    modifies table
    ensures r == CleanupOf(PathsOf(old(table.rows), auditId), download, respond)
    ensures table.rows == if r.Cleaned? then Cleared(old(table.rows), auditId) else old(table.rows)
  {
    var storedPaths := table.SelectPaths(auditId);
    if |storedPaths| == 0 || !Truthy(storedPaths[0]) {
      return NothingToCleanUp;
    }
    var gcsUri := storedPaths[0].value;
    var gcsMatch := ParseGcsUri(gcsUri);
    if gcsMatch.None? {
      return Aborted("Invalid GCS URI: " + gcsUri, []);
    }
    var contents := download(gcsMatch.value);
    if contents.Err? {
      return Aborted(contents.error, []);
    }
    var tickets := contents.value.GetOr([]);
    var run := DeleteTickets(tickets, respond);
    if run.rejected.Some? {
      return Aborted(run.rejected.value, run.outcomes);
    }
    table.ClearPaths(auditId);
    r := Cleaned(gcsMatch.value, run.outcomes);
  }
}
