/**
 * `runTicketCreationPipeline` (src/lib/agents/ticket-creation/pipeline.ts): group, classify in
 * batches of three, publish to Jira one ticket at a time, store the result record and report it.
 * The stage chain takes the group list, so that both the single-domain entry point (which groups
 * one audit) and the cross-domain route (which groups many audits first) run it.
 * `Promise.allSettled` over a batch is evaluated in batch order.
 */
module Pipeline {
  import opened Wrappers
  import opened JsString
  import opened TicketTypes
  import opened Classifier
  import opened JiraPublisher
  import opened Gcs
  import Grouper
  import Seqs

  const ClassifierBatchSize: nat := 3

  function Min(a: int, b: int): int {
    if a <= b then a else b
  }

  // ── Stage 2: classification ──────────────────────────────────────────────

  /** `runClassifierAgent(group)` with the agent's behaviour given by `agent`. */
  function ClassifierOf(agent: IssueGroupForTicket -> AgentRun): IssueGroupForTicket -> Result<DraftedTicket> {
    g => RunClassifierAgent(g, agent(g))
  }

  /** The settled outcome of one group's classifier run. */
  function ClassifyOne(g: IssueGroupForTicket, classify: IssueGroupForTicket -> Result<DraftedTicket>): Result<DraftedTicket> {
    classify(g)
  }

  /** The drafted tickets of the groups whose run succeeded, in group order. */
  function DraftedOf(groups: seq<IssueGroupForTicket>, classify: IssueGroupForTicket -> Result<DraftedTicket>): seq<DraftedTicket>
    decreases |groups|
  {
    if groups == [] then []
    else
      var r := ClassifyOne(groups[|groups| - 1], classify);
      DraftedOf(groups[..|groups| - 1], classify) + (if r.Ok? then [r.value] else [])
  }

  /** The issue type and error of the groups whose run failed, in group order. */
  function ClassifierFailuresOf(groups: seq<IssueGroupForTicket>, classify: IssueGroupForTicket -> Result<DraftedTicket>): seq<Failure>
    decreases |groups|
  {
    if groups == [] then []
    else
      var g := groups[|groups| - 1];
      var r := ClassifyOne(g, classify);
      ClassifierFailuresOf(groups[..|groups| - 1], classify) + (if r.Err? then [Failure(g.issueType, r.error)] else [])
  }

  /** `issueGroups.slice(start, start + CLASSIFIER_BATCH_SIZE)`. */
  function BatchOf<T>(groups: seq<T>, start: nat): seq<T>
    requires start <= |groups|
  {
    groups[start..Min(start + ClassifierBatchSize, |groups|)]
  }

  /** `Math.ceil(n / CLASSIFIER_BATCH_SIZE)`. */
  function NumBatches(n: nat): nat {
    (n + ClassifierBatchSize - 1) / ClassifierBatchSize
  }

  /** The batches the loop visits: batch k starts at group 3k. */
  function Batches<T>(groups: seq<T>): seq<seq<T>>
    decreases |groups|
  {
    if groups == [] then []
    else if |groups| <= ClassifierBatchSize then [groups]
    else [groups[..ClassifierBatchSize]] + Batches(groups[ClassifierBatchSize..])
  }

  function Flatten<T>(bs: seq<seq<T>>): seq<T>
    decreases |bs|
  {
    if bs == [] then [] else bs[0] + Flatten(bs[1..])
  }

  /** There are ceil(n/3) batches. */
  lemma {:induction false} BatchesCount<T>(groups: seq<T>)
    ensures |Batches(groups)| == NumBatches(|groups|)
    decreases |groups|
  {
    if |groups| > ClassifierBatchSize {
      BatchesCount(groups[ClassifierBatchSize..]);
    }
  }

  /** In order, the batches are exactly the group list. */
  lemma {:induction false} BatchesFlatten<T>(groups: seq<T>)
    ensures Flatten(Batches(groups)) == groups
    decreases |groups|
  {
    if |groups| > ClassifierBatchSize {
      var rest := groups[ClassifierBatchSize..];
      BatchesFlatten(rest);
      var bs := Batches(groups);
      assert bs[1..] == Batches(rest);
      assert groups[..ClassifierBatchSize] + rest == groups;
    } else if groups != [] {
      assert [groups][1..] == [];
    }
  }

  /** Batch k is the groups [3k, min(3k+3, n)), and it is never empty. */
  lemma {:induction false} BatchesAt<T>(groups: seq<T>)
    ensures var bs := Batches(groups);
      forall k | 0 <= k < |bs| :: 3 * k < |groups| && bs[k] == BatchOf(groups, 3 * k) && bs[k] != []
    decreases |groups|
  {
    if |groups| > ClassifierBatchSize {
      var rest := groups[ClassifierBatchSize..];
      BatchesAt(rest);
      var bs := Batches(groups);
      forall k | 1 <= k < |bs|
        ensures 3 * k < |groups| && bs[k] == BatchOf(groups, 3 * k)
      {
        assert bs[k] == Batches(rest)[k - 1];
        BatchOfDrop(groups, 3 * (k - 1));
      }
    }
  }

  /** A batch of the groups after the first batch is a batch of all the groups, three places on. */
  lemma BatchOfDrop<T>(groups: seq<T>, start: nat)
    requires start + ClassifierBatchSize < |groups|
    ensures BatchOf(groups[ClassifierBatchSize..], start) == BatchOf(groups, start + ClassifierBatchSize)
  {
    var rest := groups[ClassifierBatchSize..];
    var e := Min(start + 2 * ClassifierBatchSize, |groups|);
    assert Min(start + ClassifierBatchSize, |rest|) == e - ClassifierBatchSize;
    assert rest[start..e - ClassifierBatchSize] == groups[start + ClassifierBatchSize..e];
  }

  lemma {:induction false} DraftedConcat(a: seq<IssueGroupForTicket>, b: seq<IssueGroupForTicket>,
                                         classify: IssueGroupForTicket -> Result<DraftedTicket>)
    ensures DraftedOf(a + b, classify) == DraftedOf(a, classify) + DraftedOf(b, classify)
    ensures ClassifierFailuresOf(a + b, classify) == ClassifierFailuresOf(a, classify) + ClassifierFailuresOf(b, classify)
    decreases |b|
  {
    if b == [] {
      assert a + b == a;
    } else {
      assert (a + b)[..|a + b| - 1] == a + b[..|b| - 1];
      DraftedConcat(a, b[..|b| - 1], classify);
    }
  }

  /** Every group lands in exactly one of the two lists. */
  lemma {:induction false} PartitionCount(groups: seq<IssueGroupForTicket>, classify: IssueGroupForTicket -> Result<DraftedTicket>)
    ensures |DraftedOf(groups, classify)| + |ClassifierFailuresOf(groups, classify)| == |groups|
    decreases |groups|
  {
    if groups != [] {
      PartitionCount(groups[..|groups| - 1], classify);
    }
  }

  /**
   * Group i contributes its own ticket or its own failure, between those of the groups before and
   * after it: a failure does not keep any other group from being classified.
   */
  lemma EachGroupClassified(groups: seq<IssueGroupForTicket>, classify: IssueGroupForTicket -> Result<DraftedTicket>, i: nat)
    requires i < |groups|
    ensures var r := ClassifyOne(groups[i], classify);
      && DraftedOf(groups, classify)
           == DraftedOf(groups[..i], classify) + (if r.Ok? then [r.value] else []) + DraftedOf(groups[i + 1..], classify)
      && ClassifierFailuresOf(groups, classify)
           == ClassifierFailuresOf(groups[..i], classify)
              + (if r.Err? then [Failure(groups[i].issueType, r.error)] else [])
              + ClassifierFailuresOf(groups[i + 1..], classify)
  {
    Seqs.SplitAround(groups, i);
    DraftedConcat(groups[..i] + [groups[i]], groups[i + 1..], classify);
    DraftedConcat(groups[..i], [groups[i]], classify);
    assert [groups[i]][..0] == [];
  }

  /**
   * With the classifier agent, every drafted ticket carries one of the input groups unchanged and
   * one of the four Jira priorities.
   */
  lemma {:induction false} DraftedFromGroups(groups: seq<IssueGroupForTicket>, agent: IssueGroupForTicket -> AgentRun)
    ensures forall t | t in DraftedOf(groups, ClassifierOf(agent)) :: t.issueGroup in groups && t.priority in JiraPriorities
    decreases |groups|
  {
    if groups != [] {
      var front := groups[..|groups| - 1];
      var last := groups[|groups| - 1];
      DraftedFromGroups(front, agent);
      forall t | t in DraftedOf(groups, ClassifierOf(agent))
        ensures t.issueGroup in groups && t.priority in JiraPriorities
      {
        if t !in DraftedOf(front, ClassifierOf(agent)) {
          var r := RunClassifierAgent(last, agent(last));
          assert r.Ok? && t == r.value;
        } else {
          assert t.issueGroup in front;
        }
      }
    }
  }

  /** The results of one batch's `Promise.allSettled`, in batch order. */
  function SettleBatch(batch: seq<IssueGroupForTicket>, classify: IssueGroupForTicket -> Result<DraftedTicket>): (r: seq<Result<DraftedTicket>>)
    ensures |r| == |batch| && forall j | 0 <= j < |batch| :: r[j] == ClassifyOne(batch[j], classify)
  {
    seq(|batch|, j requires 0 <= j < |batch| => ClassifyOne(batch[j], classify))
  }

  /** The batches from group i on: the one starting at i, then those from i + 3 on. */
  lemma BatchesStep<T>(groups: seq<T>, i: nat)
    requires i < |groups|
    ensures Batches(groups[i..])
      == [BatchOf(groups, i)] + (if i + ClassifierBatchSize < |groups| then Batches(groups[i + ClassifierBatchSize..]) else [])
  {
    if i + ClassifierBatchSize < |groups| {
      assert groups[i..][..ClassifierBatchSize] == BatchOf(groups, i);
      assert groups[i..][ClassifierBatchSize..] == groups[i + ClassifierBatchSize..];
    } else {
      assert groups[i..] == BatchOf(groups, i);
    }
  }

  /** The loop's ghost record of visited batches, advanced past the batch starting at i. */
  lemma BatchesAdvance<T>(groups: seq<T>, batches: seq<seq<T>>, i: nat)
    requires i < |groups|
    requires batches + Batches(groups[i..]) == Batches(groups)
    ensures var next := batches + [BatchOf(groups, i)];
      next + (if i + ClassifierBatchSize < |groups| then Batches(groups[i + ClassifierBatchSize..]) else []) == Batches(groups)
  {
    BatchesStep(groups, i);
    var rest := if i + ClassifierBatchSize < |groups| then Batches(groups[i + ClassifierBatchSize..]) else [];
    assert batches + ([BatchOf(groups, i)] + rest) == batches + [BatchOf(groups, i)] + rest;
  }

  /** One more group: its ticket or its failure is appended. */
  lemma DraftedStep(groups: seq<IssueGroupForTicket>, k: nat, classify: IssueGroupForTicket -> Result<DraftedTicket>)
    requires k < |groups|
    ensures var r := ClassifyOne(groups[k], classify);
      && DraftedOf(groups[..k + 1], classify) == DraftedOf(groups[..k], classify) + (if r.Ok? then [r.value] else [])
      && ClassifierFailuresOf(groups[..k + 1], classify)
         == ClassifierFailuresOf(groups[..k], classify) + (if r.Err? then [Failure(groups[k].issueType, r.error)] else [])
  {
    assert groups[..k + 1][..k] == groups[..k];
  }

  /** The inner loop over one batch's settled results: each is pushed to the tickets or the failures. */
  method SettleInto(groups: seq<IssueGroupForTicket>, i: nat, end: nat, classify: IssueGroupForTicket -> Result<DraftedTicket>,
                    drafted0: seq<DraftedTicket>, failures0: seq<Failure>)
    returns (drafted: seq<DraftedTicket>, failures: seq<Failure>)
    requires i <= end <= |groups|
    requires drafted0 == DraftedOf(groups[..i], classify) && failures0 == ClassifierFailuresOf(groups[..i], classify)
    ensures drafted == DraftedOf(groups[..end], classify) && failures == ClassifierFailuresOf(groups[..end], classify)
  {
    drafted, failures := drafted0, failures0;
    var batch := groups[i..end];
    var results := SettleBatch(batch, classify);
    for j := 0 to |results|
      invariant drafted == DraftedOf(groups[..i + j], classify)
      invariant failures == ClassifierFailuresOf(groups[..i + j], classify)
    {
      DraftedStep(groups, i + j, classify);
      assert groups[i + j] == batch[j];
      if results[j].Ok? {
        drafted := drafted + [results[j].value];
      } else {
        failures := failures + [Failure(batch[j].issueType, results[j].error)];
      }
    }
  }

  /** The batch loop of `runPipeline`, with the batches it visited. */
  method ClassifyInBatches(groups: seq<IssueGroupForTicket>, classify: IssueGroupForTicket -> Result<DraftedTicket>)
    returns (drafted: seq<DraftedTicket>, failures: seq<Failure>, ghost batches: seq<seq<IssueGroupForTicket>>)
    ensures drafted == DraftedOf(groups, classify)
    ensures failures == ClassifierFailuresOf(groups, classify)
    ensures batches == Batches(groups)
  {
    drafted, failures, batches := [], [], [];
    var n := |groups|;
    var i := 0;
    while i < n
      invariant batches + (if i < n then Batches(groups[i..]) else []) == Batches(groups)
      invariant drafted == DraftedOf(groups[..Min(i, n)], classify)
      invariant failures == ClassifierFailuresOf(groups[..Min(i, n)], classify)
      decreases n - i
    {
      var end := Min(i + ClassifierBatchSize, n);
      drafted, failures := SettleInto(groups, i, end, classify, drafted, failures);
      BatchesAdvance(groups, batches, i);
      assert groups[i..end] == BatchOf(groups, i);
      batches := batches + [groups[i..end]];
      i := i + ClassifierBatchSize;
    }
    assert groups[..n] == groups;
  }

  // ── Stage 3: publish results ─────────────────────────────────────────────

  /** `publishResults.filter((r) => r.success && r.ticket).map((r) => r.ticket!)`. */
  function SuccessfulTickets(results: seq<PublishResult>): seq<JiraTicketResult>
    decreases |results|
  {
    if results == [] then []
    else
      var r := results[|results| - 1];
      SuccessfulTickets(results[..|results| - 1]) + (if r.Published? then [r.ticket] else [])
  }

  /** The errors of the failed results, in order. */
  function FailedErrors(results: seq<PublishResult>): seq<string>
    decreases |results|
  {
    if results == [] then []
    else
      var r := results[|results| - 1];
      FailedErrors(results[..|results| - 1]) + (if r.PublishFailed? then [r.error] else [])
  }

  lemma {:induction false} SuccessesAndFailures(results: seq<PublishResult>)
    ensures |SuccessfulTickets(results)| + |FailedErrors(results)| == |results|
    ensures forall t | t in SuccessfulTickets(results) :: Published(t) in results
    decreases |results|
  {
    if results != [] {
      var front := results[..|results| - 1];
      SuccessesAndFailures(front);
      forall t | t in SuccessfulTickets(results)
        ensures Published(t) in results
      {
        if t in SuccessfulTickets(front) {
          assert Published(t) in front;
        }
      }
    }
  }

  /**
   * The publish-failure labelling of `runPipeline` as written: the k-th failure, counted among
   * failures only, is labelled with the k-th drafted ticket's issue type, and "unknown" past the end.
   */
  function PublishFailuresAsWritten(results: seq<PublishResult>, drafted: seq<DraftedTicket>): (r: seq<Failure>)
    ensures |r| == |FailedErrors(results)|
  {
    var errors := FailedErrors(results);
    seq(|errors|, k requires 0 <= k < |errors| =>
      Failure(if k < |drafted| then drafted[k].issueGroup.issueType else "unknown", errors[k]))
  }

  /**
   * The failures labelled by their position among all publish results, with the same
   * `?.issue_type ?? 'unknown'` fallback.
   */
  function PublishFailures(results: seq<PublishResult>, drafted: seq<DraftedTicket>): seq<Failure>
    decreases |results|
  {
    if results == [] then []
    else
      var n := |results| - 1;
      PublishFailures(results[..n], drafted)
        + (if results[n].PublishFailed?
           then [Failure(if n < |drafted| then drafted[n].issueGroup.issueType else "unknown", results[n].error)]
           else [])
  }

  /** The positions of the failed results, in increasing order. */
  function FailedIndices(results: seq<PublishResult>): (r: seq<nat>)
    ensures |r| == |FailedErrors(results)|
    ensures forall k | 0 <= k < |r| :: r[k] < |results| && results[r[k]].PublishFailed?
    ensures forall k1, k2 | 0 <= k1 < k2 < |r| :: r[k1] < r[k2]
    decreases |results|
  {
    if results == [] then []
    else
      var n := |results| - 1;
      FailedIndices(results[..n]) + (if results[n].PublishFailed? then [n] else [])
  }

  /**
   * The k-th publish failure is the one of the k-th failed result, labelled with the issue type
   * of the ticket at that result's position.
   */
  lemma {:induction false} PublishFailuresLabels(results: seq<PublishResult>, drafted: seq<DraftedTicket>)
    requires |results| <= |drafted|
    ensures var pf := PublishFailures(results, drafted);
      var idx := FailedIndices(results);
      && |pf| == |idx|
      && forall k | 0 <= k < |idx| ::
           pf[k] == Failure(drafted[idx[k]].issueGroup.issueType, results[idx[k]].error)
    decreases |results|
  {
    if results != [] {
      var n := |results| - 1;
      PublishFailuresLabels(results[..n], drafted);
      var idx := FailedIndices(results);
      var pre := FailedIndices(results[..n]);
      forall k | 0 <= k < |pre|
        ensures results[..n][pre[k]] == results[pre[k]]
      {
      }
    }
  }

  /** A failure after a success: the labels written take the successful ticket's issue type. */
  lemma AsWrittenMislabels(a: DraftedTicket, b: DraftedTicket, published: JiraTicketResult, error: string)
    requires a.issueGroup.issueType != b.issueGroup.issueType
    ensures var results := [Published(published), PublishFailed(error)];
      && PublishFailuresAsWritten(results, [a, b]) == [Failure(a.issueGroup.issueType, error)]
      && PublishFailures(results, [a, b]) == [Failure(b.issueGroup.issueType, error)]
  {
    var results := [Published(published), PublishFailed(error)];
    assert results[..1] == [Published(published)];
    assert results[..1][..0] == [];
    assert FailedErrors(results[..1]) == [];
    assert FailedErrors(results) == [error];
    assert PublishFailures(results[..1], [a, b]) == [];
  }

  // ── Storage and the result record ────────────────────────────────────────

  /** `tickets/${domain}/${auditDate}/tickets.json`. */
  function TicketsPath(domain: string, auditDate: string): string {
    "tickets/" + domain + "/" + auditDate + "/tickets.json"
  }

  /** The stored path of a well-formed bucket, read back from the reported `gcsPath`. */
  lemma StoredPathParses(bucket: string, domain: string, auditDate: string)
    requires bucket != "" && NoSlash(bucket)
    requires NoLineTerminator(domain) && NoLineTerminator(auditDate)
    ensures ParseGcsUri(GcsUri(bucket, TicketsPath(domain, auditDate))) == Some(GcsLocation(bucket, TicketsPath(domain, auditDate)))
  {
    var path := TicketsPath(domain, auditDate);
    forall k | 0 <= k < |path|
      ensures !IsLineTerminator(path[k])
    {
      if 8 <= k < 8 + |domain| {
        assert path[k] == domain[k - 8];
      } else if 9 + |domain| <= k < 9 + |domain| + |auditDate| {
        assert path[k] == auditDate[k - 9 - |domain|];
      }
    }
    ParseGcsUriFormat(bucket, path);
  }

  /** What one run of the stage chain does: its outcome, the Jira calls after it, and the record it stored. */
  datatype PipelineRun = PipelineRun(result: Result<TicketCreationResult>, calls: seq<JiraCall>, stored: Option<TicketsFile>)

  /** The stage chain on a group list, given the classify, the environment, Jira and the writable buckets. */
  function StagesRun(auditId: string, groups: seq<IssueGroupForTicket>, domain: string, auditDate: string, bucket: string,
                     classify: IssueGroupForTicket -> Result<DraftedTicket>, env: map<string, string>,
                     answer: (seq<JiraCall>, JiraCall) -> HttpResponse, log: seq<JiraCall>, writable: set<string>): PipelineRun
  {
    var drafted := DraftedOf(groups, classify);
    var classifierFailures := ClassifierFailuresOf(groups, classify);
    match GetJiraConfig(env)
    case Err(e) => PipelineRun(Err(e), log, None)
    case Ok(config) =>
      PublishAllCreates(drafted, config, answer, log);
      var all := PublishAll(drafted, config, answer, log);
      var tickets := SuccessfulTickets(all.0);
      var failures := classifierFailures + PublishFailuresAsWritten(all.0, drafted);
      var path := TicketsPath(domain, auditDate);
      if bucket !in writable then PipelineRun(Err("Cannot write to bucket " + bucket), all.1, None)
      else
        PipelineRun(Ok(TicketCreationResult(Complete, auditId, |tickets|, tickets, failures, GcsUri(bucket, path))),
                    all.1, Some(TicketsFile(auditId, domain, auditDate, |tickets|, tickets, failures)))
  }

  /**
   * The run fails exactly when the Jira configuration is missing (before any call, nothing stored)
   * or the save fails (nothing stored). A completed run reports status complete, the successful
   * tickets in publish order with their number, the classifier failures followed by the publish
   * failures, and the location of the record it stored, which holds the same tickets and failures.
   */
  lemma StagesRunOutcome(auditId: string, groups: seq<IssueGroupForTicket>, domain: string, auditDate: string, bucket: string,
                         classify: IssueGroupForTicket -> Result<DraftedTicket>, env: map<string, string>,
                         answer: (seq<JiraCall>, JiraCall) -> HttpResponse, log: seq<JiraCall>, writable: set<string>)
    ensures var run := StagesRun(auditId, groups, domain, auditDate, bucket, classify, env, answer, log, writable);
      && (run.result.Ok? <==> GetJiraConfig(env).Ok? && bucket in writable)
      && (run.stored.Some? <==> run.result.Ok?)
      && (GetJiraConfig(env).Err? ==> run.result == Err(MissingJiraEnv) && run.calls == log)
      && (run.result.Ok? ==>
            var all := PublishAll(DraftedOf(groups, classify), GetJiraConfig(env).value, answer, log);
            var r := run.result.value;
            && r.status == Complete
            && r.auditId == auditId
            && r.tickets == SuccessfulTickets(all.0)
            && r.ticketsCreated == |r.tickets|
            && r.failures == ClassifierFailuresOf(groups, classify) + PublishFailuresAsWritten(all.0, DraftedOf(groups, classify))
            && r.gcsPath == GcsUri(bucket, TicketsPath(domain, auditDate))
            && run.stored == Some(TicketsFile(auditId, domain, auditDate, r.ticketsCreated, r.tickets, r.failures)))
  {
  }

  /**
   * Every group is accounted for once: as a created ticket, a classifier failure or a publish
   * failure; Jira receives one create call per drafted ticket.
   */
  lemma StagesRunAccounting(auditId: string, groups: seq<IssueGroupForTicket>, domain: string, auditDate: string, bucket: string,
                            classify: IssueGroupForTicket -> Result<DraftedTicket>, env: map<string, string>,
                            answer: (seq<JiraCall>, JiraCall) -> HttpResponse, log: seq<JiraCall>, writable: set<string>)
    requires GetJiraConfig(env).Ok?
    ensures var run := StagesRun(auditId, groups, domain, auditDate, bucket, classify, env, answer, log, writable);
      && CreateBodies(run.calls) == CreateBodies(log) + BodiesOf(DraftedOf(groups, classify), GetJiraConfig(env).value)
      && (run.result.Ok? ==> run.result.value.ticketsCreated + |run.result.value.failures| == |groups|)
  {
    var drafted := DraftedOf(groups, classify);
    var config := GetJiraConfig(env).value;
    PublishAllCreates(drafted, config, answer, log);
    var all := PublishAll(drafted, config, answer, log);
    PartitionCount(groups, classify);
    SuccessesAndFailures(all.0);
    PublishFailuresLabels(all.0, drafted);
  }

  /** The stage chain: classification, publication, the save, and the result. */
  method RunStages(auditId: string, groups: seq<IssueGroupForTicket>, domain: string, auditDate: string, bucket: string,
                   classify: IssueGroupForTicket -> Result<DraftedTicket>, env: map<string, string>, jira: JiraServer, storage: Storage)
    returns (r: Result<TicketCreationResult>)
    modifies jira, storage
    ensures var run := StagesRun(auditId, groups, domain, auditDate, bucket, classify, env, jira.answer, old(jira.calls), old(storage.writable));
      && r == run.result
      && jira.calls == run.calls
      && storage.objects == (if run.stored.Some?
                             then old(storage.objects)[GcsLocation(bucket, TicketsPath(domain, auditDate)) := TicketsObject(run.stored.value)]
                             else old(storage.objects))
  {
    var drafted, classifierFailures, _ := ClassifyInBatches(groups, classify);
    var published := PublishTicketsToJira(env, drafted, jira);
    if published.Err? {
      return Err(published.error);
    }
    var results := published.value;
    PublishAllCreates(drafted, GetJiraConfig(env).value, jira.answer, old(jira.calls));
    var tickets := SuccessfulTickets(results);
    var failures := classifierFailures + PublishFailuresAsWritten(results, drafted);
    var path := TicketsPath(domain, auditDate);
    var saved := storage.Save(GcsLocation(bucket, path),
                              TicketsObject(TicketsFile(auditId, domain, auditDate, |tickets|, tickets, failures)));
    if saved.Err? {
      return Err(saved.error);
    }
    r := Ok(TicketCreationResult(Complete, auditId, |tickets|, tickets, failures, GcsUri(bucket, path)));
  }

  /**
   * `runTicketCreationPipeline(auditId, rawJson, domain, auditDate, bucket)`: stage 1 groups the one audit,
   * stage 2 runs the classifier agent on each group.
   */
  method RunTicketCreationPipeline(auditId: string, rawJson: RawAuditJson, domain: string, auditDate: string, bucket: string,
                                   agent: IssueGroupForTicket -> AgentRun, env: map<string, string>, jira: JiraServer, storage: Storage)
    returns (r: Result<TicketCreationResult>)
    modifies jira, storage
    ensures var run := StagesRun(auditId, Grouper.TicketGroups(rawJson), domain, auditDate, bucket, ClassifierOf(agent), env,
                                 jira.answer, old(jira.calls), old(storage.writable));
      && r == run.result
      && jira.calls == run.calls
      && storage.objects == (if run.stored.Some?
                             then old(storage.objects)[GcsLocation(bucket, TicketsPath(domain, auditDate)) := TicketsObject(run.stored.value)]
                             else old(storage.objects))
  {
    var groups := Grouper.GroupIssuesForTickets(rawJson);
    r := RunStages(auditId, groups, domain, auditDate, bucket, ClassifierOf(agent), env, jira, storage);
  }
}
