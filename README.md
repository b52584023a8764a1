# SEO-GEO dashboard: a verified model of the ticket pipeline and its helpers

This project is a Dafny model of the deterministic core of the SEO-GEO dashboard. It models
the pipeline that turns a site audit's URL issues into Jira tickets, and the helpers the
dashboard, its API routes and its build scripts run over audit data. Each source file of the
core is one Dafny module:

- **Issue grouping**
  - `Grouper` models `groupIssuesForTickets`, which groups one domain's issues into ticket groups.
  - `CrossDomainGrouper` models `groupIssuesAcrossDomains`, which groups many domains by the same key, keeps the set of affected domains and applies the example-upgrade rule.
  - `IssueIndex` holds what both groupers and the digest share: the flattening of `urls` into (domain, url, issue) sightings, the `issue_type|||severity|||category` key, and each key's members.
- **Classification and orchestration**
  - `Classifier` models the post-processing in `runClassifierAgent`: the priority fallback and the field defaults. The agent itself is an oracle.
  - `Pipeline` models `runTicketCreationPipeline`: batches of three, the drafted/failure partition, merging failures, and the stored result record.
- **Jira**
  - `JiraPublisher` models the ADF description, CSV escaping and generation, `slugify` and team labels.
  - It also models the sequential publish loop against a `JiraServer` class that answers each HTTP call.
- **Routes**
  - `TicketsRoute` models the cross-domain tickets route. Its idempotency gate is a `RunsTable` class of (run date, GCS path) rows.
  - `AuditsRoute` models the audits list route: `parseInt`, `Math.min`, `slice` and `hasMore` on integers and NaN.
- **Storage and the classifier's tools**
  - `Gcs` models `parseGcsUri`, and `fetchJsonFromGcs` over a `Storage` class.
  - `ClassifierTools` models route matching, page-spec paths, the TLD table and response truncation.
- **Action plan**
  - `Digest` models `buildIssueDigest`, with a sample cap of 3.
  - `ActionPlanTools` models the four read-only query tools over a digest.
- **Dashboard helpers**
  - `SeoMapper` models the BigQuery row mapper: runs per audit id, domain reports and the report summary.
  - `Utils` models `formatDuration`, the score bands and the lookup tables.
- **Build-time spec dependency graph**
  - `SpecPaths` models path normalisation and resolution.
  - `SpecParsers` models the two line-based YAML readers.
  - `SpecGraph` models the source-to-spec table and dependency resolution.
  - `SpecLevels` models the depth-first level walk with cycle detection, the level groups and the statistics.
- **Cleanup script**
  - `CleanupScript` models the `.env` loader, the tickets-URI check, the Jira delete loop (which a rejected request ends) and the final update that clears the audit's stored path.
- **Shared modules**
  - `Wrappers` (`Option`, `Result`) and `Seqs` (insertion-ordered sets).
  - `JsString`, the ECMAScript string operations the source uses.
  - `Records`, plain objects as insertion-ordered entries.
  - `StableSort`, the stable `Array.prototype.sort`.
  - `BigQueryTypes` and `TicketTypes`, the record shapes.

## How the model is built

**Statefulness follows the source.**
- Code that mutates maps, arrays or tables in loops becomes methods with loop invariants:
  - the grouping loops;
  - the batch loop;
  - the publish loop;
  - `loadEnv`;
  - the delete loop;
  - the two YAML line loops;
  - the level walk over a `LevelCalculator` class.
- Each such method is proved equal to a specification function of its inputs.
- The properties the source promises are proved as lemmas about those functions.

**Values.**
- A JavaScript `Map` or `Set`, and `Object.entries`, iterate in insertion order. The model uses the order in which keys are first seen.
- `undefined`, `null` and `""` are the falsy optional strings.

**External services are parameters.**
- The LLM classifier agent is a function from a group to its run.
- Jira is a server whose answer may depend on every earlier call.
- BigQuery results are row sequences.
- GCS and the filesystem are maps from paths to contents.
- `new Date(text).getTime()` is a function argument `timeOf`.

Because the action-plan tools are functions of the digest, none of them can modify it.

**Where the model departs from the code.**
- The main chains run the code as written. This covers the pipeline's publish-failure labels, the audits route's unclamped pagination and the dependency graph's replace-first `/index` alias. Each of these is a Findings row, compared there with a corrected definition.
- The tickets route's POST is the one exception.
  - At src/app/api/seo/tickets/route.ts:207 the route calls `runTicketCreationPipeline(latestDate, issueGroups, bucket)`.
  - The pipeline declares five parameters (src/lib/agents/ticket-creation/pipeline.ts:22-28) and groups a raw audit itself (line 30).
  - As written, the groups land in the raw-audit position and the pipeline finds no URLs in them; the bucket name lands in the domain position, and audit date and bucket are `undefined`.
  - `TicketsRoute.AsWrittenCombinedStages` models that call up to the storage step. What the storage library does with an undefined bucket name is not part of this model.
  - The model's stage chain therefore takes a group list, and POST runs the call the route evidently means (`TicketsRoute.CombinedStages`). The combined groups are classified and published, with the latest date as audit id and audit date.
  - The record is stored under `tickets/combined/<runDate>/tickets.json`. This path is the model's own choice of domain for the combined run.
## Model

| member | source | states |
|---|---|---|
| Gcs.ParseGcsUri | src/lib/gcs.ts:36-40 | a parsed URI is exactly `gs://` + bucket + `/` + path; the bucket is non-empty and has no '/', the path is non-empty and has no line terminator |
| Gcs.ParseGcsUriFormat | src/lib/gcs.ts:37-39 | conversely every such bucket and path is parsed back from `gs://bucket/path` exactly, so the two contracts give the if-and-only-if of the regular expression |
| Gcs.Storage.constructor | src/lib/gcs.ts:51-53 | the storage starts with the given objects and writable buckets and no downloads |
| Gcs.Storage.Download | src/lib/gcs.ts:55 | one download is recorded; the object is returned when it exists, an error otherwise; nothing is stored |
| Gcs.Storage.Save | src/lib/agents/ticket-creation/pipeline.ts:115-117 | the object is stored exactly when the bucket accepts writes; otherwise an error and no change |
| Gcs.FetchOutcome | src/lib/gcs.ts:45-57 | an unparseable URI gives `Invalid GCS URI: <uri>`; a success is the stored object at the parsed location, and it parses as JSON |
| Gcs.FetchJsonFromGcs | src/lib/gcs.ts:45-57 | an invalid URI throws before any storage access; otherwise exactly one download of the parsed location; the result is `FetchOutcome` |
| IssueIndex.EntrySightings | src/lib/agents/ticket-creation/grouper.ts:27-28 | the inner loop visits the issues of one URL entry in array order, one sighting per issue |
| IssueIndex.UrlSightingsStep | src/lib/agents/ticket-creation/grouper.ts:24-25 | one more URL entry of the outer loop appends exactly that entry's sightings; an entry without `issues` appends nothing |
| IssueIndex.UrlSightingsCount | src/lib/agents/ticket-creation/grouper.ts:24-27 | the sightings of an audit are as many as its issues over all URL entries |
| IssueIndex.UrlSightingsDomain | src/lib/agents/ticket-creation/grouper.ts:43 | every sighting of one audit carries that audit's domain |
| IssueIndex.MembersOfSpec | src/lib/agents/ticket-creation/grouper.ts:28-32 | a group holds exactly the sightings that carry its key |
| IssueIndex.MembersOfConcat | src/lib/agents/ticket-creation/cross-domain-grouper.ts:32-44 | grouping distributes over consecutive runs of sightings, so each audit contributes its own matching URLs in order |
| IssueIndex.KeysInOrderSpec | src/lib/agents/ticket-creation/grouper.ts:17-29 | a key is in the map exactly when some sighting carries it, and the map's keys are distinct |
| IssueIndex.GroupSizesTotal | src/lib/agents/ticket-creation/grouper.ts:24-46 | the group sizes add up to the number of sightings: every sighting lands in exactly one group |
| IssueIndex.MembersAreFieldMatches | src/lib/agents/ticket-creation/grouper.ts:28 | with bar-free fields, the group of a key is the subsequence of sightings whose three fields make that key |
| IssueIndex.SplitKeyExact | src/lib/agents/ticket-creation/grouper.ts:28-51 | splitting the key on the triple bar gives back exactly the three fields when none of them contains a bar |
| IssueIndex.SplitKeyHasThree | src/lib/agents/ticket-creation/grouper.ts:51 | every key splits into at least three pieces, so the destructuring never reads past the end |
| IssueIndex.KeyInjective | src/lib/agents/ticket-creation/grouper.ts:28 | with bar-free fields two issues share a key exactly when issue_type, severity and category all agree |
| IssueIndex.KeyCollision | src/lib/agents/ticket-creation/grouper.ts:28 | fields that contain the separator can make two different issues share one key |
| IssueIndex.KeyMisread | src/lib/agents/ticket-creation/grouper.ts:28-51 | an issue_type ending in a bar is cut short by the split even though it holds no triple bar |
| Grouper.SeverityRank | src/lib/agents/ticket-creation/grouper.ts:3-8 | the four known severities rank 0 to 3 and every other severity falls back to rank 9 |
| Grouper.ToGroups | src/lib/agents/ticket-creation/grouper.ts:49-61 | one group per key, in map insertion order, each built from that key's accumulated URLs and example with the audit's domain |
| Grouper.KeysHaveMembers | src/lib/agents/ticket-creation/grouper.ts:28-51 | every key that was created has at least one sighting and splits on the triple bar into at least three fields |
| Grouper.PushKeeps | src/lib/agents/ticket-creation/grouper.ts:31-32 | pushing the URL onto an existing key's `allUrls` keeps the map equal to the accumulation of the sightings so far |
| Grouper.CreateKeeps | src/lib/agents/ticket-creation/grouper.ts:33-45 | creating a new entry for an unseen key appends the key to the insertion order and keeps the map invariant |
| Grouper.MatchesAccumulated | src/lib/agents/ticket-creation/grouper.ts:24-47 | after every sighting the insertion order is the first-seen key order and the map is the accumulated map |
| Grouper.AddUrlIssues | src/lib/agents/ticket-creation/grouper.ts:27-46 | the inner loop over one URL entry's issues extends the map invariant by exactly that entry's sightings |
| Grouper.GroupIssuesForTickets | src/lib/agents/ticket-creation/grouper.ts:15-66 | the loops, conversion and sort compute `TicketGroups(raw)`, the specification about which the lemmas below are proved; entries without `issues` are skipped |
| Grouper.GroupsOfMembership | src/lib/agents/ticket-creation/grouper.ts:49-61 | the converted list holds exactly the groups of the keys in insertion order |
| Grouper.TicketGroupsAreKeyGroups | src/lib/agents/ticket-creation/grouper.ts:17-65 | the output has one group per distinct key, and a group is in the output exactly when it is the group of some key |
| Grouper.TicketGroupsShape | src/lib/agents/ticket-creation/grouper.ts:33-65 | every group has count equal to its number of URLs, at least 1, and `affectedDomains == [raw.domain]`; the output is sorted by severity rank, then count descending, and groups that tie keep first-seen key order |
| Grouper.GroupsOfCounts | src/lib/agents/ticket-creation/grouper.ts:56 | the counts of the converted groups add up to the number of sightings of their keys |
| Grouper.TicketGroupsTotal | src/lib/agents/ticket-creation/grouper.ts:24-46 | the counts add up to the total number of issues over all URL entries; entries without `issues` contribute nothing |
| Grouper.KeyGroupFields | src/lib/agents/ticket-creation/grouper.ts:28-59 | when no field contains the triple bar, splitting a key gives back the three fields, and the key's group gathers exactly the sightings with those fields, its URLs in encounter order (a URL repeated once per matching issue), its example the first sighting |
| Grouper.TicketGroupsByFields | src/lib/agents/ticket-creation/grouper.ts:28-61 | with bar-free fields two issues share a group exactly when issue_type, severity and category all agree: each group gathers exactly its sightings, no two groups have the same fields, and every sighting is in a group |
| Grouper.TicketGroupsGather | src/lib/agents/ticket-creation/grouper.ts:31-44 | each output group's URLs are exactly the URLs of the sightings with its fields, in encounter order, and its example is the first of them, never replaced |
| Grouper.TicketGroupsDistinct | src/lib/agents/ticket-creation/grouper.ts:17-49 | no two output groups carry the same issue_type, severity and category |
| Grouper.TicketGroupsCover | src/lib/agents/ticket-creation/grouper.ts:24-46 | every issue of every URL entry lies in the output group with its three fields |
| Grouper.TicketGroups | src/lib/agents/ticket-creation/grouper.ts:15-65 | the sorted groups of the audit's sightings; TicketGroupsByFields, TicketGroupsShape and TicketGroupsTotal state what they are |
| CrossDomainGrouper.AllSightingsStep | src/lib/agents/ticket-creation/cross-domain-grouper.ts:32-33 | one more audit of the outer loop appends exactly that audit's sightings |
| CrossDomainGrouper.KeysHaveMembers | src/lib/agents/ticket-creation/cross-domain-grouper.ts:39-80 | every key in the map has at least one sighting and splits into at least three pieces |
| CrossDomainGrouper.GroupsOf | src/lib/agents/ticket-creation/cross-domain-grouper.ts:78-90 | the conversion builds, position by position, the group of each key in insertion order |
| CrossDomainGrouper.CrossAccStep | src/lib/agents/ticket-creation/cross-domain-grouper.ts:42-73 | one more member changes its key's entry exactly as the loop body does: URL pushed, domain added to the set, example upgraded by the rule |
| CrossDomainGrouper.CreatedSingle | src/lib/agents/ticket-creation/cross-domain-grouper.ts:45-58 | a group with one member is the entry `groupMap.set` creates (before the upgrade check) |
| CrossDomainGrouper.PushKeeps | src/lib/agents/ticket-creation/cross-domain-grouper.ts:42-44 | pushing onto an existing entry keeps the map equal to the accumulation of the sightings so far |
| CrossDomainGrouper.CreateKeeps | src/lib/agents/ticket-creation/cross-domain-grouper.ts:45-58 | creating an entry for an unseen key appends the key to the insertion order and keeps the invariant |
| CrossDomainGrouper.MatchesAccumulated | src/lib/agents/ticket-creation/cross-domain-grouper.ts:32-76 | after all sightings the insertion order is the first-seen key order and the map is the accumulated map |
| CrossDomainGrouper.AddIssue | src/lib/agents/ticket-creation/cross-domain-grouper.ts:38-73 | the innermost loop body: look up, create or push, then upgrade the example; the map invariant grows by the one sighting |
| CrossDomainGrouper.AddUrlIssues | src/lib/agents/ticket-creation/cross-domain-grouper.ts:35-38 | the loop over one URL entry's issues extends the invariant by that entry's sightings; no `issues` means no change |
| CrossDomainGrouper.AddAuditEntries | src/lib/agents/ticket-creation/cross-domain-grouper.ts:33-35 | the loop over one audit's URL entries, in `Object.entries` order, extends the invariant by that audit's sightings |
| CrossDomainGrouper.AddAudits | src/lib/agents/ticket-creation/cross-domain-grouper.ts:32 | the loop over the audits in array order leaves the map equal to the accumulation of all sightings |
| CrossDomainGrouper.ConvertGroups | src/lib/agents/ticket-creation/cross-domain-grouper.ts:78-90 | the conversion loop yields the group of every key, in insertion order, from its accumulated entry |
| CrossDomainGrouper.GroupIssuesAcrossDomains | src/lib/agents/ticket-creation/cross-domain-grouper.ts:21-95 | the loops, conversion and sort compute `CrossDomainGroups(audits)`, the specification the lemmas below are about |
| CrossDomainGrouper.ExampleAfterChoice | src/lib/agents/ticket-creation/cross-domain-grouper.ts:45-73 | the example a group ends with is the first member with a description; if none has one, the last member with a current value; if neither, the first member |
| CrossDomainGrouper.ExampleFirstDescribed | src/lib/agents/ticket-creation/cross-domain-grouper.ts:62-65 | once a described example is stored it is never replaced: the first described member is final |
| CrossDomainGrouper.ExampleLastCurrent | src/lib/agents/ticket-creation/cross-domain-grouper.ts:62-72 | with no described member, every member with a current value replaces the example, so the last such member wins |
| CrossDomainGrouper.ExampleFallback | src/lib/agents/ticket-creation/cross-domain-grouper.ts:47-57 | with neither, the example is the first member's, set at creation |
| CrossDomainGrouper.ExampleAfterMember | src/lib/agents/ticket-creation/cross-domain-grouper.ts:42-72 | the example is built from one of the members, so its URL is one of the group's URLs |
| CrossDomainGrouper.GroupsOfMembership | src/lib/agents/ticket-creation/cross-domain-grouper.ts:78-90 | the converted list holds exactly the groups of the keys in insertion order |
| CrossDomainGrouper.CrossGroupsAreKeyGroups | src/lib/agents/ticket-creation/cross-domain-grouper.ts:23-94 | the output has one group per key seen in any audit, and a group is in the output exactly when it is some key's group |
| CrossDomainGrouper.KeyGroupContents | src/lib/agents/ticket-creation/cross-domain-grouper.ts:42-88 | in a key's group the count, the number of URLs and the number of members are equal; it holds the members' URLs in encounter order, each contributing domain exactly once in first-seen order, and the chosen example, whose URL is among allUrls |
| CrossDomainGrouper.CrossGroupsShape | src/lib/agents/ticket-creation/cross-domain-grouper.ts:85-94 | every group has count equal to its number of URLs, at least 1, distinct non-empty domains and an example URL among its URLs; the output is sorted by severity rank (unknown 9), then count descending, ties in first-seen order |
| CrossDomainGrouper.AllSightingsCount | src/lib/agents/ticket-creation/cross-domain-grouper.ts:32-38 | the sightings over all audits are as many as their issues |
| CrossDomainGrouper.GroupsOfCounts | src/lib/agents/ticket-creation/cross-domain-grouper.ts:85 | the converted groups' counts add up to their keys' sighting counts |
| CrossDomainGrouper.CrossGroupsTotal | src/lib/agents/ticket-creation/cross-domain-grouper.ts:42-85 | the counts add up to the total issues over every audit's URL entries |
| CrossDomainGrouper.AllUrlsByAudit | src/lib/agents/ticket-creation/cross-domain-grouper.ts:32-44 | a merged group's URLs are each audit's matching URLs concatenated in audit input order |
| CrossDomainGrouper.KeyGroupFields | src/lib/agents/ticket-creation/cross-domain-grouper.ts:39-84 | with bar-free fields a key's group carries the key's own fields and gathers exactly the sightings with them |
| CrossDomainGrouper.DistinctGroups | src/lib/agents/ticket-creation/cross-domain-grouper.ts:23-30 | with bar-free fields no group occurs twice in the output |
| CrossDomainGrouper.CrossGroupsByFields | src/lib/agents/ticket-creation/cross-domain-grouper.ts:16-39 | with bar-free fields, issues from any domains share a group exactly when issue_type, severity and category agree: each group gathers exactly those sightings, no two groups share fields, every sighting has a group |
| CrossDomainGrouper.CrossGroupsGather | src/lib/agents/ticket-creation/cross-domain-grouper.ts:39-44 | each group's URLs are the URLs of exactly the sightings with its fields |
| CrossDomainGrouper.CrossGroupsDistinct | src/lib/agents/ticket-creation/cross-domain-grouper.ts:23-39 | no two output groups carry the same three fields |
| CrossDomainGrouper.CrossGroupsCover | src/lib/agents/ticket-creation/cross-domain-grouper.ts:32-44 | every issue of every audit lies in the group with its fields |
| CrossDomainGrouper.CoverOne | src/lib/agents/ticket-creation/cross-domain-grouper.ts:39-40 | the group of one sighting's key is among the groups and carries that sighting's fields |
| CrossDomainGrouper.SingleAuditAgrees | src/lib/agents/ticket-creation/cross-domain-grouper.ts:21-95 | for a single audit the merged groups agree with `groupIssuesForTickets` on keys, fields, URLs, counts and `[domain]`; only the example choice may differ |
| CrossDomainGrouper.SameDomain | src/lib/agents/ticket-creation/cross-domain-grouper.ts:44-87 | members that all come from one domain list exactly that domain once |
| CrossDomainGrouper.CrossDomainGroups | src/lib/agents/ticket-creation/cross-domain-grouper.ts:21-94 | the sorted merged groups of all audits' sightings; CrossGroupsByFields, CrossGroupsShape and CrossGroupsTotal state what they are |
| Classifier.Captured | src/lib/agents/ticket-creation/classifier-agent.ts:172-176 | the closure variable holds nothing when `submitTicket` was never called and otherwise the input of the last call, since each call overwrites it |
| Classifier.SeverityPriority | src/lib/agents/ticket-creation/classifier-agent.ts:118-123 | critical maps to Highest, high to High, medium to Medium, low to Low, and any other severity to Medium; the result is always one of the four priorities |
| Classifier.ResolvePriority | src/lib/agents/ticket-creation/classifier-agent.ts:224-228 | a captured priority that is one of Highest/High/Medium/Low is kept unchanged; any other falls back to the severity's priority; the result is always one of the four |
| Classifier.RunClassifierAgent | src/lib/agents/ticket-creation/classifier-agent.ts:210-238 | the call fails exactly when the agent run threw (with its message) or never submitted (with the error naming the issue_type); a drafted ticket keeps the input group and has a valid priority |
| Classifier.DraftedTicketFields | src/lib/agents/ticket-creation/classifier-agent.ts:222-238 | a drafted ticket comes from the last submission: group unchanged, classification and team passed through, priority kept or defaulted, objective defaulting to `Issue with <issue_type>` and summary/proposedSolution to "" |
| Classifier.SchemaBoundsFields | src/lib/agents/ticket-creation/classifier-agent.ts:125-139 | when the submission meets the `submitTicket` schema, classification and team are within their four and two values and the priority is kept |
| Classifier.UncheckedClassification | src/lib/agents/ticket-creation/classifier-agent.ts:232-233 | the code itself does not check classification or team: a value outside the enums reaches the drafted ticket unchanged, while the priority is still corrected |
| Classifier.DraftFromCapture | src/lib/agents/ticket-creation/classifier-agent.ts:215-238 | the ticket drafted from a captured submission, or the no-submission error; RunClassifierAgent and DraftedTicketFields state its fields |
| Pipeline.BatchesCount | src/lib/agents/ticket-creation/pipeline.ts:11-42 | the loop visits ceil(n/3) batches |
| Pipeline.BatchesFlatten | src/lib/agents/ticket-creation/pipeline.ts:39-40 | the batches, in order, are exactly the group list: every group is in exactly one batch |
| Pipeline.BatchesAt | src/lib/agents/ticket-creation/pipeline.ts:39-40 | batch k is the groups [3k, min(3k+3, n)) and is never empty |
| Pipeline.DraftedConcat | src/lib/agents/ticket-creation/pipeline.ts:49-68 | the drafted tickets and the classifier failures of consecutive runs of groups are the concatenations of theirs |
| Pipeline.PartitionCount | src/lib/agents/ticket-creation/pipeline.ts:49-68 | every group lands in exactly one of draftedTickets and classifierFailures, so their lengths add up to n |
| Pipeline.EachGroupClassified | src/lib/agents/ticket-creation/pipeline.ts:53-68 | group i contributes exactly its own ticket or its own failure, between those of the groups before and after it: a failure does not stop later groups or batches |
| Pipeline.DraftedFromGroups | src/lib/agents/ticket-creation/pipeline.ts:49-56 | with the classifier agent, every drafted ticket carries one of the input groups unchanged and one of the four Jira priorities |
| Pipeline.SettleBatch | src/lib/agents/ticket-creation/pipeline.ts:49-51 | the settled results of a batch are one per group, in batch order |
| Pipeline.BatchesStep | src/lib/agents/ticket-creation/pipeline.ts:39-40 | the batches from group i on are the batch starting at i followed by those from i + 3 on |
| Pipeline.DraftedStep | src/lib/agents/ticket-creation/pipeline.ts:55-66 | one more settled result appends its ticket to draftedTickets or its issue type and error to classifierFailures |
| Pipeline.SettleInto | src/lib/agents/ticket-creation/pipeline.ts:53-68 | the inner loop over one batch's results pushes each ticket or failure, so the lists become those of the groups up to the batch's end |
| Pipeline.ClassifyInBatches | src/lib/agents/ticket-creation/pipeline.ts:36-69 | after the batch loop, draftedTickets holds the successful groups' tickets and classifierFailures the failing groups' issue types and errors, both in group order, and the loop visited exactly the batches |
| Pipeline.SuccessesAndFailures | src/lib/agents/ticket-creation/pipeline.ts:79-88 | every publish result is either a ticket or a failure, and every ticket comes from a successful result |
| Pipeline.PublishFailuresAsWritten | src/lib/agents/ticket-creation/pipeline.ts:83-88 | the labelling as written: the k-th failure, counted among failures only, takes the k-th drafted ticket's issue type, or "unknown" past the end |
| Pipeline.PublishFailures | src/lib/agents/ticket-creation/pipeline.ts:83-88 | the intended labelling of the finding: each publish failure takes the issue type of the drafted ticket at its position among all publish results, "unknown" past the end |
| Pipeline.FailedIndices | src/lib/agents/ticket-creation/pipeline.ts:83-84 | the positions of the failed results, strictly increasing and each a failure |
| Pipeline.PublishFailuresLabels | src/lib/agents/ticket-creation/pipeline.ts:83-88 | the corrected labelling: the k-th publish failure carries the issue type of the ticket at that failure's own position among the results, and its error |
| Pipeline.AsWrittenMislabels | src/lib/agents/ticket-creation/pipeline.ts:83-88 | a failure after a success is labelled, as written, with the issue type of the ticket that succeeded, not of the one that failed |
| Pipeline.StoredPathParses | src/lib/agents/ticket-creation/pipeline.ts:98-119 | the reported gcsPath `gs://bucket/tickets/<domain>/<auditDate>/tickets.json` parses back to the bucket and the object path it was stored at |
| Pipeline.StagesRun | src/lib/agents/ticket-creation/pipeline.ts:35-129 | the stage chain on a group list: classification in batches, publication, the as-written failure labels, the record saved under `tickets/<domain>/<auditDate>/tickets.json` |
| Pipeline.StagesRunOutcome | src/lib/agents/ticket-creation/pipeline.ts:77-129 | the run fails exactly when the Jira configuration is missing (no call made, nothing stored) or the save fails (nothing stored); a completed run has status complete, the successful tickets in publish order with ticketsCreated their number, the classifier failures followed by the publish failures labelled as the code labels them (the k-th failure with the k-th drafted ticket), the gcsPath of the stored record, and that record holds the same fields |
| Pipeline.StagesRunAccounting | src/lib/agents/ticket-creation/pipeline.ts:49-90 | every group is accounted for once, as a created ticket, a classifier failure or a publish failure, and Jira receives one create call per drafted ticket |
| Pipeline.RunStages | src/lib/agents/ticket-creation/pipeline.ts:35-129 | the stage chain behaves as `StagesRun`, publish-failure labelling as written included: the result, the Jira calls made, and the one object stored at the tickets path (and nothing else changed in storage) |
| Pipeline.RunTicketCreationPipeline | src/lib/agents/ticket-creation/pipeline.ts:22-130 | the five-parameter entry point groups the one audit with `groupIssuesForTickets`, then runs the stage chain with the classifier agent |
| Pipeline.Batches | src/lib/agents/ticket-creation/pipeline.ts:39-40 | the batches of three the loop visits; BatchesCount, BatchesFlatten and BatchesAt state their number and contents |
| Pipeline.TicketsPath | src/lib/agents/ticket-creation/pipeline.ts:98 | `tickets/<domain>/<auditDate>/tickets.json`; StoredPathParses states that the stored URI parses back to it |
| JiraPublisher.GetJiraConfig | src/lib/agents/ticket-creation/jira-publisher.ts:5-19 | the configuration exists exactly when the base URL, email and API key are all set and non-empty; it carries them and the project key, which defaults to ENG only when unset; otherwise the missing-variables error |
| JiraPublisher.UrlParagraphs | src/lib/agents/ticket-creation/jira-publisher.ts:73 | one paragraph per URL, in order |
| JiraPublisher.FirstFive | src/lib/agents/ticket-creation/jira-publisher.ts:82 | `urls.slice(0, 5)`: all the URLs when there are at most five, else the first five |
| JiraPublisher.ParagraphTextsConcat | src/lib/agents/ticket-creation/jira-publisher.ts:59-84 | the paragraph texts of a node list are those of its parts, in order |
| JiraPublisher.ParagraphTextsOfUrls | src/lib/agents/ticket-creation/jira-publisher.ts:73-82 | the URL paragraphs read back as the URLs |
| JiraPublisher.DescriptionHeadTexts | src/lib/agents/ticket-creation/jira-publisher.ts:59-67 | the seven head nodes (h2 Objective, objective, h2 Summary, summary, h2 Proposed Solution, proposedSolution, rule) read back as the three texts in that order |
| JiraPublisher.ThreeSections | src/lib/agents/ticket-creation/jira-publisher.ts:59-67 | three heading-and-paragraph sections and the rule read back as the three paragraph texts |
| JiraPublisher.SectionTexts | src/lib/agents/ticket-creation/jira-publisher.ts:60-61 | a heading followed by a paragraph reads back as the paragraph's text |
| JiraPublisher.FewUrlsLayout | src/lib/agents/ticket-creation/jira-publisher.ts:59-74 | with n <= 5 URLs the document is the head, the heading "Affected URLs (n)" and one paragraph per URL in order |
| JiraPublisher.ManyUrlsLayout | src/lib/agents/ticket-creation/jira-publisher.ts:59-141 | with n > 5 URLs the document is the head, the heading "Affected URLs", the count line, the heading "Sample (first 5):" and exactly the first five URLs |
| JiraPublisher.HeadingAfterTexts | src/lib/agents/ticket-creation/jira-publisher.ts:78-81 | a paragraph followed by a heading reads back as the paragraph's text |
| JiraPublisher.ParseQuotedBody | src/lib/agents/ticket-creation/jira-publisher.ts:91-93 | the reader of a quoted field stops at the first lone quote, reading a doubled quote as one, and always consumes input |
| JiraPublisher.QuotedBodyRoundTrip | src/lib/agents/ticket-creation/jira-publisher.ts:92 | reading back a value whose quotes were doubled, followed by the closing quote, gives the value and leaves the rest untouched |
| JiraPublisher.CsvEscapeRoundTrip | src/lib/agents/ticket-creation/jira-publisher.ts:91-93 | stripping the outer quotes of `csvEscape(v)` and un-doubling gives back v, whatever follows |
| JiraPublisher.EscapeAll | src/lib/agents/ticket-creation/jira-publisher.ts:107 | every field is escaped, in order |
| JiraPublisher.RecordRoundTrip | src/lib/agents/ticket-creation/jira-publisher.ts:107-108 | a row of escaped fields joined by commas reads back as exactly those fields |
| JiraPublisher.CsvLines | src/lib/agents/ticket-creation/jira-publisher.ts:97-110 | one escaped line per row, in order |
| JiraPublisher.RecordsRoundTrip | src/lib/agents/ticket-creation/jira-publisher.ts:110 | the rows joined by "\n" with no trailing newline read back as exactly the rows |
| JiraPublisher.RecordsCons | src/lib/agents/ticket-creation/jira-publisher.ts:110 | one line, a newline and further lines read back as that record followed by the others |
| JiraPublisher.CsvRows | src/lib/agents/ticket-creation/jira-publisher.ts:97-106 | one row per entry of allUrls, in order |
| JiraPublisher.CsvRoundTrip | src/lib/agents/ticket-creation/jira-publisher.ts:95-111 | the CSV is the header, then exactly one six-field record per URL in order, with no trailing newline; current and expected values (missing as "") fill the rows whose URL is the example's and are empty on all others |
| JiraPublisher.JoinNonEmpty | src/lib/agents/ticket-creation/jira-publisher.ts:110 | a non-empty list of quoted lines joins to a non-empty text |
| JiraPublisher.SkipNonSlug | src/lib/agents/ticket-creation/jira-publisher.ts:116 | the leading characters outside [a-z0-9] are dropped and only those |
| JiraPublisher.CollapseRuns | src/lib/agents/ticket-creation/jira-publisher.ts:116 | after the replacement only [a-z0-9] and '-' remain and no two dashes are adjacent |
| JiraPublisher.SlugifyIsSlug | src/lib/agents/ticket-creation/jira-publisher.ts:113-118 | `slugify` yields only [a-z0-9-], never "--", and no leading or trailing '-' |
| JiraPublisher.StripMakesSlug | src/lib/agents/ticket-creation/jira-publisher.ts:117 | removing one leading and one trailing dash of a collapsed text leaves a slug |
| JiraPublisher.DropLeadingDash | src/lib/agents/ticket-creation/jira-publisher.ts:117 | after the leading dash is dropped the text starts with no dash and stays collapsed |
| JiraPublisher.DropTrailingDash | src/lib/agents/ticket-creation/jira-publisher.ts:117 | after the trailing dash is dropped the text is a slug |
| JiraPublisher.CollapseKeepsSlug | src/lib/agents/ticket-creation/jira-publisher.ts:116 | a text already made of [a-z0-9] runs joined by single dashes is unchanged by the replacement |
| JiraPublisher.SlugifyIdempotent | src/lib/agents/ticket-creation/jira-publisher.ts:113-118 | `slugify(slugify(t)) == slugify(t)` |
| JiraPublisher.TeamToLabel | src/lib/agents/ticket-creation/jira-publisher.ts:122-124 | "Tech Team" becomes "Tech-Team" and every other team "Data-Team" |
| JiraPublisher.JiraServer.constructor | src/lib/agents/ticket-creation/jira-publisher.ts:155 | the modelled Jira server starts with no calls and the given answer function |
| JiraPublisher.JiraServer.Send | src/lib/agents/ticket-creation/jira-publisher.ts:155-202 | one `fetch`: the call is appended to the recorded calls and answered from the calls made before it |
| JiraPublisher.CreateOutcome | src/lib/agents/ticket-creation/jira-publisher.ts:165-172 | an ok answer gives the new issue's key; a non-ok one the error with the status and the first 500 characters of the body; a network error its message |
| JiraPublisher.AttachOutcome | src/lib/agents/ticket-creation/jira-publisher.ts:204-209 | an ok answer succeeds; a non-ok one gives the error naming the issue key, the status and the first 300 characters of the body |
| JiraPublisher.CreateJiraIssue | src/lib/agents/ticket-creation/jira-publisher.ts:134-173 | exactly one create call, carrying the ticket's fields, is made, and its outcome is read from the answer |
| JiraPublisher.AttachCsvToJiraIssue | src/lib/agents/ticket-creation/jira-publisher.ts:175-210 | exactly one attachment call with the generated CSV and the slugified file name is made, and its outcome is read from the answer |
| JiraPublisher.PublishTicket | src/lib/agents/ticket-creation/jira-publisher.ts:232-259 | one pass of the loop, the `try` and its `catch`, makes the calls and gives the result that `PublishOne` describes |
| JiraPublisher.PublishTicketsToJira | src/lib/agents/ticket-creation/jira-publisher.ts:225-263 | a missing configuration rejects before any call; otherwise the tickets are published one after another and the results and calls are those of `PublishAll` |
| JiraPublisher.PublishOneSpec | src/lib/agents/ticket-creation/jira-publisher.ts:143-259 | one create call carrying the objective as summary, the labels ["SEO", team label], the priority and project key; an attachment call exactly when the issue was created and there are more than five URLs; success exactly when every call made succeeded; a success has `jiraUrl = baseUrl + "/browse/" + key`, the issue type, the team, and attachmentCreated = more than five URLs |
| JiraPublisher.CreateBodiesConcat | src/lib/agents/ticket-creation/jira-publisher.ts:155 | the create bodies of consecutive call lists are concatenated |
| JiraPublisher.BodiesOf | src/lib/agents/ticket-creation/jira-publisher.ts:143-153 | one create body per ticket, in order |
| JiraPublisher.PublishOneCreates | src/lib/agents/ticket-creation/jira-publisher.ts:234 | one pass adds exactly its own create call to the calls Jira has received, and removes none |
| JiraPublisher.PublishAllCreates | src/lib/agents/ticket-creation/jira-publisher.ts:229-262 | the loop gives one result per ticket and Jira receives exactly one create call per ticket, in ticket order, after the calls made before |
| JiraPublisher.CreatesChain | src/lib/agents/ticket-creation/jira-publisher.ts:231 | create calls made before a pass and in it add up |
| JiraPublisher.PublishAllPerTicket | src/lib/agents/ticket-creation/jira-publisher.ts:231-260 | each ticket's result is what its own pass gives after the earlier tickets' calls, so a failed create or attachment (even after the issue was created) makes only that ticket a failure and the loop goes on |
| JiraPublisher.PublishAllThreads | src/lib/agents/ticket-creation/jira-publisher.ts:229-262 | the publish loop threads the calls made so far through one pass per ticket |
| JiraPublisher.BuildAdfDescription | src/lib/agents/ticket-creation/jira-publisher.ts:54-87 | the ADF document: the head sections, then the affected-URLs heading with its count and one paragraph per sample URL for five or fewer, or the first five and a CSV note for more; its layout is stated by FewUrlsLayout and ManyUrlsLayout |
| JiraPublisher.CsvEscape | src/lib/agents/ticket-creation/jira-publisher.ts:91-93 | wraps the value in double quotes and doubles every quote inside; CsvEscapeRoundTrip proves the value can be read back |
| JiraPublisher.GenerateAffectedUrlsCsv | src/lib/agents/ticket-creation/jira-publisher.ts:95-111 | the header line followed by one escaped record per affected URL, joined by line feeds; CsvRoundTrip proves the records parse back to their fields |
| JiraPublisher.Slugify | src/lib/agents/ticket-creation/jira-publisher.ts:113-118 | lower-cases, collapses every run of non-slug characters into one dash and strips edge dashes; SlugifyIsSlug and SlugifyIdempotent state the result |
| JiraPublisher.PublishOne | src/lib/agents/ticket-creation/jira-publisher.ts:232-259 | one ticket's result and the Jira calls after it, as the loop body creates the issue and attaches the CSV; PublishOneSpec states its calls and outcome |
| JiraPublisher.PublishAll | src/lib/agents/ticket-creation/jira-publisher.ts:225-262 | the results in ticket order and the calls after the last ticket; PublishAllCreates and PublishAllPerTicket state what it does |
| JiraPublisher.CreateCall | src/lib/agents/ticket-creation/jira-publisher.ts:134-162 | the create request for a ticket; PublishOneSpec and PublishAllCreates state its fields and count |
| JiraPublisher.AttachCall | src/lib/agents/ticket-creation/jira-publisher.ts:175-200 | the attachment request for a group; AttachCsvToJiraIssue and CsvRoundTrip state its name and contents |
| JiraPublisher.CsvFileName | src/lib/agents/ticket-creation/jira-publisher.ts:182 | `affected-urls-<slug>.csv`; SlugifyIsSlug and SlugifyIdempotent state what the slug is |
| TicketsRoute.ResolveDate | src/app/api/seo/tickets/route.ts:28-32 | a date object gives its `value`, a string is returned unchanged (the empty string as ""), a missing value gives ""; the route declares it but never calls it |
| TicketsRoute.MaxDate | src/app/api/seo/tickets/route.ts:65-71 | `MAX` over no rows is null and otherwise a date |
| TicketsRoute.AuditDates | src/app/api/seo/tickets/route.ts:67 | the audit date of each row, in order |
| TicketsRoute.MaxDateIsMax | src/app/api/seo/tickets/route.ts:65-71 | the maximum is one of the dates and no date is greater in string order |
| TicketsRoute.LatestIsLatest | src/app/api/seo/tickets/route.ts:119-127 | there is a latest audit date exactly when the table has rows; it is the date of some row and no row is dated later |
| TicketsRoute.ReportRowsFor | src/app/api/seo/tickets/route.ts:154-163 | the selected rows are those of the date with a non-null report path; none are selected exactly when no row qualifies |
| TicketsRoute.FindRun | src/app/api/seo/tickets/route.ts:133-142 | the idempotency query finds a row exactly when some run row has the date, and then one of those rows |
| TicketsRoute.NewestRun | src/app/api/seo/tickets/route.ts:54-62 | the newest-run query finds a row exactly when the table is not empty, and it is one of the rows; the query leaves ties on `run_date` unordered, and the model takes the first of them |
| TicketsRoute.NewestIsNewest | src/app/api/seo/tickets/route.ts:58 | no run row is dated later than the newest one |
| TicketsRoute.NewestAfterLaterInsert | src/app/api/seo/tickets/route.ts:210-217 | a run row dated strictly later than every existing row becomes the newest |
| TicketsRoute.RunsTable.constructor | src/app/api/seo/tickets/route.ts:42-51 | the runs table starts with the given rows |
| TicketsRoute.RunsTable.FindByDate | src/app/api/seo/tickets/route.ts:133-142 | the query answers `FindRun` on the current rows and changes nothing |
| TicketsRoute.RunsTable.Newest | src/app/api/seo/tickets/route.ts:54-62 | the query answers `NewestRun` on the current rows and changes nothing |
| TicketsRoute.RunsTable.Insert | src/app/api/seo/tickets/route.ts:210-217 | the insert appends exactly the one row |
| TicketsRoute.FirstInvalid | src/app/api/seo/tickets/route.ts:179-180 | the position, if any, of a row whose URI does not parse |
| TicketsRoute.FirstInvalidSpec | src/app/api/seo/tickets/route.ts:176-180 | no position exactly when every URI parses; otherwise the first row whose URI does not |
| TicketsRoute.LoadedSpec | src/app/api/seo/tickets/route.ts:176-193 | loading succeeds exactly when every row loads, and then holds each row's input at its position |
| TicketsRoute.BucketOfFirst | src/app/api/seo/tickets/route.ts:174-182 | when every URI parses, `bucket` ends up as the first row's bucket |
| TicketsRoute.LoadAuditsOutcome | src/app/api/seo/tickets/route.ts:172-197 | loading succeeds exactly when every URI parses and every object downloads and parses; an invalid URI rejects with `Invalid GCS URI: <uri>`; a success holds one input per row with its audit id and domain, in row order, and the first row's bucket, which is non-empty, so the "Could not determine GCS bucket" answer cannot be reached |
| TicketsRoute.LoadRow | src/app/api/seo/tickets/route.ts:177-192 | one row's callback: the URI is parsed, one download started only when it parses, storage contents unchanged, outcome `LoadOne` |
| TicketsRoute.LoadStep | src/app/api/seo/tickets/route.ts:176-193 | one more row moves the started downloads, the first invalid row, the bucket and the loaded inputs exactly as the callback does |
| TicketsRoute.LoadAuditInputs | src/app/api/seo/tickets/route.ts:172-193 | the download loop starts the rows' downloads in order, changes no stored object, and yields `LoadAudits` |
| TicketsRoute.PostSpec | src/app/api/seo/tickets/route.ts:103-230 | the steps of POST in order: 404 without audits, `exists` for a recorded date, then downloads, grouping, the pipeline and the insert, each failure answering 500 |
| TicketsRoute.CombinedStagesPublishesGroups | src/app/api/seo/tickets/route.ts:201-207 | the intended call: every cross-domain group is classified and, once drafted, sent to Jira; each group is accounted for once; the record is stored under `tickets/combined/<date>/tickets.json` |
| TicketsRoute.CombinedStages | src/app/api/seo/tickets/route.ts:207 | the stage chain on the combined groups that line 207 evidently means, with the latest date as audit id and audit date and `combined` as domain |
| TicketsRoute.AsWrittenCombinedStages | src/app/api/seo/tickets/route.ts:207 | the call as written: the groups in the raw-audit position, the bucket in the domain position, audit date and bucket undefined |
| TicketsRoute.NoGroupsFromArray | src/app/api/seo/tickets/route.ts:207 | the group array in the `rawJson` position has no `urls`, so the pipeline's own grouping yields no groups |
| TicketsRoute.AsWrittenDropsGroups | src/app/api/seo/tickets/route.ts:207 | as written, the combined run makes no Jira call and reports no tickets and no failures whatever the groups, and its path uses the bucket name as domain and `undefined` as bucket and date |
| TicketsRoute.Post | src/app/api/seo/tickets/route.ts:103-230 | POST behaves as `PostSpec`, the intended five-argument pipeline call included: its answer, the runs table, the Jira calls and the stored objects |
| TicketsRoute.PostWithoutAudits | src/app/api/seo/tickets/route.ts:127-130 | with no latest audit date POST answers 404 and changes nothing |
| TicketsRoute.PostWhenRunExists | src/app/api/seo/tickets/route.ts:132-151 | when any run row has the latest date POST answers `exists` with that date and one such row's path, runs nothing and changes nothing |
| TicketsRoute.NullPathBlocksRun | src/app/api/seo/tickets/route.ts:132-151 | a row whose `gcs_path` is null still blocks a new run for its date |
| TicketsRoute.CompletedRecord | src/app/api/seo/tickets/route.ts:153-219 | with the intended pipeline call, a completed POST had no run for the latest date, a well-formed first bucket, wrote the record at `tickets/combined/<date>/tickets.json` there, reports status complete with `ticketsCreated` equal to the number of tickets, and appended exactly one run row with the record's path |
| TicketsRoute.PostInsertsOnlyOnCompletion | src/app/api/seo/tickets/route.ts:199-229 | POST adds a run row only when it completes, and then exactly one, for the latest date and the stored path; on 404, exists, 500 or a thrown error it inserts none |
| TicketsRoute.PostKeepsRuns | src/app/api/seo/tickets/route.ts:127-229 | every answer other than completion leaves the runs table unchanged |
| TicketsRoute.PostPipelineFailure | src/app/api/seo/tickets/route.ts:199-229 | a pipeline failure (missing Jira configuration) answers 500 with the message as details and inserts no row |
| TicketsRoute.PostIsIdempotent | src/app/api/seo/tickets/route.ts:132-217 | a second POST after a completed one answers `exists` with the recorded path and changes nothing |
| TicketsRoute.Get | src/app/api/seo/tickets/route.ts:38-97 | GET answers `GetSpec` and does not change the stored objects |
| TicketsRoute.GetSpec | src/app/api/seo/tickets/route.ts:38-101 | GET reads the newest run only and reports it complete when its non-null path holds a readable record, not generated otherwise |
| TicketsRoute.GetOutcome | src/app/api/seo/tickets/route.ts:54-96 | GET looks only at the newest run: it reports complete exactly when that run has a non-null path whose record can be read, with that run's date (no run is later) and the record; otherwise not_generated with the latest audit date |
| TicketsRoute.GetAfterPost | src/app/api/seo/tickets/route.ts:54-219 | with the intended pipeline call, after a completed POST dated later than every earlier run, GET reports that run as complete with the very record the pipeline stored |
| TicketsRoute.GetAfterInsert | src/app/api/seo/tickets/route.ts:74-92 | after a later-dated run row and its record are added, GET returns that record |
| TicketsRoute.LatestAuditDate | src/app/api/seo/tickets/route.ts:119-127 | the latest audit date, or null; LatestIsLatest states that it is the greatest row date, present exactly with rows |
| TicketsRoute.LoadAudits | src/app/api/seo/tickets/route.ts:172-197 | the audit inputs and bucket of the report rows, or the first error; LoadAuditsOutcome and LoadAuditInputs state when it succeeds |
| ClassifierTools.Normalize | src/lib/agents/ticket-creation/tools.ts:87-88 | "/" stays "/"; any other path ending in '/' loses exactly that one '/'; other paths are unchanged |
| ClassifierTools.NormalizeDropsOneSlash | src/lib/agents/ticket-creation/tools.ts:88 | only one trailing slash goes, so normalising twice can differ from normalising once |
| ClassifierTools.RewriteValues | src/lib/agents/ticket-creation/tools.ts:100-101 | no rewrites give no values; otherwise the rewrite values in entry order |
| ClassifierTools.FirstHit | src/lib/agents/ticket-creation/tools.ts:92-122 | the scan finds nothing exactly when no entry hits; otherwise the first entry that hits |
| ClassifierTools.FirstHitIs | src/lib/agents/ticket-creation/tools.ts:92-96 | an entry that hits, with none before it hitting, is the one the scan returns |
| ClassifierTools.FirstHitNone | src/lib/agents/ticket-creation/tools.ts:92-106 | when no entry hits the scan returns nothing |
| ClassifierTools.StripEdgeSlashes | src/lib/agents/ticket-creation/tools.ts:115 | one leading and one trailing '/' are removed |
| ClassifierTools.FirstSegmentEmpty | src/lib/agents/ticket-creation/tools.ts:115-116 | the first segment is empty exactly when the stripped path is empty or starts with '/' |
| ClassifierTools.MatchRouteCases | src/lib/agents/ticket-creation/tools.ts:86-129 | an exact normalised pattern match exists exactly when the result is exact, and it is the first such entry whatever the rewrites say; otherwise the first entry with a rewrite value normalising to the path; otherwise the catch-all exactly when "/[...productCategory]" is in the table and the path has a non-empty first segment; otherwise out of scope for this path |
| ClassifierTools.MatchRouteExact | src/lib/agents/ticket-creation/tools.ts:91-96 | the exact scan: the result is exact exactly when some pattern matches, and then the first matching entry |
| ClassifierTools.MatchRouteRewrite | src/lib/agents/ticket-creation/tools.ts:98-106 | a rewrite match happens only when no pattern matched, and returns the first entry with a matching rewrite value |
| ClassifierTools.MatchRouteCatchAll | src/lib/agents/ticket-creation/tools.ts:108-129 | the catch-all is returned exactly when neither earlier scan matched, the catch-all entry exists and the path has a first segment |
| ClassifierTools.CatchAllSegment | src/lib/agents/ticket-creation/tools.ts:115-116 | the first-segment test holds exactly when the stripped path is non-empty and does not start with '/' |
| ClassifierTools.RootIsNotCatchAll | src/lib/agents/ticket-creation/tools.ts:115-116 | "", "/" and "//" never reach the catch-all |
| ClassifierTools.ScanTable | src/lib/agents/ticket-creation/tools.ts:92-112 | one loop over the routing table stops at the first entry that hits, or finds nothing |
| ClassifierTools.MatchUrlToRoute | src/lib/agents/ticket-creation/tools.ts:80-130 | the tool runs the three scans in turn on the routing table (missing = empty) and returns `MatchRoute`, whose cases are proved above |
| ClassifierTools.PageSpecPath | src/lib/agents/ticket-creation/tools.ts:150-152 | the normalised path always starts with `seo-specs/` and ends with the given path, and equals it exactly when the given path already starts with `seo-specs/` |
| ClassifierTools.PageSpecPathIdempotent | src/lib/agents/ticket-creation/tools.ts:150-152 | normalising a normalised path changes nothing |
| ClassifierTools.PageSpecPathForms | src/lib/agents/ticket-creation/tools.ts:150-152 | a bare file name and its `pages/` form name the same spec |
| ClassifierTools.SpecFile | src/lib/agents/ticket-creation/tools.ts:8 | the file a spec path names is `path.join` of the specs directory and the path, a normalized non-empty path |
| ClassifierTools.GetPageSpec | src/lib/agents/ticket-creation/tools.ts:148-159 | the file at the joined path of the normalised page spec path when it exists, otherwise the not-found message naming the normalised path |
| ClassifierTools.ReadSpecFile | src/lib/agents/ticket-creation/tools.ts:54-64 | the file at `path.join` of the specs directory and the path when it exists, otherwise the not-found message naming the path as given |
| ClassifierTools.SpecFileDropsNeutral | src/lib/agents/ticket-creation/tools.ts:55 | once joined, `a//b`, `a/./b` and `a/name/../b` name the same file as `a/b` |
| ClassifierTools.ReadSpecFileDropsNeutral | src/lib/agents/ticket-creation/tools.ts:55-63 | such a path and its plain form are read alike: the same file when it exists, the not-found message for both otherwise |
| ClassifierTools.ReadSpecFileDotSegment | src/lib/agents/ticket-creation/tools.ts:55-63 | `seo-specs/./pages/home.yaml` reads the file of `seo-specs/pages/home.yaml` |
| ClassifierTools.SpecFileLeavesSpecsDir | src/lib/agents/ticket-creation/tools.ts:55 | a leading `..` leaves the specs directory: `../name` read from `parent/dir` is the file `name` in `parent` |
| ClassifierTools.GetApiGuide | src/lib/agents/ticket-creation/tools.ts:171-177 | the guide at the joined path of `seo-specs/_api-guide.yaml` when it exists, otherwise the fixed fallback advice |
| ClassifierTools.Tld | src/lib/agents/ticket-creation/tools.ts:23-33 | a region in the nine-entry map gives its TLD, any other "com" |
| ClassifierTools.ApiUrl | src/lib/agents/ticket-creation/tools.ts:204-206 | the request goes to `https://qt-api.printerpix.` + TLD + endpoint |
| ClassifierTools.RegionHosts | src/lib/agents/ticket-creation/tools.ts:23-33 | the hosts of the nine regions; GB is the one two-label TLD, co.uk |
| ClassifierTools.Truncate | src/lib/agents/ticket-creation/tools.ts:219 | text longer than 8000 characters becomes its first 8000 characters and "\n... [truncated]"; shorter text is unchanged |
| ClassifierTools.TruncateBounds | src/lib/agents/ticket-creation/tools.ts:219 | the capped text is at most 8000 characters plus the marker, begins with the response's first min(n, 8000) characters, and ends with the marker when cut |
| ClassifierTools.ApiResponse | src/lib/agents/ticket-creation/tools.ts:216-224 | a successful call gives the capped JSON text; a failed one the "API call failed" advice with the error |
| ClassifierTools.MatchRoute | src/lib/agents/ticket-creation/tools.ts:86-129 | the route answer for a table and a path; MatchRouteCases and MatchUrlToRoute state its order of scans |
| Digest.Samples | src/lib/agents/seo-action-plan/preprocessor.ts:44-68 | a group keeps min(number of URLs, `SAMPLE_LIMIT` = 3) sample URLs |
| Digest.SamplesStep | src/lib/agents/seo-action-plan/preprocessor.ts:66-68 | one more sighting appends its URL to the samples exactly when fewer than three are held, and otherwise leaves them unchanged |
| Digest.SamplesOfFirst | src/lib/agents/seo-action-plan/preprocessor.ts:66-74 | the samples collected push by push are the first three member URLs in encounter order |
| Digest.SamplesOfStep | src/lib/agents/seo-action-plan/preprocessor.ts:66-68 | the collected samples grow by the new URL only while fewer than three are held |
| Digest.OrderStep | src/lib/agents/seo-action-plan/preprocessor.ts:62-75 | a sighting with an unseen key appends that key to the map's insertion order; a seen key leaves the order unchanged |
| Digest.BumpKeeps | src/lib/agents/seo-action-plan/preprocessor.ts:64-68 | the `existing` branch (count + 1, capped sample push) keeps the map equal to the accumulation of the sightings so far |
| Digest.CreateKeeps | src/lib/agents/seo-action-plan/preprocessor.ts:69-76 | the new-key branch (count 1, the issue's severity and category, one sample URL) keeps the map invariant and extends the key order |
| Digest.KeysHaveMembers | src/lib/agents/seo-action-plan/preprocessor.ts:61-83 | every key in the map has at least one sighting and splits on the triple bar into at least three fields |
| Digest.MatchesAccumulated | src/lib/agents/seo-action-plan/preprocessor.ts:57-78 | a map that matches all sightings is exactly the accumulation function's map and key order |
| Digest.ToGroups | src/lib/agents/seo-action-plan/preprocessor.ts:81-91 | one group per map entry, in insertion order, each built from its key and its entry |
| Digest.GroupOfKeyShape | src/lib/agents/seo-action-plan/preprocessor.ts:61-91 | a key's group counts its members (at least one), samples their first URLs and carries the first member's severity and category |
| Digest.CopyScores | src/lib/agents/seo-action-plan/preprocessor.ts:102-109 | the loop assigns every category, in entry order, later assignments to the same name overwriting earlier ones |
| Digest.AddUrlIssues | src/lib/agents/seo-action-plan/preprocessor.ts:60-77 | processing one URL's issues keeps the map equal to the accumulation of every sighting seen so far plus this URL's issues |
| Digest.BuildIssueDigest | src/lib/agents/seo-action-plan/preprocessor.ts:51-121 | the imperative digest builder returns exactly the specification digest of the raw audit |
| Digest.DigestCopiesSummary | src/lib/agents/seo-action-plan/preprocessor.ts:94-120 | domain, date, health score, issue summary and every category score are copied, `priority_issues` defaults to `[]` and `pagespeed_summary` to `{ urls_analyzed: 0 }` |
| Digest.UnsortedMembership | src/lib/agents/seo-action-plan/preprocessor.ts:81-91 | before sorting, a group is in the list if and only if it is the group of some key |
| Digest.DigestGroupsAreKeyGroups | src/lib/agents/seo-action-plan/preprocessor.ts:57-92 | the digest has one group per distinct key, and a group is in it if and only if it is the group of some key's members |
| Digest.DigestGroupsShape | src/lib/agents/seo-action-plan/preprocessor.ts:44-92 | every group counts at least one issue and keeps min(count, 3) samples, and the groups are in non-increasing count order |
| Digest.ToGroupsCounts | src/lib/agents/seo-action-plan/preprocessor.ts:65-88 | the group counts add up to the sizes of the key groups |
| Digest.DigestGroupsTotal | src/lib/agents/seo-action-plan/preprocessor.ts:57-78 | the counts of all groups add up to the number of issues over all URL entries; entries without `issues` add nothing |
| Digest.KeyGroupFields | src/lib/agents/seo-action-plan/preprocessor.ts:61-83 | with bar-free fields, a key rebuilt from its group's fields is the key, and the sightings with those fields are the key's members |
| Digest.KeyGroupByFields | src/lib/agents/seo-action-plan/preprocessor.ts:61-91 | with bar-free fields, a key's group counts exactly the sightings with its three fields and samples their first URLs |
| Digest.DigestGroupsByFields | src/lib/agents/seo-action-plan/preprocessor.ts:61-89 | with bar-free fields, every digest group counts precisely the sightings with its issue_type, severity and category, its samples are their first URLs, and its issue_type is the key's first field |
| Digest.DigestOf | src/lib/agents/seo-action-plan/preprocessor.ts:51-121 | the digest of an audit; BuildIssueDigest, DigestGroupsByFields and DigestGroupsShape state what it holds |
| ActionPlanTools.GroupsInCategory | src/lib/agents/seo-action-plan/tools.ts:20-22 | the filter keeps a sub-list of the digest's groups |
| ActionPlanTools.GroupsInCategorySpec | src/lib/agents/seo-action-plan/tools.ts:20-23 | a group is kept if and only if it is in the digest and its category equals the query ignoring case, as often as the digest has it; the result is empty exactly when no group matches |
| ActionPlanTools.Categories | src/lib/agents/seo-action-plan/tools.ts:24 | the category of every group, position by position |
| ActionPlanTools.IssuesByCategoryAnswer | src/lib/agents/seo-action-plan/tools.ts:19-27 | the groups are returned if and only if some group matches the category ignoring case, and are then exactly the matching groups; otherwise the message lists each category of the digest once, in first-seen order |
| ActionPlanTools.CategoryCaseInsensitive | src/lib/agents/seo-action-plan/tools.ts:20-22 | a query and its lower-case form find groups together, and then the same groups |
| ActionPlanTools.SameFilter | src/lib/agents/seo-action-plan/tools.ts:20-22 | two queries with the same lower-case form select the same groups |
| ActionPlanTools.ParseSeverity | src/lib/agents/seo-action-plan/tools.ts:36-38 | the schema accepts `all` and the four severities, and refuses every other value |
| ActionPlanTools.ParseLimit | src/lib/agents/seo-action-plan/tools.ts:39 | an absent limit is 10; a given limit is accepted unchanged if and only if it lies in 1..50 |
| ActionPlanTools.WithSeverity | src/lib/agents/seo-action-plan/tools.ts:44 | the severity filter keeps a sub-list of the groups |
| ActionPlanTools.WithSeveritySpec | src/lib/agents/seo-action-plan/tools.ts:44 | a group is kept if and only if it is in the list with exactly the requested severity |
| ActionPlanTools.TopIssues | src/lib/agents/seo-action-plan/tools.ts:42-46 | the answer is a prefix of the candidate list of length min(limit, number of candidates) |
| ActionPlanTools.TopIssuesAnswer | src/lib/agents/seo-action-plan/tools.ts:41-47 | at most `limit` groups, all of the requested severity, a prefix of the digest under `all`, and the whole candidate list when it fits the limit |
| ActionPlanTools.TopIssuesCall | src/lib/agents/seo-action-plan/tools.ts:35-47 | the tool answers if and only if both arguments pass the schema, and answers at most 50 groups, at most 10 without a limit |
| ActionPlanTools.CategoryScoreOf | src/lib/agents/seo-action-plan/tools.ts:58-64 | a found score echoes the category as the caller spelled it |
| ActionPlanTools.CategoryScoreAnswer | src/lib/agents/seo-action-plan/tools.ts:58-64 | a miss happens exactly when no record key equals the lower-cased name, and lists every key; a hit is the record's entry under the lower-cased name |
| ActionPlanTools.CategoryScoreCase | src/lib/agents/seo-action-plan/tools.ts:59 | a name and its lower-case form are found or missed together |
| ActionPlanTools.PageSpeedDefault | src/lib/agents/seo-action-plan/tools.ts:73-75 | through a digest of an audit without a PageSpeed summary the tool reports zero URLs analysed, and otherwise the audit's own summary |
| ActionPlanTools.IssuesByCategory | src/lib/agents/seo-action-plan/tools.ts:19-27 | the answer of `getIssuesByCategory`; IssuesByCategoryAnswer states when it lists groups and which |
| ActionPlanTools.Candidates | src/lib/agents/seo-action-plan/tools.ts:42-45 | the digest under `all`, else the groups of the severity; WithSeveritySpec and TopIssues state what is kept |
| SeoMapper.ExtractDateValue | src/lib/mappers/seo-mapper.ts:15-19 | a date object gives its `value`, a date string is returned unchanged, a missing date gives "" |
| SeoMapper.GetCategoryStatus | src/lib/mappers/seo-mapper.ts:32-38 | a missing score is poor; otherwise excellent exactly from 90, good exactly in 70..89, needs-improvement exactly in 50..69, poor below |
| SeoMapper.StatusMonotone | src/lib/mappers/seo-mapper.ts:32-38 | a higher score never gets a worse status, and a missing score ranks no better than any score |
| SeoMapper.StatusNamesDistinct | src/lib/mappers/seo-mapper.ts:33-37 | the four status names are distinct, so a status is determined by its name |
| SeoMapper.RoundDiv | src/lib/mappers/seo-mapper.ts:117 | `Math.round(x / d)` on integers is the nearest integer to x/d, halves rounded up |
| SeoMapper.AuditIds | src/lib/mappers/seo-mapper.ts:48-52 | the audit id of every row, position by position |
| SeoMapper.RowsWithId | src/lib/mappers/seo-mapper.ts:48-52 | the rows collected under an id are non-empty exactly when some row has that id |
| SeoMapper.DomainsOf | src/lib/mappers/seo-mapper.ts:59 | the domain of every row, position by position |
| SeoMapper.AverageTenths | src/lib/mappers/seo-mapper.ts:63-77 | the average health score in tenths is the nearest integer to 10·sum/n, halves rounded up |
| SeoMapper.RunsFor | src/lib/mappers/seo-mapper.ts:57-83 | one run per given audit id |
| SeoMapper.GroupedAdd | src/lib/mappers/seo-mapper.ts:48-52 | one more row appends a new id to the Map's key order and pushes the row onto its own id's list only |
| SeoMapper.AuditIdsSnoc | src/lib/mappers/seo-mapper.ts:48 | one more row appends its audit id |
| SeoMapper.RowsWithIdSnoc | src/lib/mappers/seo-mapper.ts:49-51 | one more row extends only its own id's group |
| SeoMapper.GroupByAuditId | src/lib/mappers/seo-mapper.ts:46-52 | the grouping loop leaves the distinct audit ids in first-seen order as keys, holds a key exactly for each id of the rows, and under each key the rows of that id in row order |
| SeoMapper.GroupedNext | src/lib/mappers/seo-mapper.ts:49-51 | the loop body keeps the grouping invariant for one more row |
| SeoMapper.GroupedAll | src/lib/mappers/seo-mapper.ts:46-52 | after all rows the Map is the grouping of the whole row list |
| SeoMapper.RunsForStep | src/lib/mappers/seo-mapper.ts:57-83 | the second loop builds the run list one audit id at a time, in key order |
| SeoMapper.MapRowsToAuditRuns | src/lib/mappers/seo-mapper.ts:44-89 | the imperative `mapRowsToAuditRuns` returns exactly the specification run list |
| SeoMapper.RunsForAt | src/lib/mappers/seo-mapper.ts:57-83 | the run at each position is the run of the id at that position |
| SeoMapper.RunsAreGroups | src/lib/mappers/seo-mapper.ts:57-86 | every run of the sorted list is the run built from the rows of its own audit id |
| SeoMapper.UnsortedRunsNoDup | src/lib/mappers/seo-mapper.ts:57-83 | runs of distinct ids are distinct |
| SeoMapper.RunForEveryId | src/lib/mappers/seo-mapper.ts:46-86 | every audit id of the rows has a run |
| SeoMapper.AuditRunsOnePerId | src/lib/mappers/seo-mapper.ts:44-89 | one run per distinct audit id: the run ids are pairwise distinct and an id has a run if and only if some row carries it |
| SeoMapper.RunOfGroupShape | src/lib/mappers/seo-mapper.ts:58-82 | a run's file name uses its first domain and id, its date is the first row's, issue and new-issue counts are sums with nulls read as 0, the health score is the average rounded to a tenth, duration 0, status completed |
| SeoMapper.RunDomains | src/lib/mappers/seo-mapper.ts:59 | a run lists each domain of its rows exactly once, the first row's domain first, in first-seen order |
| SeoMapper.AuditRunsNewestFirst | src/lib/mappers/seo-mapper.ts:86 | the run list is sorted by date, newest first |
| SeoMapper.GroupSumsStep | src/lib/mappers/seo-mapper.ts:62-70 | one more row adds its value to its own id's group sum only |
| SeoMapper.GroupSumsTotal | src/lib/mappers/seo-mapper.ts:46-70 | summing a row field over all groups equals summing it over all rows: no row is lost or counted twice |
| SeoMapper.GroupSumsTotalStep | src/lib/mappers/seo-mapper.ts:46-70 | one more row keeps the group total equal to the row total |
| SeoMapper.RowsWithIdNew | src/lib/mappers/seo-mapper.ts:49 | the first row of a new id is its whole group so far |
| SeoMapper.GroupSumsNew | src/lib/mappers/seo-mapper.ts:57-70 | adding an id to the id list adds the sum over that id's rows |
| SeoMapper.RunsForSums | src/lib/mappers/seo-mapper.ts:62-70 | summing issues or new issues over the runs of some ids equals summing the row fields over those ids' groups |
| SeoMapper.AuditRunsTotals | src/lib/mappers/seo-mapper.ts:44-89 | across the whole run list, total and new issues add up to those of all rows |
| SeoMapper.DomainReportCategories | src/lib/mappers/seo-mapper.ts:113-130 | a report has the eight category names, each once; mobile and international score 100 with no issues and excellent status; the rest carry the health score, its status band and round(total issues / 8) |
| SeoMapper.DomainReportSummary | src/lib/mappers/seo-mapper.ts:95-111 | new issues are critical plus high, total issues is the row's count with null read as 0, fixed, regressed and info are 0 |
| SeoMapper.MapReports | src/lib/mappers/seo-mapper.ts:166 | one domain report per row, in row order |
| SeoMapper.DomainHealth | src/lib/mappers/seo-mapper.ts:173-174 | one (domain, health score) pair per report |
| SeoMapper.SummarizeReports | src/lib/mappers/seo-mapper.ts:169-177 | the summary loop assigns each report's health score under its domain, later ones overwriting, and sums the issue and critical counts |
| SeoMapper.MapRowsToAuditReport | src/lib/mappers/seo-mapper.ts:147-202 | the imperative `mapRowsToAuditReport` returns exactly the specification report |
| SeoMapper.MapReportsSums | src/lib/mappers/seo-mapper.ts:173-186 | summing a report field over the reports equals summing the row field over the rows |
| SeoMapper.AuditReportEmpty | src/lib/mappers/seo-mapper.ts:148-164 | no rows give no reports, zero counts, no domain scores and no date |
| SeoMapper.AuditReportTotals | src/lib/mappers/seo-mapper.ts:166-203 | one report per row in order; the summary counts every row as a domain, sums total, critical and new issues over all rows, takes the first row's date and the average health rounded to a tenth; fixed and regressed are 0 |
| SeoMapper.RowScores | src/lib/mappers/seo-mapper.ts:136-174 | one (domain, health score or 0) pair per row |
| SeoMapper.DomainHealthOfRows | src/lib/mappers/seo-mapper.ts:166-174 | the reports' (domain, health) pairs are the rows' pairs, keyed by the rows' domains |
| SeoMapper.DomainScoresLastWins | src/lib/mappers/seo-mapper.ts:169-197 | `domain_scores` holds each domain once, in first-seen order, with the value of the last assignment to it |
| SeoMapper.LastValueIsLastRow | src/lib/mappers/seo-mapper.ts:173-174 | a domain has a score exactly when some row has that domain, and the score is the health score of its last such row |
| SeoMapper.AuditRuns | src/lib/mappers/seo-mapper.ts:44-89 | one run per audit id sorted newest first; AuditRunsOnePerId, AuditRunsNewestFirst and AuditRunsTotals state it |
| SeoMapper.MapRowToDomainReport | src/lib/mappers/seo-mapper.ts:93-142 | a domain report whose missing counts read as 0; DomainReportSummary and DomainReportCategories state its fields |
| SeoMapper.AuditReportOf | src/lib/mappers/seo-mapper.ts:147-202 | the report of the rows; MapRowsToAuditReport, AuditReportTotals and DomainScoresLastWins state what it holds |
| BigQueryTypes.OrZero | src/lib/mappers/seo-mapper.ts:95-99 | a nullable count read with a zero default: null reads as 0; DomainReportSummary and MapReportsSums state its use |
| Utils.JsRem | src/lib/utils.ts:10-11 | JavaScript's `%` truncates, so the remainder lies in 0..d-1 for a non-negative dividend and in -(d-1)..0 for a negative one |
| Utils.DurationSplits | src/lib/utils.ts:8-11 | for a natural number of seconds the three fields are hours, minutes below 60 and seconds below 60, and they add back up to the input |
| Utils.DurationOfTotal | src/lib/utils.ts:8-11 | every valid hours/minutes/seconds triple is the split of its own total: splitting and totalling are inverses |
| Utils.FormatDurationForms | src/lib/utils.ts:8-20 | from 3600 seconds the text is "Hh Mm Ss", from 60 it is "Mm Ss", below 60 it is "Ss" |
| Utils.NegativeDurationShowsSeconds | src/lib/utils.ts:9-19 | a negative duration shows only its seconds field, negative or zero as the truncating remainder gives it |
| Utils.NumeralOf | src/lib/utils.ts:14-19 | the rendering of a natural number is a decimal numeral for it |
| Utils.ParseSecondsForm | src/lib/utils.ts:19 | the text "Ss" reads back as S |
| Utils.ParseMinutesForm | src/lib/utils.ts:17 | the text "Mm " followed by readable seconds reads back as 60·M plus those seconds |
| Utils.ParseHoursForm | src/lib/utils.ts:14 | the text "Hh " followed by readable minutes and seconds reads back as 3600·H plus them |
| Utils.FormatDurationRoundTrip | src/lib/utils.ts:8-20 | formatting a natural number of seconds and reading the text back gives that number |
| Utils.DurationTextRoundTrip | src/lib/utils.ts:13-19 | the text of any valid duration reads back as its total |
| Utils.TemplateRoundTrip | src/lib/utils.ts:13-19 | each of the three templates filled with numerals reads back as the total of the fields it shows |
| Utils.FormatDurationInjective | src/lib/utils.ts:8-20 | two natural numbers of seconds are shown the same way if and only if they are equal |
| Utils.Band | src/lib/utils.ts:46-65 | a score is excellent exactly from 90, good exactly in [70, 90), needs-improvement exactly in [50, 70), poor exactly below 50 |
| Utils.ScoreDisplaysFollowBand | src/lib/utils.ts:46-65 | the text colour, background colour and dot of a score are each a function of its band alone |
| Utils.BandDisplaysDecode | src/lib/utils.ts:46-65 | each text class, background class and dot tells its band back |
| Utils.BandDisplaysDistinct | src/lib/utils.ts:46-65 | two bands get the same text class, the same background class or the same dot if and only if they are the same band |
| Utils.BandIsCategoryStatus | src/lib/utils.ts:46-65 | an integer score falls in the band equal to the category status the mapper assigns it (src/lib/mappers/seo-mapper.ts:32-38) |
| Utils.BandMonotone | src/lib/utils.ts:46-65 | a higher score never falls in a worse band |
| Utils.SeverityColorDecodes | src/lib/utils.ts:67-76 | the class of a known severity tells that severity back, and the class of any other string tells none |
| Utils.SeverityColorsDistinct | src/lib/utils.ts:67-76 | the five known severities get pairwise distinct classes, and a string gets the zinc fallback if and only if it is not one of them |
| Utils.ColorFallbacks | src/lib/utils.ts:78-93 | a threat level gets zinc-500 exactly when it is not high, medium or low; a sentiment gets zinc-400 exactly when it is neither positive nor negative |
| Utils.Sign | src/lib/utils.ts:95-105 | the sign is 1 exactly for positive, -1 exactly for negative, 0 exactly for zero |
| Utils.TrendFollowsSign | src/lib/utils.ts:95-105 | two trends get the same icon, and the same colour, if and only if they have the same sign |
| Utils.LookupOrCases | src/lib/utils.ts:118-130 | the lookup with a fallback on a table of non-empty values gives the stored value of a present key and the fallback otherwise |
| Utils.RegionFlagCases | src/lib/utils.ts:107-119 | a region gets the globe if and only if it is not one of the eight known regions, whose flags are their table entries |
| Utils.PlatformIconCases | src/lib/utils.ts:121-131 | a known platform gets its own icon; the robot is shown exactly for chatgpt and for every unknown platform |
| Utils.DurationOf | src/lib/utils.ts:9-11 | the hours, minutes and seconds of `formatDuration`; DurationSplits and DurationOfTotal state that they split the input |
| Utils.FormatDuration | src/lib/utils.ts:8-20 | the duration text; FormatDurationForms, FormatDurationRoundTrip and FormatDurationInjective state its forms and that it reads back |
| Utils.HealthScoreColor | src/lib/utils.ts:46-51 | the text colour by score band; ScoreDisplaysFollowBand and BandDisplaysDistinct state that it follows exactly the band |
| Utils.HealthScoreBgColor | src/lib/utils.ts:53-58 | the background colour by score band; ScoreDisplaysFollowBand and BandDisplaysDistinct state that it follows exactly the band |
| Utils.StatusDot | src/lib/utils.ts:60-65 | the coloured dot by score band; ScoreDisplaysFollowBand and BandDisplaysDistinct state that it follows exactly the band |
| Utils.SeverityColor | src/lib/utils.ts:67-76 | the class of a severity, zinc for others; SeverityColorDecodes and SeverityColorsDistinct state what it tells |
| Utils.ThreatColor | src/lib/utils.ts:78-85 | the class of a threat level; ColorFallbacks states when the fallback shows |
| Utils.SentimentColor | src/lib/utils.ts:87-93 | the class of a sentiment; ColorFallbacks states when the fallback shows |
| Utils.TrendIcon | src/lib/utils.ts:95-99 | the arrow of a trend; TrendFollowsSign states that it follows exactly the sign |
| Utils.TrendColor | src/lib/utils.ts:101-105 | the colour of a trend; TrendFollowsSign states that it follows exactly the sign |
| Utils.RegionFlag | src/lib/utils.ts:107-119 | the flag of a region or the globe; RegionFlagCases states when each shows |
| Utils.PlatformIcon | src/lib/utils.ts:121-131 | the icon of a platform or the robot; PlatformIconCases states when each shows |
| AuditsRoute.ParseIntDigits | src/app/api/seo/audits/route.ts:11-12 | `parseInt` reads a run of digits that is not preceded by a sign as its decimal value |
| AuditsRoute.ParseIntUnsigned | src/app/api/seo/audits/route.ts:11-12 | a string starting with a digit is read by its leading digits alone |
| AuditsRoute.ParseDigitsOf | src/app/api/seo/audits/route.ts:11-12 | the digits of a number are read as that number whatever follows them |
| AuditsRoute.ParseIntMinus | src/app/api/seo/audits/route.ts:11-12 | a leading minus sign negates what the digits after it read as |
| AuditsRoute.ParseIntRendering | src/app/api/seo/audits/route.ts:11-12 | `parseInt` reads back the decimal rendering of every integer, stopping at the first character after the digits |
| AuditsRoute.ParseIntNoDigit | src/app/api/seo/audits/route.ts:11-12 | a string without any digit reads as NaN |
| AuditsRoute.ParseInt | src/app/api/seo/audits/route.ts:11-12 | `parseInt(s, 10)`: leading whitespace skipped, one sign, then the decimal digits that follow, NaN when there is none |
| AuditsRoute.MinNum | src/app/api/seo/audits/route.ts:11 | `Math.min` of NaN is NaN; otherwise the smaller of the two numbers |
| AuditsRoute.LimitOf | src/app/api/seo/audits/route.ts:11 | a numeric limit is never above 100 |
| AuditsRoute.OffsetOf | src/app/api/seo/audits/route.ts:12 | the parsed `offset` parameter, "0" when absent or empty, with no clamping |
| AuditsRoute.DefaultsParse | src/app/api/seo/audits/route.ts:11-12 | the fallbacks "20" and "0" read as 20 and 0 |
| AuditsRoute.RequestedParses | src/app/api/seo/audits/route.ts:11-12 | the rendering of a number is a non-empty parameter and reads back as that number |
| AuditsRoute.Fallbacks | src/app/api/seo/audits/route.ts:11-12 | an absent or empty limit is 20, an absent or empty offset 0 |
| AuditsRoute.LimitCases | src/app/api/seo/audits/route.ts:11 | the limit is 20 by default, the requested number when it is at most 100, and 100 otherwise |
| AuditsRoute.OffsetCases | src/app/api/seo/audits/route.ts:12 | the offset is 0 by default and the requested number otherwise |
| AuditsRoute.AddNum | src/app/api/seo/audits/route.ts:54-62 | `offset + limit` is NaN exactly when either is NaN, otherwise the sum |
| AuditsRoute.SliceIndex | src/app/api/seo/audits/route.ts:54 | `slice` reads NaN as 0, a negative position from the end, and clamps the position into 0..length |
| AuditsRoute.Slice | src/app/api/seo/audits/route.ts:54 | `slice(start, end)` is the part between the two read positions, empty when they cross |
| AuditsRoute.PaginateAsWritten | src/app/api/seo/audits/route.ts:54-63 | the page and pagination block exactly as the route builds them, with no clamping of negative parameters |
| AuditsRoute.NegativeParametersMisbehave | src/app/api/seo/audits/route.ts:11-62 | with three runs, `?limit=-1` returns two runs and says there are more, and `?offset=-1` returns only the last run |
| AuditsRoute.MinusOneParameters | src/app/api/seo/audits/route.ts:11-12 | "-1" reads as a limit of -1 and an offset of -1 |
| AuditsRoute.NegativeWindows | src/app/api/seo/audits/route.ts:54-62 | the pages the as-written slice gives for a limit or an offset of -1 over three runs |
| AuditsRoute.NonNegative | src/app/api/seo/audits/route.ts:11-12 | reading a negative number as 0 keeps NaN and every non-negative number |
| AuditsRoute.Paginate | src/app/api/seo/audits/route.ts:54-63 | the intended page of the finding: negative limits and offsets read as 0 first |
| AuditsRoute.PageIsWindow | src/app/api/seo/audits/route.ts:54-63 | a page is the window of `limit` runs from `offset` on, cut at the end of the list, never longer than `limit`; `total` counts all runs and `hasMore` holds exactly when runs remain after the window |
| AuditsRoute.Get | src/app/api/seo/audits/route.ts:8-75 | GET answers the as-written page of the grouped runs, or "Failed to fetch audit data" with the query's message |
| AuditsRoute.GetPageIsWindow | src/app/api/seo/audits/route.ts:11-63 | for parameters that read as non-negative numbers GET answers the clamped page, so PageIsWindow describes what it returns |
| AuditsRoute.AsWrittenWhenNonNegative | src/app/api/seo/audits/route.ts:54-63 | for non-negative numbers the as-written page equals the clamped one: the missing clamp matters only for negative parameters |
| AuditsRoute.PageOfNaN | src/app/api/seo/audits/route.ts:54-62 | a NaN limit or offset gives an empty page with `hasMore` false, as the route computes it |
| AuditsRoute.GetFailure | src/app/api/seo/audits/route.ts:65-74 | a failing query is answered with "Failed to fetch audit data" and its message |
| AuditsRoute.GetTotalCountsRuns | src/app/api/seo/audits/route.ts:51-61 | a successful query always gives a page, whose `total` counts the distinct audit ids, not the rows |
| AuditsRoute.PagesNewestFirst | src/app/api/seo/audits/route.ts:51-54 | a page the route gives for non-negative parameters is newest first, and no run on it is older than a run after the window |
| SpecPaths.ForwardSlashes | src/lib/agents/ticket-creation/specs/migration-specs/build-dependency-graph.js:15-36 | every backslash becomes a slash, every other character stays, and no backslash remains |
| SpecPaths.NormalizePath | src/lib/agents/ticket-creation/specs/migration-specs/build-dependency-graph.js:8-21 | a missing or empty path gives null; any other gives a path without backslashes, no longer than the input |
| SpecPaths.ForwardSlashesAppend | src/lib/agents/ticket-creation/specs/migration-specs/build-dependency-graph.js:15 | slash conversion distributes over appending a slash-free suffix |
| SpecPaths.ForwardSlashesNoop | src/lib/agents/ticket-creation/specs/migration-specs/build-dependency-graph.js:36 | a path without backslashes is unchanged by the second conversion |
| SpecPaths.DropExtensionOf | src/lib/agents/ticket-creation/specs/migration-specs/build-dependency-graph.js:18 | a trailing .ts, .tsx, .js or .jsx is removed |
| SpecPaths.NormalizePathForm | src/lib/agents/ticket-creation/specs/migration-specs/build-dependency-graph.js:8-21 | for an optional leading "src/" or "src\\" and an optional final extension the result is the middle part with slashes forward; a second "src/" or extension inside it survives |
| SpecPaths.DirnameEnd | src/lib/agents/ticket-creation/specs/migration-specs/build-dependency-graph.js:34 | the right-to-left scan of `dirname` stops at a slash after the first character, or finds none |
| SpecPaths.Dirname | src/lib/agents/ticket-creation/specs/migration-specs/build-dependency-graph.js:34 | `path.dirname` never yields the empty string |
| SpecPaths.DirnameOfChild | src/lib/agents/ticket-creation/specs/migration-specs/build-dependency-graph.js:34 | the directory of `dir/name` is `dir` for a relative `dir` and a slash-free name |
| SpecPaths.DirnameOfBare | src/lib/agents/ticket-creation/specs/migration-specs/build-dependency-graph.js:34 | a relative slash-free name lives in "." |
| SpecPaths.PosixNormalize | src/lib/agents/ticket-creation/specs/migration-specs/build-dependency-graph.js:35 | `path.normalize` never yields the empty string |
| SpecPaths.PosixJoin | src/lib/agents/ticket-creation/specs/migration-specs/build-dependency-graph.js:35 | `path.join` never yields the empty string |
| SpecPaths.CanonIsCanonical | src/lib/agents/ticket-creation/specs/migration-specs/build-dependency-graph.js:35 | resolving "." and ".." segments leaves no "." or empty segment, and ".." only at the front of a relative path |
| SpecPaths.CanonAppendPlain | src/lib/agents/ticket-creation/specs/migration-specs/build-dependency-graph.js:35 | plain segments appended to any prefix are kept as they are |
| SpecPaths.SplitJoin | src/lib/agents/ticket-creation/specs/migration-specs/build-dependency-graph.js:35 | splitting a "/"-join of slash-free segments gives the segments back |
| SpecPaths.NormalizeRelative | src/lib/agents/ticket-creation/specs/migration-specs/build-dependency-graph.js:35 | normalizing a relative path of non-empty segments joins its resolved segments |
| SpecPaths.ResolveForms | src/lib/agents/ticket-creation/specs/migration-specs/build-dependency-graph.js:24-41 | a missing source or dependency gives null; "~/" is cut and the rest normalized; "./" and "../" are joined to the source's directory and always give a path; anything else is normalized as it is |
| SpecPaths.TildeIgnoresSource | src/lib/agents/ticket-creation/specs/migration-specs/build-dependency-graph.js:28-30 | a "~/" dependency names the same path whatever the (present) source file |
| SpecPaths.CanonLead | src/lib/agents/ticket-creation/specs/migration-specs/build-dependency-graph.js:35 | after a directory, "." stays put and ".." pops the last directory |
| SpecPaths.JoinRelative | src/lib/agents/ticket-creation/specs/migration-specs/build-dependency-graph.js:34-35 | joining a relative directory with `./f` or `../f` normalizes the whole segment list |
| SpecPaths.ResolveAgainstDirname | src/lib/agents/ticket-creation/specs/migration-specs/build-dependency-graph.js:33-37 | `./f` next to `dir/name` names `dir/f`, and `../f` names `f` beside the parent of `dir` |
| SpecPaths.SplitSlashAppend | src/lib/agents/ticket-creation/tools.ts:55 | splitting a text at a '/' gives the segments of each side, in order |
| SpecPaths.CanonSkipsNeutral | src/lib/agents/ticket-creation/tools.ts:55 | Node's segment normalization drops an empty segment, a "." and a `name/..` pair wherever they stand, whether or not ".." may climb above the root |
| SpecPaths.NormalizeDropsNeutral | src/lib/agents/ticket-creation/tools.ts:55 | `path.normalize` gives the same path for `p//q`, `p/./q` and `p/name/../q` as for `p/q` |
| SpecPaths.NeutralTexts | src/lib/agents/ticket-creation/tools.ts:55 | the texts "", "." and `name/..` split into segments that normalization drops |
| SpecPaths.ResolveDependencyPath | src/lib/agents/ticket-creation/specs/migration-specs/build-dependency-graph.js:24-41 | `resolveDependencyPath`; ResolveForms, TildeIgnoresSource and ResolveAgainstDirname state its cases |
| SpecPaths.DropSrcPrefix | src/lib/agents/ticket-creation/specs/migration-specs/build-dependency-graph.js:12 | one leading "src/" or "src\\" goes; NormalizePathForm states the result |
| SpecPaths.DropExtension | src/lib/agents/ticket-creation/specs/migration-specs/build-dependency-graph.js:18 | the final extension goes; DropExtensionOf states it for each of the four |
| SpecParsers.Span | src/lib/agents/ticket-creation/specs/migration-specs/build-dependency-graph.js:121-122 | the longest prefix whose characters all satisfy the class, as a greedy `[...]+` run |
| SpecParsers.AfterColonOf | src/lib/agents/ticket-creation/specs/migration-specs/build-dependency-graph.js:76-95 | `split(':').slice(1).join(':').trim()` is everything after the first colon, trimmed, later colons included |
| SpecParsers.NestedKinds | src/lib/agents/ticket-creation/specs/migration-specs/build-dependency-graph.js:91-101 | the classification of every line below a bare `source:` key, position by position |
| SpecParsers.Decisions | src/lib/agents/ticket-creation/specs/migration-specs/build-dependency-graph.js:67-103 | the answer each line gives on its own, position by position |
| SpecParsers.GetSourceFile | src/lib/agents/ticket-creation/specs/migration-specs/build-dependency-graph.js:63-106 | the imperative loop with its early returns gives the specification answer |
| SpecParsers.ScanNested | src/lib/agents/ticket-creation/specs/migration-specs/build-dependency-graph.js:91-101 | the inner loop over at most nine following lines gives the specification scan |
| SpecParsers.ScanSpec | src/lib/agents/ticket-creation/specs/migration-specs/build-dependency-graph.js:91-101 | the scan answers v if and only if a `file:` or `path:` line with value v comes before `stop` and before any root key |
| SpecParsers.DecideForms | src/lib/agents/ticket-creation/specs/migration-specs/build-dependency-graph.js:69-102 | an answering line is never a comment or blank, and answers as a `source_file:` key, as a usable inline `source: ` value, or as a bare `source:` key followed within nine lines, before any root key, by a `file:` or `path:` line |
| SpecParsers.NestedKindMeaning | src/lib/agents/ticket-creation/specs/migration-specs/build-dependency-graph.js:94-99 | a line below the bare key is a path line exactly when it is an indented `file:` or `path:` key, and is skipped exactly when it is neither that nor a root key |
| SpecParsers.SourceFileFirst | src/lib/agents/ticket-creation/specs/migration-specs/build-dependency-graph.js:63-106 | `getSourceFile` answers exactly when some line decides, and then with the answer of the first such line |
| SpecParsers.UnitKey | src/lib/agents/ticket-creation/specs/migration-specs/build-dependency-graph.js:121-123 | a unit key indented by exactly two spaces has a non-empty name |
| SpecParsers.StripQuotesOf | src/lib/agents/ticket-creation/specs/migration-specs/build-dependency-graph.js:146 | one surrounding quote of either kind at each end goes, and nothing else does |
| SpecParsers.SpecLineSplits | src/lib/agents/ticket-creation/specs/migration-specs/build-dependency-graph.js:130-131 | a `spec:` line keeps its colon through `trim`, so `split(':')[1]` always exists |
| SpecParsers.FactsOf | src/lib/agents/ticket-creation/specs/migration-specs/build-dependency-graph.js:116-157 | one classification per line of `index.yaml` |
| SpecParsers.RunFactsStep | src/lib/agents/ticket-creation/specs/migration-specs/build-dependency-graph.js:116-157 | running the parser over one more line is one more step |
| SpecParsers.ParseDependencies | src/lib/agents/ticket-creation/specs/migration-specs/build-dependency-graph.js:109-160 | the imperative `parseDependencies` gives the specification fold of the line steps |
| SpecParsers.LastUnit | src/lib/agents/ticket-creation/specs/migration-specs/build-dependency-graph.js:121-126 | the last unit key among the first n lines, if any, with no unit key after it |
| SpecParsers.LastSpec | src/lib/agents/ticket-creation/specs/migration-specs/build-dependency-graph.js:130-133 | the last `spec:` line taken lies after the last unit key, inside a unit with a non-empty name, and no later `spec:` line of that unit follows |
| SpecParsers.RunUnitSpec | src/lib/agents/ticket-creation/specs/migration-specs/build-dependency-graph.js:112-133 | the parser's current unit is the last unit key read, its current spec the last `spec:` line taken since then; a unit key resets the spec |
| SpecParsers.StepKeys | src/lib/agents/ticket-creation/specs/migration-specs/build-dependency-graph.js:136-142 | one line adds a key to the map only when it is a `dependencies:` line under a spec, and then that spec |
| SpecParsers.EntryIff | src/lib/agents/ticket-creation/specs/migration-specs/build-dependency-graph.js:109-160 | a spec path has an entry exactly when some `dependencies:` line opened it, following a `spec:` line naming that path inside the same unit |
| SpecParsers.EntryLast | src/lib/agents/ticket-creation/specs/migration-specs/build-dependency-graph.js:136-142 | line n adds key k exactly when it opens an entry for k |
| SpecParsers.ItemValues | src/lib/agents/ticket-creation/specs/migration-specs/build-dependency-graph.js:145-146 | the values read from a run of item lines, one per line |
| SpecParsers.ItemsAppend | src/lib/agents/ticket-creation/specs/migration-specs/build-dependency-graph.js:145-151 | inside an open dependency list, a run of item lines appends their values in order, quotes stripped, to the current spec's list, leaves every other list unchanged, and keeps the list open |
| SpecParsers.ItemStep | src/lib/agents/ticket-creation/specs/migration-specs/build-dependency-graph.js:145-151 | one item line appends its value to the current spec's list only |
| SpecParsers.SpecNotDeps | src/lib/agents/ticket-creation/specs/migration-specs/build-dependency-graph.js:130-142 | no line is both a `spec:` and a `dependencies:` line |
| SpecParsers.SourceFile | src/lib/agents/ticket-creation/specs/migration-specs/build-dependency-graph.js:63-106 | `getSourceFile` on a spec's lines; SourceFileFirst and ScanSpec state which line answers |
| SpecParsers.Parse | src/lib/agents/ticket-creation/specs/migration-specs/build-dependency-graph.js:109-160 | the map `parseDependencies` returns; EntryIff, ItemValues and RunUnitSpec state its keys and lists |
| SpecParsers.StripQuotes | src/lib/agents/ticket-creation/specs/migration-specs/build-dependency-graph.js:146 | one quote of either kind off each end; StripQuotesOf states it |
| SpecGraph.AliasKey | src/lib/agents/ticket-creation/specs/migration-specs/build-dependency-graph.js:186-188 | the directory-import key of a module path ending in "/index" is the path without that final suffix |
| SpecGraph.AliasAgrees | src/lib/agents/ticket-creation/specs/migration-specs/build-dependency-graph.js:186-188 | when the final "/index" is the only one in the path, the code as written drops exactly that suffix |
| SpecGraph.AliasMisreads | src/lib/agents/ticket-creation/specs/migration-specs/build-dependency-graph.js:186-188 | for `dir/index<name>/index` the code as written cuts the first occurrence and files `dir<name>/index`, which is not the directory-import key |
| SpecGraph.AliasDoubleIndex | src/lib/agents/ticket-creation/specs/migration-specs/build-dependency-graph.js:186-188 | a path that is "/index" twice gets the right key from the code as written, though the suffix is not its only occurrence |
| SpecGraph.AliasAsWritten | src/lib/agents/ticket-creation/specs/migration-specs/build-dependency-graph.js:187 | `normalized.replace('/index', '')`: the first occurrence of "/index" removed |
| SpecGraph.Filed | src/lib/agents/ticket-creation/specs/migration-specs/build-dependency-graph.js:181-188 | a spec is filed under at most two keys: its normalized source and, for a path ending in "/index", the alias as the code computes it (the first "/index" removed) |
| SpecGraph.Listing | src/lib/agents/ticket-creation/specs/migration-specs/build-dependency-graph.js:175-177 | the facts of each spec file, one per file in listing order |
| SpecGraph.FileUnderSmall | src/lib/agents/ticket-creation/specs/migration-specs/build-dependency-graph.js:183-187 | filing under no key, one key or two keys assigns the spec to exactly those keys, in order |
| SpecGraph.TableSnoc | src/lib/agents/ticket-creation/specs/migration-specs/build-dependency-graph.js:175-195 | one more spec file is one more step of the table fold |
| SpecGraph.AddSpec | src/lib/agents/ticket-creation/specs/migration-specs/build-dependency-graph.js:175-195 | one spec file: counted and filed under its keys when it has a source, otherwise recorded as missing while fewer than ten are |
| SpecGraph.Table | src/lib/agents/ticket-creation/specs/migration-specs/build-dependency-graph.js:172-195 | the first stage over the spec files in listing order |
| SpecGraph.BuildSourceIndex | src/lib/agents/ticket-creation/specs/migration-specs/build-dependency-graph.js:172-195 | the imperative first stage, with the replace-first alias as written, gives the specification table of the listing; the listed paths are read as they are, which `path.join` agrees with (SpecFileOfListed) |
| SpecGraph.TableCounts | src/lib/agents/ticket-creation/specs/migration-specs/build-dependency-graph.js:179-193 | `foundSourceFiles` counts the specs with a source file, and `missingSourceFiles` holds the first ten (at most) of the others, in listing order |
| SpecGraph.LastFiled | src/lib/agents/ticket-creation/specs/migration-specs/build-dependency-graph.js:183-187 | a key was last filed by some spec with a source that lists it among its keys; no key means no such spec |
| SpecGraph.FileUnderLookup | src/lib/agents/ticket-creation/specs/migration-specs/build-dependency-graph.js:183-187 | after filing a spec under some keys, each of those keys gives the spec and every other key is unchanged |
| SpecGraph.TableLookup | src/lib/agents/ticket-creation/specs/migration-specs/build-dependency-graph.js:175-195 | the table answers every key with the last spec filed under it, because a later `Map.set` overwrites, and knows no other key |
| SpecGraph.TableTargets | src/lib/agents/ticket-creation/specs/migration-specs/build-dependency-graph.js:175-195 | on a real spec directory, every spec the table names is one of the spec files |
| SpecGraph.ResolvedOf | src/lib/agents/ticket-creation/specs/migration-specs/build-dependency-graph.js:235-256 | at most one found dependency per listed dependency |
| SpecGraph.UnresolvedOf | src/lib/agents/ticket-creation/specs/migration-specs/build-dependency-graph.js:237-255 | at most one miss per listed dependency |
| SpecGraph.EntriesOf | src/lib/agents/ticket-creation/specs/migration-specs/build-dependency-graph.js:225-233 | the facts of each index entry, one per entry in insertion order, each read at its `path.join`-normalized spec file |
| SpecGraph.SpecFileOf | src/lib/agents/ticket-creation/specs/migration-specs/build-dependency-graph.js:231 | the file `path.join(SPECS_DIR, specPath)` reads, as a non-empty path normalized relative to the spec directory |
| SpecGraph.EntryOf | src/lib/agents/ticket-creation/specs/migration-specs/build-dependency-graph.js:225-258 | an entry is present exactly when its joined spec file exists, keeps the index's own spelling as its key, and each miss names that spec |
| SpecGraph.SpecFileOfListed | src/lib/agents/ticket-creation/specs/migration-specs/build-dependency-graph.js:53-54 | a path as the listing gives it, plain segments joined by '/', is read at itself |
| SpecGraph.SpecFileOfDropsNeutral | src/lib/agents/ticket-creation/specs/migration-specs/build-dependency-graph.js:231 | `a//b`, `a/./b` and `a/name/../b` read the spec file `a/b` names |
| SpecGraph.SpecFileOfLeading | src/lib/agents/ticket-creation/specs/migration-specs/build-dependency-graph.js:231 | `./p` and `/p` read the spec file `p` names |
| SpecGraph.IndexDotSlashEntry | src/lib/agents/ticket-creation/specs/migration-specs/build-dependency-graph.js:225-233 | `spec: ./a.yaml` next to the spec file `a.yaml` is found, keyed `./a.yaml`, and resolution goes on |
| SpecGraph.NormalizedSource | src/lib/agents/ticket-creation/specs/migration-specs/build-dependency-graph.js:232-233 | `normalizePath(getSourceFile(file))`; SpecParsers.SourceFileFirst and SpecPaths.NormalizePathForm state its parts |
| SpecGraph.ErrSticks | src/lib/agents/ticket-creation/specs/migration-specs/build-dependency-graph.js:231-232 | a missing spec file ends the stage: later entries are not looked at |
| SpecGraph.ResolveSpecDeps | src/lib/agents/ticket-creation/specs/migration-specs/build-dependency-graph.js:235-256 | the inner `forEach` gives the found list and the misses, in list order, of the specification |
| SpecGraph.ResolveDependencies | src/lib/agents/ticket-creation/specs/migration-specs/build-dependency-graph.js:222-259 | the outer `forEach`, reading each entry at `path.join(SPECS_DIR, specPath)` normalized, gives the specification resolution of the index entries, or the first entry whose joined spec file is missing |
| SpecGraph.ResolveAll | src/lib/agents/ticket-creation/specs/migration-specs/build-dependency-graph.js:225-259 | the resolution of the index entries in order, failing at the first entry whose spec file is missing |
| SpecGraph.ResolveStops | src/lib/agents/ticket-creation/specs/migration-specs/build-dependency-graph.js:231-232 | an entry whose joined spec file does not exist is the error of the whole stage when the entries before it succeed |
| SpecGraph.ResolveGoesOn | src/lib/agents/ticket-creation/specs/migration-specs/build-dependency-graph.js:231-258 | an entry whose joined spec file exists reads that file's source, sets its spec's found list and appends its misses |
| SpecGraph.OutcomesPartition | src/lib/agents/ticket-creation/specs/migration-specs/build-dependency-graph.js:237-256 | every listed dependency is found, missed or silently dropped, exactly one of the three |
| SpecGraph.NoSourceDropsAll | src/lib/agents/ticket-creation/specs/migration-specs/build-dependency-graph.js:233-240 | a spec without a source file loses every dependency without a miss being reported |
| SpecGraph.ResolvedMeaning | src/lib/agents/ticket-creation/specs/migration-specs/build-dependency-graph.js:238-254 | every found dependency is one of the listed paths and leads to the spec the table holds for its resolved path; every miss names the spec, a listed dependency and its non-empty resolved path, which the table lacks |
| SpecGraph.ResolvedTargetsAreSpecs | src/lib/agents/ticket-creation/specs/migration-specs/build-dependency-graph.js:175-259 | with the first stage's table, every found dependency leads to a spec file |
| SpecGraph.ResolveAllOutcome | src/lib/agents/ticket-creation/specs/migration-specs/build-dependency-graph.js:222-259 | the stage fails exactly when some entry's spec file is missing (an entry is present when its joined file exists, EntryOf), and otherwise has a resolved list for exactly the entries' specs |
| SpecGraph.ResolveIndex | src/lib/agents/ticket-creation/specs/migration-specs/build-dependency-graph.js:217-259 | over the parsed index: the stage fails exactly when the `path.join`-normalized file of some indexed spec is missing, and otherwise has a resolved list for exactly the indexed specs, under the index's own spelling |
| SpecLevels.DepsOf | src/lib/agents/ticket-creation/specs/migration-specs/build-dependency-graph.js:283 | the dependency list, empty when missing: a non-empty list is the spec's entry in the resolution |
| SpecLevels.NodesClosed | src/lib/agents/ticket-creation/specs/migration-specs/build-dependency-graph.js:269-304 | the specs the walk can reach from the spec files are closed under dependencies |
| SpecLevels.MaxDepthMeaning | src/lib/agents/ticket-creation/specs/migration-specs/build-dependency-graph.js:294-297 | the maximum over a dependency list bounds every dependency's depth and is attained by one of them |
| SpecLevels.DepthIsLongestChain | src/lib/agents/ticket-creation/specs/migration-specs/build-dependency-graph.js:285-303 | in an acyclic graph a spec has depth 0 exactly when it has no dependencies, each dependency lies strictly lower, and some dependency lies exactly one lower |
| SpecLevels.LevelCalculator.constructor | src/lib/agents/ticket-creation/specs/migration-specs/build-dependency-graph.js:265-267 | the walk starts with no levels, nothing visited and nothing in progress |
| SpecLevels.LevelCalculator.SetLevel | src/lib/agents/ticket-creation/specs/migration-specs/build-dependency-graph.js:277-300 | recording a level changes that spec's level only and keeps every recorded level a depth when the new one is |
| SpecLevels.LevelCalculator.CalculateLevel | src/lib/agents/ticket-creation/specs/migration-specs/build-dependency-graph.js:269-304 | a visited spec returns its stored level, a spec in progress gets 0, a leaf 0, any other spec one more than the highest dependency level (so at least 1); it is afterwards visited, earlier visited levels stay, and in an acyclic graph the result is the spec's depth |
| SpecLevels.LevelCalculator.MaxDependencyLevel | src/lib/agents/ticket-creation/specs/migration-specs/build-dependency-graph.js:294-297 | `Math.max(0, ...)` over the dependencies, walked left to right, keeps earlier levels and, in an acyclic graph, is the highest dependency depth |
| SpecLevels.LevelCalculator.CalculateAll | src/lib/agents/ticket-creation/specs/migration-specs/build-dependency-graph.js:306-311 | after the driver every spec file has a level, nothing is in progress, and recorded levels remain depths |
| SpecLevels.MaxLevelBounds | src/lib/agents/ticket-creation/specs/migration-specs/build-dependency-graph.js:317 | the highest level bounds every level and is one of them, or 0 when there is none |
| SpecLevels.GroupByLevel | src/lib/agents/ticket-creation/specs/migration-specs/build-dependency-graph.js:316-325 | one group per level from 0 to the highest, each holding the specs of that level in insertion order |
| SpecLevels.GroupMembers | src/lib/agents/ticket-creation/specs/migration-specs/build-dependency-graph.js:323-325 | a spec is in the group of its level and in no other |
| SpecLevels.GroupsCount | src/lib/agents/ticket-creation/specs/migration-specs/build-dependency-graph.js:319-325 | when every level lies below k, the groups below k together hold every spec once |
| SpecLevels.GroupsPartition | src/lib/agents/ticket-creation/specs/migration-specs/build-dependency-graph.js:317-325 | the group sizes add up to the number of specs with a level: each is counted once |
| SpecLevels.Pages | src/lib/agents/ticket-creation/specs/migration-specs/build-dependency-graph.js:328 | a spec is a page exactly when it is a spec file starting with `frontend/routes/` |
| SpecLevels.Summary | src/lib/agents/ticket-creation/specs/migration-specs/build-dependency-graph.js:331-366 | `total_specs` counts the spec files, `max_depth` is the number of groups minus one, the leaf nodes are group 0 and `leaf_nodes_count` their number |
| SpecLevels.GroupsPlace | src/lib/agents/ticket-creation/specs/migration-specs/build-dependency-graph.js:317-325 | a spec with a level sits in the group of that level, which is at most the highest |
| SpecLevels.GroupsDepth | src/lib/agents/ticket-creation/specs/migration-specs/build-dependency-graph.js:269-325 | when the levels are depths, group l holds specs of depth l only |
| SpecLevels.ResolveIndex | src/lib/agents/ticket-creation/specs/migration-specs/build-dependency-graph.js:175-259 | the two resolution stages over the spec files and the index, with the replace-first alias as written and each index entry read at its joined spec file, give the specification resolution |
| SpecLevels.LevelGroups | src/lib/agents/ticket-creation/specs/migration-specs/build-dependency-graph.js:306-325 | every spec file is in some group, a spec without resolved dependencies is a leaf, and in an acyclic graph every group holds exactly specs of its depth |
| SpecLevels.BuildDependencyGraph | src/lib/agents/ticket-creation/specs/migration-specs/build-dependency-graph.js:162-366 | the script fails exactly when some index entry's `path.join`-normalized spec file is missing; otherwise the statistics count the specs, the leaves, the highest level and the misses, the pages are the route specs, and the groups place every spec as the levels say |
| SpecLevels.SummarizeGraph | src/lib/agents/ticket-creation/specs/migration-specs/build-dependency-graph.js:264-366 | over a successful resolution, the summary's statistics, pages and groups are those of the level walk |
| SpecLevels.IndexResolution | src/lib/agents/ticket-creation/specs/migration-specs/build-dependency-graph.js:172-259 | the table of the listed spec files, then the resolution of the parsed index through it; BuildDependencyGraph and SpecGraph.ResolveIndex state its outcome |
| SpecLevels.MaxLevel | src/lib/agents/ticket-creation/specs/migration-specs/build-dependency-graph.js:317 | `Math.max(0, ...levels.values())`; MaxLevelBounds states that it bounds and is attained |
| SpecLevels.Group | src/lib/agents/ticket-creation/specs/migration-specs/build-dependency-graph.js:323-325 | the specs whose level is `l`, in insertion order; GroupMembers states that a spec is in exactly its level's group |
| CleanupScript.DropCarriageReturn | scripts/cleanup-test-tickets.mjs:21 | at most one trailing carriage return is removed |
| CleanupScript.WithoutCarriageReturns | scripts/cleanup-test-tickets.mjs:21 | splitting on `/\\r?\\n/` gives the pieces of a split on "\\n", each but the last without the carriage return that ended it |
| CleanupScript.TrimDropsCarriageReturn | scripts/cleanup-test-tickets.mjs:21-22 | a carriage return before the line feed makes no difference once the line is trimmed |
| CleanupScript.EnvLinesTrimmed | scripts/cleanup-test-tickets.mjs:21-22 | after trimming, the lines of a split on "\\r\\n" or "\\n" are those of a split on "\\n" alone |
| CleanupScript.EntryOfTrimmed | scripts/cleanup-test-tickets.mjs:23-27 | a trimmed line assigns nothing exactly when it is blank, a comment or has no '='; otherwise it is cut at its first '=' into a key without '=' and the rest, neither trimmed again |
| CleanupScript.EnvEntryOfText | scripts/cleanup-test-tickets.mjs:21-27 | an assignment whose key is not blank, has no '=' and does not open a comment, with no surrounding whitespace, is read back exactly |
| CleanupScript.EnvEntries | scripts/cleanup-test-tickets.mjs:21-27 | what each line assigns, one per line |
| CleanupScript.Environment.constructor | scripts/cleanup-test-tickets.mjs:28 | the environment starts with the given variables |
| CleanupScript.Environment.LoadEnv | scripts/cleanup-test-tickets.mjs:18-30 | `loadEnv` leaves the environment as the specification fold of the assignments of `.env` |
| CleanupScript.Environment.LoadLines | scripts/cleanup-test-tickets.mjs:21-29 | the loop leaves the environment as the fold of the assignments of the lines read so far |
| CleanupScript.FirstValue | scripts/cleanup-test-tickets.mjs:28 | the first non-empty value the assignments give a variable is non-empty |
| CleanupScript.LoadedLaw | scripts/cleanup-test-tickets.mjs:18-30 | a variable already set to a non-empty value is kept; an unset or empty one takes the first non-empty value `.env` gives it, or "" when all its assignments are empty; a variable `.env` does not name is untouched |
| CleanupScript.FirstOccurrenceWins | scripts/cleanup-test-tickets.mjs:28 | for an unset variable, the first occurrence with a non-empty value wins over every later one |
| CleanupScript.Classify | scripts/cleanup-test-tickets.mjs:109-116 | 204 is exactly a deletion, 404 exactly an issue already gone, anything else a failure with its status and the first 200 characters of the body |
| CleanupScript.DeleteTickets | scripts/cleanup-test-tickets.mjs:102-117 | the loop sends one request per ticket whatever the earlier ones answered, until a request is rejected, and gives the specification run |
| CleanupScript.RejectionSticks | scripts/cleanup-test-tickets.mjs:104 | once a request was rejected the loop has been left, so later tickets change nothing |
| CleanupScript.AllAnswered | scripts/cleanup-test-tickets.mjs:102-117 | when every request is answered, the loop reaches every ticket and reports no rejection |
| CleanupScript.DeleteOutcomesEach | scripts/cleanup-test-tickets.mjs:102-117 | the tickets before the first rejected request are visited once each, in order, with the outcome of their own response; every ticket is reached exactly when no request is rejected, and a rejection carries its message |
| CleanupScript.OutcomesPartition | scripts/cleanup-test-tickets.mjs:109-116 | deleted, already gone and failed tickets add up to every ticket |
| CleanupScript.PathsOf | scripts/cleanup-test-tickets.mjs:70-74 | at most one stored path per table row, the audit's rows in table order; the first stands for the one row `LIMIT 1` returns, which the query leaves unordered |
| CleanupScript.Cleared | scripts/cleanup-test-tickets.mjs:122-126 | the UPDATE keeps one row per row |
| CleanupScript.ClearedPaths | scripts/cleanup-test-tickets.mjs:122-126 | after the UPDATE no row of the audit has a path, the audit keeps its rows, and every other row is unchanged |
| CleanupScript.AuditTable.constructor | scripts/cleanup-test-tickets.mjs:65 | the table starts with the given rows |
| CleanupScript.AuditTable.SelectPaths | scripts/cleanup-test-tickets.mjs:70-74 | the SELECT answers the audit's paths in table order, of which the script uses the first, and changes nothing |
| CleanupScript.AuditTable.ClearPaths | scripts/cleanup-test-tickets.mjs:122-126 | the UPDATE clears the audit's paths and changes no other row |
| CleanupScript.CleanupCases | scripts/cleanup-test-tickets.mjs:76-135 | nothing is done exactly when the first row has no path; an invalid URI aborts with "Invalid GCS URI: " and the path; the cleanup completes exactly when the URI parses, the object downloads and every DELETE is answered, and then every ticket gets its outcome; a rejected DELETE aborts with its message |
| CleanupScript.RerunFindsNothing | scripts/cleanup-test-tickets.mjs:76-79 | after a completed cleanup the audit has no stored path, so a second run finds nothing to clean up |
| CleanupScript.Cleanup | scripts/cleanup-test-tickets.mjs:68-135 | `main` from the lookup on gives `CleanupOf` of the audit's stored paths, and the table has the audit's paths cleared exactly when the cleanup completed |
| CleanupScript.EnvEntry | scripts/cleanup-test-tickets.mjs:21-27 | what one `.env` line assigns, read from the trimmed line; EntryOfTrimmed and EnvEntryOfText state its cases |
| CleanupScript.Loaded | scripts/cleanup-test-tickets.mjs:18-30 | the environment after the assignments in order; LoadedLaw states which value each variable ends with |
| CleanupScript.DeleteResults | scripts/cleanup-test-tickets.mjs:102-117 | the DELETE run over the keys in order with a sticky rejection; DeleteTickets, RejectionSticks and DeleteOutcomesEach state its behaviour |
| CleanupScript.CleanupOf | scripts/cleanup-test-tickets.mjs:70-135 | what `main` does from the first stored path on; CleanupCases and RerunFindsNothing state its outcomes |
| JsString.TrimStart | scripts/cleanup-test-tickets.mjs:22 | the start of `trim`: the result is a suffix of the input, only whitespace was dropped, and it does not start with whitespace |
| JsString.TrimEnd | scripts/cleanup-test-tickets.mjs:22 | the end of `trim`: the result is a prefix of the input, only whitespace was dropped, and it does not end with whitespace |
| JsString.TrimEnds | scripts/cleanup-test-tickets.mjs:22 | what `trim` keeps is empty or starts and ends with a non-whitespace character |
| JsString.TrimIdempotent | scripts/cleanup-test-tickets.mjs:22 | trimming twice is trimming once |
| JsString.IndexOf | scripts/cleanup-test-tickets.mjs:24 | `indexOf` gives the least position of an occurrence, or -1 exactly when there is none |
| JsString.IndexOfChar | scripts/cleanup-test-tickets.mjs:24 | `indexOf` of one character gives its first position, or -1 exactly when it does not occur |
| JsString.Split | src/lib/agents/ticket-creation/grouper.ts:51 | `split` always gives at least one piece |
| JsString.SplitSpec | src/lib/agents/ticket-creation/grouper.ts:51 | joining the pieces with the separator gives the string back, every piece but the last ends at the first later occurrence of the separator, and the last piece holds none |
| JsString.ReplaceFirst | src/lib/agents/ticket-creation/specs/migration-specs/build-dependency-graph.js:187 | `replace` with a string pattern leaves a string without the pattern unchanged and otherwise replaces only the first occurrence |
| JsString.Lower | src/lib/agents/seo-action-plan/tools.ts:20-21 | `toLowerCase` maps every character through the ASCII lower-case map, position by position |
| JsString.Prefix | src/lib/agents/ticket-creation/jira-publisher.ts:168 | `slice(0, n)` is the prefix of length min(n, length) |
| JsString.NatToString | src/lib/agents/ticket-creation/jira-publisher.ts:168 | the rendering of a natural number is a non-empty run of decimal digits |
| JsString.NatToStringValue | src/lib/agents/ticket-creation/jira-publisher.ts:168 | the decimal rendering of a natural number reads back as that number |
| JsString.DigitPrefix | src/app/api/seo/audits/route.ts:11-12 | the longest prefix made of decimal digits |
| JsString.DigitPrefixOf | src/app/api/seo/audits/route.ts:11-12 | the digits of a number are read back whatever non-digit follows them |
| JsString.IntToString | src/lib/agents/ticket-creation/jira-publisher.ts:168 | the rendering of an integer is non-empty and starts with '-' exactly when the integer is negative |
| Records.Lookup | src/lib/agents/seo-action-plan/tools.ts:59 | `record[key]` is undefined exactly when no entry has the key, and otherwise a value stored under it |
| Records.Keys | src/lib/agents/seo-action-plan/tools.ts:61 | `Object.keys` lists the keys in entry order |
| Records.AssignedDistinct | src/lib/agents/seo-action-plan/preprocessor.ts:102-109 | copying a record with distinct keys entry by entry gives back the same record |
| Records.LookupAssign | src/lib/agents/seo-action-plan/preprocessor.ts:104 | after `record[k] = v`, `k` reads `v` and every other key is unchanged |
| Records.LookupAssigned | src/lib/mappers/seo-mapper.ts:173-174 | after a run of assignments every key reads the value assigned to it last |
| Records.KeysAssigned | src/lib/mappers/seo-mapper.ts:173-174 | the keys of an assigned record are the assigned keys, each once, in first-assignment order |
| Records.KeysAssign | src/lib/mappers/seo-mapper.ts:174 | an assignment keeps the key order and appends a key that was not there |
| StableSort.Insert | src/lib/agents/ticket-creation/grouper.ts:62-65 | inserting one element adds exactly that element |
| StableSort.Sort | src/lib/agents/ticket-creation/grouper.ts:62-65 | `Array.prototype.sort` returns a permutation of its input |
| StableSort.SortSorted | src/lib/agents/ticket-creation/grouper.ts:62-65 | the result is in non-decreasing comparator order |
| StableSort.SortStable | src/lib/agents/ticket-creation/grouper.ts:62-65 | elements that compare equal keep their input order, as ECMAScript requires of `sort` |
| StableSort.SortSum | src/lib/agents/ticket-creation/grouper.ts:62-65 | sorting keeps every sum over the elements |
| StableSort.SortNoDup | src/lib/mappers/seo-mapper.ts:86 | sorting distinct elements gives distinct elements |
| Seqs.DedupSpec | src/lib/mappers/seo-mapper.ts:59 | `[...new Set(xs)]` holds each value of `xs` once, nothing else, in first-seen order |
| Seqs.DedupSnoc | src/lib/mappers/seo-mapper.ts:59 | one more value is appended exactly when it has not been seen before |
| Seqs.DedupFirst | src/lib/mappers/seo-mapper.ts:74 | the first value comes first after removing duplicates |
| Seqs.Thread | src/lib/agents/ticket-creation/jira-publisher.ts:225-263 | a loop that threads a state through the elements gives one result per element |
| Seqs.ThreadAt | src/lib/agents/ticket-creation/jira-publisher.ts:225-263 | the result at each position is what the step gives on that element in the state the earlier elements left |
| Seqs.MapSeq | src/lib/agents/ticket-creation/specs/migration-specs/build-dependency-graph.js:175-177 | applying a step to every element gives one result per element |
| Seqs.MapSeqAt | src/lib/agents/ticket-creation/specs/migration-specs/build-dependency-graph.js:175-177 | the result at each position is the step applied to the element there |
| Wrappers.CollectAllOk | src/app/api/seo/tickets/route.ts:38-97 | collecting results over a list succeeds exactly when every element succeeds |
| Wrappers.CollectAllValues | src/app/api/seo/tickets/route.ts:38-97 | a successful collection holds each element's value at its position |

## Left out

- React UI (components, pages, login, header, tab navigation, domain context, GEO panel): presentation logic tied to React state and DOM downloads.
- Network and SSE client hooks (`use-geo-research`, `useSeoAudits`, `geo-api`, `seo-api`) and their reconnect timers and interval health checks: fetch/EventSource plumbing and timing.
- GEO proxy routes under `app/api/geo`: pure pass-through proxies.
- The LLM agents: the `createReactAgent`/ChatAnthropic invocation in src/lib/agents/ticket-creation/classifier-agent.ts:165-213 becomes an oracle from a group to its captured output or a thrown error.
  - The action-plan agent (src/lib/agents/seo-action-plan/agent.ts) is an LLM wrapper over LangChain message shapes and is not part of this model.
- Jira HTTP requests, auth headers and base64 credentials: replaced by a `JiraServer` that answers each call, with the answer standing for the HTTP status and body.
- BigQuery:
  - the SQL text, including the domain filter of the audits route (src/app/api/seo/audits/route.ts:35-38);
  - `lib/bigquery.ts` and `getStorageClient`, which are credential and singleton plumbing.
  Query results are row sequences, and a query failure is an error value.
- BigQuery writes are assumed to succeed: the INSERT of the tickets route and the UPDATE of the cleanup script, which clears the audit's stored path. The model has no failure outcome for either. A failing SELECT of the cleanup script is not modelled either; the table answers it.
- GCS and filesystem I/O: these are maps from paths to contents.
  - The classifier tools read a spec at `path.join(SPECS_DIR, path)`. `SPECS_DIR` comes from `process.cwd()` and is the parameter `specsDir`. The file system maps normalized paths to texts, so a path that names a directory, a symbolic link or an unreadable file is not modelled.
  - `findYamlFiles` (build-dependency-graph.js:44-60) and the directory listing are not modelled; the spec files are given as a table from path to lines.
  - The dependency-graph script reads an index entry's spec at `path.join(SPECS_DIR, spec)`. The model reads the table at the same path normalized relative to the spec directory (`SpecGraph.SpecFileOf`), so "./", "//", "." and `name/..` segments and a leading '/' are resolved as `path.join` resolves them.
  - The written output files and `appendFileSync` are not modelled.
- Timing of `Promise.allSettled` and `Promise.all`: both are modelled as order-preserving sequential evaluation.
  - For the downloads in the tickets route, an invalid URI is reported before any download error, and download errors are reported in row order.
  - Which of two concurrent download failures a real run sees first is not modelled.
- Floating point:
  - fractional health scores are not modelled, because scores are integers in the model;
  - the average health `Math.round(x*10)/10` is modelled exactly as integer tenths;
  - fractional seconds in `formatDuration` are left out, because durations are natural numbers of seconds and `Math.floor` is then the identity;
  - percentages in the UI are left out;
  - `AuditsRoute.ParseInt`, `AuditsRoute.LimitOf` and `AuditsRoute.OffsetOf` give unbounded integers, while JavaScript's `parseInt` rounds a digit run above 2^53 to the nearest double and gives `Infinity` beyond about 1.8e308, so the `pagination.limit` and `pagination.offset` echoed for such input are not modelled.
- `Intl` formatting (`formatNumber`, `formatDate`, `formatTime`, `formatDateTime`) and `cn`/`twMerge`: locale and class-merging libraries.
- `JSON.stringify` formatting and the YAML text layout: ADF nodes, results and reports are datatypes.
- Console output, including the unresolved-dependency report of the graph build (build-dependency-graph.js:374-396).
- Invalid dates: `new Date(text).getTime()` is a function parameter `timeOf`, so NaN timestamps are not modelled.
- Windows paths: `path.join`/`path.dirname` are modelled with POSIX `/` semantics only.
- JavaScript prototype keys (`flags["constructor"]` and similar): lookup tables are finite maps.
- Unicode case mapping: `toLowerCase` is modelled on ASCII letters only.
- The `createdAt`/`created_at` timestamps of the stored result and the runs table: clock values.
- Command-line handling of the cleanup script (argv, the usage message, process exit codes): process plumbing.
  - JSON parsing of the downloaded tickets file is folded into the download oracle.
- Static data and configuration (`data/sample-geo.ts`, `next.config.ts`) and the type-only files: the type files are the source of the datatypes.
- TicketsRoute.Post: runs the intended five-argument pipeline call on the combined groups, with domain `combined`, rather than the three-argument call at src/app/api/seo/tickets/route.ts:207. As written, that call classifies and publishes none of the groups, and the undefined bucket makes the storage step depend on library code outside this model (see `TicketsRoute.AsWrittenDropsGroups`).
- TicketsRoute.PostSpec: the same intended call as `TicketsRoute.Post`, for the same reason.
- TicketsRoute.CompletedRecord: the record it describes, at `tickets/combined/<date>/tickets.json` with the groups' tickets, is what the intended call writes. The code as written never produces it.
- TicketsRoute.GetAfterPost: the record GET returns after a completed POST is the intended call's record, for the same reason.
- ClassifierTools.Truncate, JiraPublisher.CreateOutcome, JiraPublisher.AttachOutcome and CleanupScript.Classify: the model counts string lengths and cuts strings (8000, 500, 300 and 200) in Unicode scalar values, while JavaScript's `length` and `slice` count UTF-16 code units. Text outside the Basic Multilingual Plane is therefore cut at a different place; Dafny strings have no UTF-16 view.
- AuditsRoute.GetFailure: a query failure always carries a message, so the `'Unknown error'` detail the route gives for a rejection that is not an `Error` (src/app/api/seo/audits/route.ts:71) is not represented.
- SpecGraph.EntryOf: an index `spec:` path whose leading `..` climbs out of the spec directory (`../migration-specs/a.yaml`, say) stays outside the table of spec files, so the model reports that spec file missing. The script instead reads whatever file the absolute `SPECS_DIR` joined with it names, which for that example is `a.yaml` again.
- Digest.DigestCopiesSummary: requires the category-score entries to have distinct keys, which JSON objects always have; without that requirement only the last value of a repeated key would be kept.
- SpecLevels.DepthIsLongestChain: the longest-chain reading of a level holds only on acyclic graphs. On a cycle the walk still terminates and gives 0 to a spec it re-enters, which the walk's own contract states.

## Findings

| source | as written | input that shows it | evidently intended | confidence | as-written member | corrected member |
|---|---|---|---|---|---|---|
| src/lib/agents/ticket-creation/pipeline.ts:83-88 | after filtering the failed publish results, each failure is labelled with `draftedTickets[idx]`, where `idx` is its position among the failures | two drafted tickets A, B where A publishes and B fails: the failure is labelled with A's issue type | a publish failure carries the issue type of the ticket it came from, its position among all publish results | not executed | Pipeline.AsWrittenMislabels | Pipeline.PublishFailuresLabels |
| src/app/api/seo/tickets/route.ts:207 | `runTicketCreationPipeline(latestDate, issueGroups, bucket)` against a five-parameter signature that groups a raw audit itself | any non-empty list of groups: the groups land in the raw-audit slot, so no group is classified and nothing is published; if the save succeeds, the reported path has `undefined` in it | the combined groups are classified and published; the model stores the record under `tickets/combined/<runDate>/tickets.json`, its own choice of domain for the combined run | not executed | TicketsRoute.AsWrittenDropsGroups | TicketsRoute.CombinedStagesPublishesGroups |
| src/app/api/seo/audits/route.ts:11-62 | a negative `limit` or `offset` goes straight into `slice` and `hasMore` | three runs and `?limit=-1`: two runs with `hasMore` true. Three runs and `?offset=-1`: only the last run | pagination with non-negative offset and limit, so the page is a window starting at the offset | not executed | AuditsRoute.NegativeParametersMisbehave | AuditsRoute.PageIsWindow |
| src/lib/agents/ticket-creation/specs/migration-specs/build-dependency-graph.js:186-188 | the directory alias is `normalized.replace('/index', '')`, which removes the first occurrence | `lib/index-utils/index` is filed as `lib-utils/index` | the alias drops the trailing `/index`, giving `lib/index-utils` | not executed | SpecGraph.AliasMisreads | SpecGraph.AliasKey |
