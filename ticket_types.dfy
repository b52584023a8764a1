/**
 * The records the ticket-creation pipeline passes between its stages
 * (src/lib/agents/ticket-creation/types.ts). Optional JSON fields are `Option`s; severity,
 * classification, team and priority are kept as the strings the JSON carries, because the
 * pipeline never checks them against their declared unions (except priority, see Classifier).
 */
module TicketTypes {
  import opened Wrappers

  /** One issue reported for one URL. */
  datatype RawUrlIssue = RawUrlIssue(
    issueType: string,
    severity: string,
    category: string,
    description: Option<string>,
    recommendation: Option<string>,
    currentValue: Option<string>,
    expectedValue: Option<string>)

  /** A URL's entry; `issues` may be missing. */
  datatype RawUrlEntry = RawUrlEntry(issues: Option<seq<RawUrlIssue>>)

  /** The `urls` record as its `Object.entries`, in insertion order. */
  type UrlEntries = seq<(string, RawUrlEntry)>

  datatype RawIssueSummary = RawIssueSummary(
    totalIssues: int, criticalCount: int, highCount: int, mediumCount: int, lowCount: int)

  /** The audit JSON of one domain; only what the ticket pipeline reads. */
  datatype RawAuditJson = RawAuditJson(
    domain: string,
    auditDate: string,
    healthScore: int,
    issueSummary: RawIssueSummary,
    urls: Option<UrlEntries>)

  /** The concrete example attached to a group. */
  datatype ExampleIssue = ExampleIssue(
    url: string,
    description: Option<string>,
    recommendation: Option<string>,
    currentValue: Option<string>,
    expectedValue: Option<string>)

  /** The example built from one issue seen at `url`. */
  function ExampleOf(url: string, issue: RawUrlIssue): ExampleIssue {
    ExampleIssue(url, issue.description, issue.recommendation, issue.currentValue, issue.expectedValue)
  }

  /** An issue group with every affected URL (one per matching issue, no deduplication). */
  datatype IssueGroupForTicket = IssueGroupForTicket(
    issueType: string,
    severity: string,
    category: string,
    count: int,
    allUrls: seq<string>,
    affectedDomains: seq<string>,
    exampleIssue: ExampleIssue)

  const Classifications: seq<string> :=
    ["Frontend Rendering Issue", "API Data Issue - Field Exists",
     "API Data Issue - Field Missing", "Out of Scope"]
  const Teams: seq<string> := ["Tech Team", "Data Team"]
  const JiraPriorities: seq<string> := ["Highest", "High", "Medium", "Low"]

  /** A ticket drafted by the classifier for one group. */
  datatype DraftedTicket = DraftedTicket(
    issueGroup: IssueGroupForTicket,
    classification: string,
    team: string,
    priority: string,
    objective: string,
    summary: string,
    proposedSolution: string)

  /** One created Jira issue. */
  datatype JiraTicketResult = JiraTicketResult(
    issueKey: string,
    jiraUrl: string,
    issueType: string,
    team: string,
    attachmentCreated: bool)

  /** One failed group or ticket. */
  datatype Failure = Failure(issueType: string, error: string)

  datatype RunStatus = Complete | Exists

  /** What the pipeline reports and stores. */
  datatype TicketCreationResult = TicketCreationResult(
    status: RunStatus,
    auditId: string,
    ticketsCreated: int,
    tickets: seq<JiraTicketResult>,
    failures: seq<Failure>,
    gcsPath: string)

  /** The JSON document the pipeline stores; the `createdAt` timestamp is left out. */
  datatype TicketsFile = TicketsFile(
    auditId: string,
    domain: string,
    auditDate: string,
    ticketsCreated: int,
    tickets: seq<JiraTicketResult>,
    failures: seq<Failure>)
}
