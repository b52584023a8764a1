/**
 * The deterministic part of `runClassifierAgent` (src/lib/agents/ticket-creation/classifier-agent.ts):
 * what the `submitTicket` tool captured becomes a `DraftedTicket` through the priority fallback
 * and the field defaults. The agent run itself is an oracle: it either throws, or finishes
 * after calling `submitTicket` zero or more times.
 */
module Classifier {
  import opened Wrappers
  import opened TicketTypes

  /**
   * The input of one `submitTicket` call. The schema declares every field a string; the three
   * text fields are optional here because the code still applies `??` to them.
   */
  datatype TicketOutput = TicketOutput(
    classification: string,
    team: string,
    priority: string,
    objective: Option<string>,
    summary: Option<string>,
    proposedSolution: Option<string>)

  /** The schema enums of `ticketOutputSchema`. */
  predicate SchemaValid(o: TicketOutput) {
    o.classification in Classifications && o.team in Teams && o.priority in JiraPriorities
  }

  /** What the agent run did: threw with a message, or finished after these `submitTicket` calls. */
  datatype AgentRun = Threw(message: string) | Finished(submissions: seq<TicketOutput>)

  /** The closure variable `capturedOutput` after the run: every call overwrites it, so the last one wins. */
  function Captured(submissions: seq<TicketOutput>): (r: Option<TicketOutput>)
    ensures r.None? <==> submissions == []
    ensures r.Some? ==> r.value == submissions[|submissions| - 1]
  {
    if submissions == [] then None else Some(submissions[|submissions| - 1])
  }

  /** `SEVERITY_TO_PRIORITY[severity] ?? 'Medium'`. */
  function SeverityPriority(severity: string): (r: string)
    ensures r in JiraPriorities
    ensures severity == "critical" ==> r == "Highest"
    ensures severity == "high" ==> r == "High"
    ensures severity == "low" ==> r == "Low"
    ensures severity !in ["critical", "high", "low"] ==> r == "Medium"
  {
    if severity == "critical" then "Highest"
    else if severity == "high" then "High"
    else if severity == "medium" then "Medium"
    else if severity == "low" then "Low"
    else "Medium"
  }

  /** The captured priority when it is one of the four, the severity's priority otherwise. */
  function ResolvePriority(captured: string, severity: string): (r: string)
    ensures r in JiraPriorities
    ensures captured in JiraPriorities ==> r == captured
    ensures captured !in JiraPriorities ==> r == SeverityPriority(severity)
  {
    if captured in ["Highest", "High", "Medium", "Low"] then captured else SeverityPriority(severity)
  }

  const MissingSubmitPrefix: string := "Classifier agent did not call submitTicket for issue \""
  const MissingSubmitSuffix: string := "\". The agent completed without submitting a structured ticket."

  /** After the agent run: the error when nothing was captured, otherwise the drafted ticket. */
  function DraftFromCapture(group: IssueGroupForTicket, captured: Option<TicketOutput>): Result<DraftedTicket> {
    if captured.None? then Err(MissingSubmitPrefix + group.issueType + MissingSubmitSuffix)
    else
      var o := captured.value;
      Ok(DraftedTicket(
        group,
        o.classification,
        o.team,
        ResolvePriority(o.priority, group.severity),
        OrElse(o.objective, "Issue with " + group.issueType),
        OrElse(o.summary, ""),
        OrElse(o.proposedSolution, "")))
  }

  /**
   * `runClassifierAgent(group)` given what the agent run did: it fails exactly when the run threw
   * or never submitted, and a drafted ticket keeps the input group and has a valid priority.
   */
  function RunClassifierAgent(group: IssueGroupForTicket, run: AgentRun): (r: Result<DraftedTicket>)
    ensures r.Ok? <==> run.Finished? && run.submissions != []
    ensures run.Finished? && run.submissions == [] ==>
      r.error == MissingSubmitPrefix + group.issueType + MissingSubmitSuffix
    ensures run.Threw? ==> r.error == run.message
    ensures r.Ok? ==> r.value.issueGroup == group && r.value.priority in JiraPriorities
  {
    match run
    case Threw(message) => Err(message)
    case Finished(submissions) => DraftFromCapture(group, Captured(submissions))
  }

  /**
   * A drafted ticket comes from the last submission: the input group unchanged, classification
   * and team passed through, the priority always one of the four (kept when valid, from the
   * severity otherwise), and the defaults for missing text fields.
   */
  lemma DraftedTicketFields(group: IssueGroupForTicket, submissions: seq<TicketOutput>)
    requires submissions != []
    ensures var o := submissions[|submissions| - 1];
      var r := RunClassifierAgent(group, Finished(submissions));
      && r.Ok?
      && r.value.issueGroup == group
      && r.value.classification == o.classification
      && r.value.team == o.team
      && r.value.priority in JiraPriorities
      && (o.priority in JiraPriorities ==> r.value.priority == o.priority)
      && (o.priority !in JiraPriorities ==> r.value.priority == SeverityPriority(group.severity))
      && r.value.objective == (if o.objective.None? then "Issue with " + group.issueType else o.objective.value)
      && r.value.summary == (if o.summary.None? then "" else o.summary.value)
      && r.value.proposedSolution == (if o.proposedSolution.None? then "" else o.proposedSolution.value)
  {
  }

  /** Only the schema keeps classification and team within their enums; the code itself does not check them. */
  lemma SchemaBoundsFields(group: IssueGroupForTicket, submissions: seq<TicketOutput>)
    requires submissions != [] && SchemaValid(submissions[|submissions| - 1])
    ensures var r := RunClassifierAgent(group, Finished(submissions));
      r.Ok? && r.value.classification in Classifications && r.value.team in Teams
      && r.value.priority == submissions[|submissions| - 1].priority
  {
  }

  /** Without the schema, a value outside the enum reaches the drafted ticket unchanged. */
  lemma UncheckedClassification(group: IssueGroupForTicket)
    ensures var o := TicketOutput("Something Else", "Design Team", "Urgent", None, None, None);
      var r := RunClassifierAgent(group, Finished([o]));
      r.Ok? && r.value.classification !in Classifications && r.value.team !in Teams
      && r.value.priority in JiraPriorities
  {
  }
}
