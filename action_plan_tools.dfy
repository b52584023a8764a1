/**
 * The four query tools the action-plan agent gets over a digest
 * (src/lib/agents/seo-action-plan/tools.ts). The digest is closed over and read only, so every
 * tool is a function of the digest and its arguments; the JSON text a tool returns is modelled
 * by the value it serialises.
 */
module ActionPlanTools {
  import opened Wrappers
  import opened JsString
  import opened Seqs
  import opened Digest
  import opened Records

  // ── getIssuesByCategory ──────────────────────────────────────────────────

  /** `g.category.toLowerCase() === category.toLowerCase()`. */
  predicate SameCategory(g: IssueGroup, category: string) {
    Lower(g.category) == Lower(category)
  }

  /** `digest.issue_groups.filter(...)`, in digest order. */
  function GroupsInCategory(groups: seq<IssueGroup>, category: string): (r: seq<IssueGroup>)
    ensures |r| <= |groups|
    decreases |groups|
  {
    if groups == [] then []
    else
      var front := GroupsInCategory(groups[..|groups| - 1], category);
      if SameCategory(groups[|groups| - 1], category) then front + [groups[|groups| - 1]] else front
  }

  /** The filter keeps exactly the groups of the category, each as often as the digest has it. */
  lemma {:induction false} GroupsInCategorySpec(groups: seq<IssueGroup>, category: string)
    ensures forall g :: g in GroupsInCategory(groups, category) <==> g in groups && SameCategory(g, category)
    ensures forall g | SameCategory(g, category) ::
      multiset(GroupsInCategory(groups, category))[g] == multiset(groups)[g]
    ensures GroupsInCategory(groups, category) == [] <==>
      forall i | 0 <= i < |groups| :: !SameCategory(groups[i], category)
    decreases |groups|
  {
    if groups != [] {
      var front := groups[..|groups| - 1];
      GroupsInCategorySpec(front, category);
      assert groups == front + [groups[|groups| - 1]];
    }
  }

  /** The categories of the groups, in digest order. */
  function Categories(groups: seq<IssueGroup>): (r: seq<string>)
    ensures |r| == |groups| && forall i | 0 <= i < |groups| :: r[i] == groups[i].category
    decreases |groups|
  {
    if groups == [] then [] else Categories(groups[..|groups| - 1]) + [groups[|groups| - 1].category]
  }

  datatype CategoryAnswer = GroupList(groups: seq<IssueGroup>) | NoIssues(message: string)

  /** `getIssuesByCategory({ category })`. */
  function IssuesByCategory(digest: IssueDigest, category: string): CategoryAnswer {
    var groups := GroupsInCategory(digest.issueGroups, category);
    if |groups| == 0 then
      NoIssues("No issues found for category \"" + category + "\". Available categories: "
        + Join(Dedup(Categories(digest.issueGroups)), ", "))
    else GroupList(groups)
  }

  /**
   * With at least one group of the category (ignoring case), the answer is those groups in
   * digest order; otherwise it is the miss message over the distinct categories of the digest,
   * each named once, in first-seen order.
   */
  lemma IssuesByCategoryAnswer(digest: IssueDigest, category: string)
    ensures var r := IssuesByCategory(digest, category);
      && (r.GroupList? <==> exists i | 0 <= i < |digest.issueGroups| :: SameCategory(digest.issueGroups[i], category))
      && (r.GroupList? ==> forall g :: g in r.groups <==> g in digest.issueGroups && SameCategory(g, category))
      && (r.NoIssues? ==>
            var names := Dedup(Categories(digest.issueGroups));
            && r.message == "No issues found for category \"" + category + "\". Available categories: " + Join(names, ", ")
            && NoDup(names)
            && forall c :: c in names <==> exists i | 0 <= i < |digest.issueGroups| :: digest.issueGroups[i].category == c)
  {
    GroupsInCategorySpec(digest.issueGroups, category);
    var cats := Categories(digest.issueGroups);
    DedupSpec(cats);
    forall c ensures c in cats <==> exists i | 0 <= i < |digest.issueGroups| :: digest.issueGroups[i].category == c {
      if c in cats {
        var i := FirstIndex(cats, c);
        assert digest.issueGroups[i].category == c;
      }
    }
  }

  /** Case does not matter for the filter: the upper- and lower-case queries agree. */
  lemma CategoryCaseInsensitive(digest: IssueDigest, category: string)
    ensures IssuesByCategory(digest, Lower(category)).GroupList?
        <==> IssuesByCategory(digest, category).GroupList?
    ensures IssuesByCategory(digest, category).GroupList? ==>
      IssuesByCategory(digest, Lower(category)) == IssuesByCategory(digest, category)
  {
    LowerIdempotent(category);
    SameFilter(digest.issueGroups, category, Lower(category));
  }

  lemma LowerIdempotent(s: string)
    ensures Lower(Lower(s)) == Lower(s)
  {
  }

  /** Two queries with the same lower-case form select the same groups. */
  lemma {:induction false} SameFilter(groups: seq<IssueGroup>, a: string, b: string)
    requires Lower(a) == Lower(b)
    ensures GroupsInCategory(groups, a) == GroupsInCategory(groups, b)
    decreases |groups|
  {
    if groups != [] {
      SameFilter(groups[..|groups| - 1], a, b);
    }
  }

  // ── getTopIssues ─────────────────────────────────────────────────────────

  /** The `severity` enum: one of the four severities, or `'all'` for no filter. */
  datatype SeverityFilter = AllSeverities | OnlySeverity(severity: string)

  const Severities: seq<string> := ["critical", "high", "medium", "low"]

  /** The schema's check of `severity`; anything outside the enum is refused. */
  function ParseSeverity(s: string): (r: Option<SeverityFilter>)
    ensures s == "all" ==> r == Some(AllSeverities)
    ensures s in Severities ==> r == Some(OnlySeverity(s))
    ensures s != "all" && s !in Severities ==> r.None?
  {
    if s == "all" then Some(AllSeverities)
    else if s in Severities then Some(OnlySeverity(s))
    else None
  }

  const DefaultLimit: int := 10
  const MaxLimit: int := 50

  /** The schema's check of `limit`: an absent limit is 10, one outside 1..50 is refused. */
  function ParseLimit(limit: Option<int>): (r: Option<int>)
    ensures r.Some? ==> 1 <= r.value <= MaxLimit
    ensures limit.None? ==> r == Some(DefaultLimit)
    ensures limit.Some? ==> (r.Some? <==> 1 <= limit.value <= MaxLimit)
    ensures limit.Some? && r.Some? ==> r.value == limit.value
  {
    match limit
    case None => Some(DefaultLimit)
    case Some(n) => if 1 <= n <= MaxLimit then Some(n) else None
  }

  /** `groups.filter((g) => g.severity === severity)`. */
  function WithSeverity(groups: seq<IssueGroup>, severity: string): (r: seq<IssueGroup>)
    ensures |r| <= |groups|
    decreases |groups|
  {
    if groups == [] then []
    else
      var front := WithSeverity(groups[..|groups| - 1], severity);
      if groups[|groups| - 1].severity == severity then front + [groups[|groups| - 1]] else front
  }

  lemma {:induction false} WithSeveritySpec(groups: seq<IssueGroup>, severity: string)
    ensures forall g :: g in WithSeverity(groups, severity) <==> g in groups && g.severity == severity
    decreases |groups|
  {
    if groups != [] {
      WithSeveritySpec(groups[..|groups| - 1], severity);
      assert groups == groups[..|groups| - 1] + [groups[|groups| - 1]];
    }
  }

  /** The list before the cut: the whole digest for `'all'`, the severity's groups otherwise. */
  function Candidates(digest: IssueDigest, filter: SeverityFilter): seq<IssueGroup> {
    match filter
    case AllSeverities => digest.issueGroups
    case OnlySeverity(s) => WithSeverity(digest.issueGroups, s)
  }

  /** `groups.slice(0, limit)`. */
  function TopIssues(digest: IssueDigest, filter: SeverityFilter, limit: nat): (r: seq<IssueGroup>)
    ensures r <= Candidates(digest, filter)
    ensures |r| == if limit < |Candidates(digest, filter)| then limit else |Candidates(digest, filter)|
  {
    var groups := Candidates(digest, filter);
    if limit < |groups| then groups[..limit] else groups
  }

  /**
   * The answer is the leading part of the candidate list: at most `limit` groups, all of them of
   * the requested severity, in digest order, so with a count-sorted digest they are the most
   * frequent ones; the whole list when it is no longer than the limit.
   */
  lemma TopIssuesAnswer(digest: IssueDigest, filter: SeverityFilter, limit: nat)
    ensures |TopIssues(digest, filter, limit)| <= limit
    ensures filter.OnlySeverity? ==> forall g | g in TopIssues(digest, filter, limit) :: g.severity == filter.severity
    ensures filter.AllSeverities? ==> TopIssues(digest, filter, limit) <= digest.issueGroups
    ensures |Candidates(digest, filter)| <= limit ==> TopIssues(digest, filter, limit) == Candidates(digest, filter)
  {
    if filter.OnlySeverity? {
      WithSeveritySpec(digest.issueGroups, filter.severity);
      var r := TopIssues(digest, filter, limit);
      forall g | g in r ensures g.severity == filter.severity {
        var i := FirstIndex(r, g);
        assert g == Candidates(digest, filter)[i];
      }
    }
  }

  /** `getTopIssues` as the agent calls it: the arguments are checked by the schema first. */
  function TopIssuesCall(digest: IssueDigest, severity: string, limit: Option<int>): (r: Option<seq<IssueGroup>>)
    ensures r.Some? <==> ParseSeverity(severity).Some? && ParseLimit(limit).Some?
    ensures r.Some? ==> |r.value| <= MaxLimit
    ensures limit.None? && r.Some? ==> |r.value| <= DefaultLimit
  {
    match (ParseSeverity(severity), ParseLimit(limit))
    case (Some(filter), Some(n)) => Some(TopIssues(digest, filter, n))
    case _ => None
  }

  // ── getCategoryScore ─────────────────────────────────────────────────────

  datatype ScoreAnswer = Score(category: string, score: CategoryScore) | NoScore(message: string)

  /** `getCategoryScore({ category })`: the lower-cased name is looked up, the caller's spelling echoed. */
  function CategoryScoreOf(digest: IssueDigest, category: string): (r: ScoreAnswer)
    ensures r.Score? ==> r.category == category
  {
    match Lookup(digest.categoryScores, Lower(category))
    case Some(score) => Score(category, score)
    case None => NoScore("No score found for \"" + category + "\". Available: " + Join(Keys(digest.categoryScores), ", "))
  }

  /**
   * A hit is an entry of the record under the lower-cased name, answered with the name as the
   * caller spelled it; a miss happens exactly when no key equals the lower-cased name and lists
   * every key of the record.
   */
  lemma CategoryScoreAnswer(digest: IssueDigest, category: string)
    ensures var r := CategoryScoreOf(digest, category);
      && (r.NoScore? <==> forall i | 0 <= i < |digest.categoryScores| :: digest.categoryScores[i].0 != Lower(category))
      && (r.Score? ==>
            && r.category == category
            && exists i | 0 <= i < |digest.categoryScores| :: digest.categoryScores[i] == (Lower(category), r.score))
      && (r.NoScore? ==>
            r.message == "No score found for \"" + category + "\". Available: " + Join(Keys(digest.categoryScores), ", "))
  {
  }

  /** A name with upper-case letters is only found under its lower-case key. */
  lemma CategoryScoreCase(digest: IssueDigest, category: string)
    ensures CategoryScoreOf(digest, category).Score? <==> CategoryScoreOf(digest, Lower(category)).Score?
  {
    LowerIdempotent(category);
  }

  // ── getPageSpeedSummary ──────────────────────────────────────────────────

  /** `getPageSpeedSummary()`: the digest's summary, which the preprocessor defaults to zero URLs. */
  function PageSpeedSummaryOf(digest: IssueDigest): PageSpeedSummary {
    digest.pagespeedSummary
  }

  /** Through a digest built from an audit without a summary, the tool reports zero URLs analysed. */
  lemma PageSpeedDefault(raw: ActionPlanAudit)
    ensures raw.pagespeedSummary.None? ==> PageSpeedSummaryOf(DigestOf(raw)) == PageSpeedSummary(0, None, None)
    ensures raw.pagespeedSummary.Some? ==> PageSpeedSummaryOf(DigestOf(raw)) == raw.pagespeedSummary.value
  {
  }
}
