/**
 * `buildIssueDigest` (src/lib/agents/seo-action-plan/preprocessor.ts): the raw audit JSON of one
 * domain condensed for the action-plan agent. Issues are counted per
 * `issue_type|||severity|||category` key with at most three sample URLs each, the groups are
 * sorted by count, largest first, and the summary fields are copied over.
 */
module Digest {
  import opened Wrappers
  import opened JsString
  import opened TicketTypes
  import opened Seqs
  import opened IssueIndex
  import opened StableSort
  import opened Records

  datatype CategoryScore = CategoryScore(score: int, issueCount: int, status: string)

  /** A record of category scores as its `Object.entries`, in insertion order. */
  type ScoreEntries = seq<(string, CategoryScore)>

  /** The Core Web Vitals averages of one device class; they are only copied. */
  datatype Vitals = Vitals(
    avgLcpMs: Option<real>, avgCls: Option<real>, avgInpMs: Option<real>,
    poorLcpCount: Option<int>, poorClsCount: Option<int>, poorInpCount: Option<int>)

  datatype PageSpeedSummary = PageSpeedSummary(
    urlsAnalyzed: int, mobileResults: Option<Vitals>, desktopResults: Option<Vitals>)

  datatype PriorityIssue = PriorityIssue(
    issueType: string, url: string, severity: string, category: string,
    description: string, recommendation: string)

  /** The raw audit JSON as the preprocessor reads it. */
  datatype ActionPlanAudit = ActionPlanAudit(
    domain: string,
    auditDate: string,
    healthScore: int,
    issueSummary: RawIssueSummary,
    categoryScores: ScoreEntries,
    priorityIssues: Option<seq<PriorityIssue>>,
    pagespeedSummary: Option<PageSpeedSummary>,
    urls: Option<UrlEntries>)

  datatype IssueGroup = IssueGroup(
    issueType: string, severity: string, category: string, count: nat, sampleUrls: seq<string>)

  datatype IssueDigest = IssueDigest(
    domain: string,
    auditDate: string,
    healthScore: int,
    issueSummary: RawIssueSummary,
    categoryScores: ScoreEntries,
    issueGroups: seq<IssueGroup>,
    priorityIssues: seq<PriorityIssue>,
    pagespeedSummary: PageSpeedSummary)

  /** `SAMPLE_LIMIT`. */
  const SampleLimit: nat := 3

  /** The sample URLs a group keeps: the first `SAMPLE_LIMIT` of its members' URLs. */
  function Samples(urls: seq<string>): (r: seq<string>)
    ensures |r| == if |urls| < SampleLimit then |urls| else SampleLimit
  {
    if |urls| < SampleLimit then urls else urls[..SampleLimit]
  }

  /** `if (existing.sample_urls.length < SAMPLE_LIMIT) existing.sample_urls.push(url)`. */
  lemma SamplesStep(urls: seq<string>, u: string)
    ensures Samples(urls + [u])
         == if |Samples(urls)| < SampleLimit then Samples(urls) + [u] else Samples(urls)
  {
    if |urls| >= SampleLimit {
      assert (urls + [u])[..SampleLimit] == urls[..SampleLimit];
    }
  }

  /** The samples in the order the loop collects them: a URL is kept while fewer than three are. */
  function SamplesOf(ms: seq<Sighting>): seq<string>
    decreases |ms|
  {
    if ms == [] then []
    else
      var s := SamplesOf(ms[..|ms| - 1]);
      if |s| < SampleLimit then s + [ms[|ms| - 1].url] else s
  }

  /** The collected samples are the first three member URLs. */
  lemma {:induction false} SamplesOfFirst(ms: seq<Sighting>)
    ensures SamplesOf(ms) == Samples(Urls(ms))
    decreases |ms|
  {
    if ms != [] {
      var front := ms[..|ms| - 1];
      SamplesOfFirst(front);
      assert Urls(ms) == Urls(front) + [ms[|ms| - 1].url];
      SamplesStep(Urls(front), ms[|ms| - 1].url);
    }
  }

  lemma SamplesOfStep(ms: seq<Sighting>, p: Sighting)
    ensures SamplesOf(ms + [p]) == if |SamplesOf(ms)| < SampleLimit then SamplesOf(ms) + [p.url] else SamplesOf(ms)
  {
    assert (ms + [p])[..|ms|] == ms;
  }

  /** What the group map holds per key. */
  datatype Entry = Entry(count: nat, severity: string, category: string, sampleUrls: seq<string>)

  /** The entry a key's members leave: their number, the first one's severity and category, the samples. */
  function EntryOf(ms: seq<Sighting>): Entry
    requires ms != []
  {
    Entry(|ms|, ms[0].issue.severity, ms[0].issue.category, SamplesOf(ms))
  }

  /** The audit flattened in loop order. */
  function AuditSightings(raw: ActionPlanAudit): seq<Sighting> {
    UrlSightings(raw.domain, EntriesOf(raw.urls))
  }

  /** The loop invariant: the map and its key order are what the sightings so far determine. */
  ghost predicate MapMatches(ps: seq<Sighting>, order: seq<string>, m: map<string, Entry>) {
    && order == KeysInOrder(ps)
    && (forall k :: k in m <==> k in order)
    && EntriesMatch(ps, m)
  }

  /** Every key of the map holds the entry its members determine. */
  ghost predicate EntriesMatch(ps: seq<Sighting>, m: map<string, Entry>) {
    forall k | k in m :: MembersOf(ps, k) != [] && m[k] == EntryOf(MembersOf(ps, k))
  }

  /** The key order after one more sighting. */
  lemma OrderStep(ps: seq<Sighting>, order: seq<string>, p: Sighting)
    requires order == KeysInOrder(ps)
    ensures KeysInOrder(ps + [p]) == if KeyOf(p) in order then order else order + [KeyOf(p)]
  {
    SightingStep(ps, p);
  }

  /** `existing.count++` and the capped `existing.sample_urls.push(url)`. */
  function Bump(e: Entry, url: string): Entry {
    e.(count := e.count + 1,
       sampleUrls := if |e.sampleUrls| < SampleLimit then e.sampleUrls + [url] else e.sampleUrls)
  }

  /** The `existing` branch keeps the invariant. */
  lemma BumpKeeps(ps: seq<Sighting>, order: seq<string>, m: map<string, Entry>, p: Sighting)
    requires MapMatches(ps, order, m) && KeyOf(p) in m
    ensures MapMatches(ps + [p], order, m[KeyOf(p) := Bump(m[KeyOf(p)], p.url)])
  {
    OrderStep(ps, order, p);
    BumpEntries(ps, m, p);
  }

  lemma BumpEntries(ps: seq<Sighting>, m: map<string, Entry>, p: Sighting)
    requires EntriesMatch(ps, m) && KeyOf(p) in m
    ensures EntriesMatch(ps + [p], m[KeyOf(p) := Bump(m[KeyOf(p)], p.url)])
  {
    var key := KeyOf(p);
    var m' := m[key := Bump(m[key], p.url)];
    var ms := MembersOf(ps, key);
    SightingStep(ps, p);
    forall k | k in m'
      ensures MembersOf(ps + [p], k) != [] && m'[k] == EntryOf(MembersOf(ps + [p], k))
    {
      if k == key {
        assert MembersOf(ps + [p], k) == ms + [p];
        SamplesOfStep(ms, p);
      } else {
        assert MembersOf(ps + [p], k) == MembersOf(ps, k);
      }
    }
  }

  /** The `groupMap.set(key, { count: 1, ... })` branch keeps the invariant. */
  lemma CreateKeeps(ps: seq<Sighting>, order: seq<string>, m: map<string, Entry>, p: Sighting)
    requires MapMatches(ps, order, m) && KeyOf(p) !in m
    ensures MapMatches(ps + [p], order + [KeyOf(p)],
      m[KeyOf(p) := Entry(1, p.issue.severity, p.issue.category, [p.url])])
  {
    OrderStep(ps, order, p);
    KeysInOrderSpec(ps, KeyOf(p));
    CreateEntries(ps, m, p);
  }

  lemma CreateEntries(ps: seq<Sighting>, m: map<string, Entry>, p: Sighting)
    requires EntriesMatch(ps, m) && KeyOf(p) !in m && MembersOf(ps, KeyOf(p)) == []
    ensures EntriesMatch(ps + [p], m[KeyOf(p) := Entry(1, p.issue.severity, p.issue.category, [p.url])])
  {
    var key := KeyOf(p);
    var m' := m[key := Entry(1, p.issue.severity, p.issue.category, [p.url])];
    SightingStep(ps, p);
    forall k | k in m'
      ensures MembersOf(ps + [p], k) != [] && m'[k] == EntryOf(MembersOf(ps + [p], k))
    {
      if k == key {
        assert MembersOf(ps + [p], k) == [p];
        assert SamplesOf([p]) == [p.url];
      } else {
        assert MembersOf(ps + [p], k) == MembersOf(ps, k);
      }
    }
  }

  lemma KeysHaveMembers(ps: seq<Sighting>)
    ensures forall k | k in KeysInOrder(ps) :: MembersOf(ps, k) != [] && |Split(k, "|||")| >= 3
  {
    forall k | k in KeysInOrder(ps) ensures MembersOf(ps, k) != [] && |Split(k, "|||")| >= 3 {
      KeysInOrderSpec(ps, k);
      KeyHasThree(ps, k);
    }
  }

  /** The group map after every sighting. */
  function Accumulated(ps: seq<Sighting>): map<string, Entry> {
    KeysHaveMembers(ps);
    map k | k in KeysInOrder(ps) :: EntryOf(MembersOf(ps, k))
  }

  lemma MatchesAccumulated(ps: seq<Sighting>, order: seq<string>, m: map<string, Entry>)
    requires MapMatches(ps, order, m)
    ensures order == KeysInOrder(ps) && m == Accumulated(ps)
    ensures forall k | k in order :: k in m
  {
    KeysHaveMembers(ps);
  }

  /** One map entry as an output group: `const [issue_type] = key.split('|||')`. */
  function ToGroup(key: string, e: Entry): IssueGroup {
    IssueGroup(Split(key, "|||")[0], e.severity, e.category, e.count, e.sampleUrls)
  }

  /** `Array.from(groupMap.entries()).map(...)`, in map insertion order. */
  function ToGroups(order: seq<string>, m: map<string, Entry>): (r: seq<IssueGroup>)
    requires forall k | k in order :: k in m
    ensures |r| == |order|
    ensures forall i | 0 <= i < |order| :: r[i] == ToGroup(order[i], m[order[i]])
    decreases |order|
  {
    if order == [] then []
    else
      var k := order[|order| - 1];
      ToGroups(order[..|order| - 1], m) + [ToGroup(k, m[k])]
  }

  /** `.sort((a, b) => b.count - a.count)`: count descending, ties in map order. */
  function CountOrder(g: IssueGroup): SortKey {
    SortKey(-(g.count as int), 0)
  }

  /** The group of key `k`: the output group built from its members. */
  function GroupOfKey(ps: seq<Sighting>, k: string): IssueGroup
    requires k in KeysInOrder(ps)
  {
    KeysHaveMembers(ps);
    ToGroup(k, EntryOf(MembersOf(ps, k)))
  }

  /** A key's group counts its members and samples their first URLs. */
  lemma GroupOfKeyShape(ps: seq<Sighting>, k: string)
    requires k in KeysInOrder(ps)
    ensures MembersOf(ps, k) != []
    ensures var g := GroupOfKey(ps, k);
      && g.count == |MembersOf(ps, k)| >= 1
      && g.sampleUrls == Samples(Urls(MembersOf(ps, k)))
      && g.severity == MembersOf(ps, k)[0].issue.severity
      && g.category == MembersOf(ps, k)[0].issue.category
  {
    KeysHaveMembers(ps);
    SamplesOfFirst(MembersOf(ps, k));
  }

  /** The grouped issues before sorting. */
  function UnsortedGroups(ps: seq<Sighting>): seq<IssueGroup> {
    KeysHaveMembers(ps);
    ToGroups(KeysInOrder(ps), Accumulated(ps))
  }

  /** `issue_groups` of the digest. */
  function DigestGroups(raw: ActionPlanAudit): seq<IssueGroup> {
    Sort(UnsortedGroups(AuditSightings(raw)), CountOrder)
  }

  // ── category_scores ──────────────────────────────────────────────────────

  /** The loop `for (const [cat, val] of Object.entries(raw.category_scores)) category_scores[cat] = {...}`. */
  method CopyScores(es: ScoreEntries) returns (r: ScoreEntries)
    ensures r == Assigned(es)
  {
    r := [];
    var i := 0;
    while i < |es|
      invariant 0 <= i <= |es|
      invariant r == Assigned(es[..i])
    {
      var cat := es[i].0;
      var val := es[i].1;
      assert es[..i + 1][..i] == es[..i];
      r := Assign(r, cat, CategoryScore(val.score, val.issueCount, val.status));
      i := i + 1;
    }
    assert es[..i] == es;
  }

  // ── buildIssueDigest ─────────────────────────────────────────────────────

  /** `raw.pagespeed_summary ?? { urls_analyzed: 0 }`. */
  const EmptyPageSpeed: PageSpeedSummary := PageSpeedSummary(0, None, None)

  /** The digest of an audit. */
  function DigestOf(raw: ActionPlanAudit): IssueDigest {
    IssueDigest(
      raw.domain, raw.auditDate, raw.healthScore,
      raw.issueSummary,
      Assigned(raw.categoryScores),
      DigestGroups(raw),
      raw.priorityIssues.GetOr([]),
      raw.pagespeedSummary.GetOr(EmptyPageSpeed))
  }

  /** The inner loop: the issues of one URL entry, in array order. */
  method AddUrlIssues(domain: string, url: string, issues: seq<RawUrlIssue>,
                      order: seq<string>, groupMap: map<string, Entry>, ghost seen: seq<Sighting>)
    returns (order': seq<string>, groupMap': map<string, Entry>)
    requires MapMatches(seen, order, groupMap)
    ensures MapMatches(seen + EntrySightings(domain, url, issues), order', groupMap')
  {
    order', groupMap' := order, groupMap;
    ghost var done := seen;
    var j := 0;
    while j < |issues|
      invariant 0 <= j <= |issues|
      invariant done == seen + EntrySightings(domain, url, issues[..j])
      invariant MapMatches(done, order', groupMap')
    {
      var issue := issues[j];
      var key := FieldsKey(issue.issueType, issue.severity, issue.category);
      ghost var p := Sighting(domain, url, issue);
      EntrySightingsStep(seen, domain, url, issues, j);
      if key in groupMap' {
        var existing := groupMap'[key];
        BumpKeeps(done, order', groupMap', p);
        groupMap' := groupMap'[key := Bump(existing, url)];
      } else {
        CreateKeeps(done, order', groupMap', p);
        order' := order' + [key];
        groupMap' := groupMap'[key := Entry(1, issue.severity, issue.category, [url])];
      }
      done := done + [p];
      j := j + 1;
    }
    assert issues[..j] == issues;
  }

  /** `buildIssueDigest(raw)`. */
  method BuildIssueDigest(raw: ActionPlanAudit) returns (d: IssueDigest)
    ensures d == DigestOf(raw)
  {
    var entries := EntriesOf(raw.urls);
    var order: seq<string> := [];
    var groupMap: map<string, Entry> := map[];
    ghost var seen: seq<Sighting> := [];
    var i := 0;
    while i < |entries|
      invariant 0 <= i <= |entries|
      invariant seen == UrlSightings(raw.domain, entries[..i])
      invariant MapMatches(seen, order, groupMap)
    {
      var url := entries[i].0;
      var entry := entries[i].1;
      UrlSightingsStep([], raw.domain, entries, i);
      if entry.issues.Some? {
        order, groupMap := AddUrlIssues(raw.domain, url, entry.issues.value, order, groupMap, seen);
        seen := seen + EntrySightings(raw.domain, url, entry.issues.value);
      } else {
        assert seen + EntrySightings(raw.domain, url, IssuesOf(entry)) == seen;
      }
      i := i + 1;
    }
    assert entries[..i] == entries;
    MatchesAccumulated(seen, order, groupMap);
    var groups := Sort(ToGroups(order, groupMap), CountOrder);
    var summary := RawIssueSummary(
      raw.issueSummary.totalIssues, raw.issueSummary.criticalCount, raw.issueSummary.highCount,
      raw.issueSummary.mediumCount, raw.issueSummary.lowCount);
    var scores := CopyScores(raw.categoryScores);
    d := IssueDigest(
      raw.domain, raw.auditDate, raw.healthScore, summary, scores, groups,
      raw.priorityIssues.GetOr([]), raw.pagespeedSummary.GetOr(EmptyPageSpeed));
  }

  // ── Properties ───────────────────────────────────────────────────────────

  /** The summary fields are copied: the issue summary, every category score, and the two defaults. */
  lemma DigestCopiesSummary(raw: ActionPlanAudit)
    requires DistinctKeys(raw.categoryScores)
    ensures var d := DigestOf(raw);
      && d.domain == raw.domain && d.auditDate == raw.auditDate && d.healthScore == raw.healthScore
      && d.issueSummary == raw.issueSummary
      && d.categoryScores == raw.categoryScores
      && (raw.priorityIssues.None? ==> d.priorityIssues == [])
      && (raw.priorityIssues.Some? ==> d.priorityIssues == raw.priorityIssues.value)
      && (raw.pagespeedSummary.None? ==> d.pagespeedSummary == PageSpeedSummary(0, None, None))
      && (raw.pagespeedSummary.Some? ==> d.pagespeedSummary == raw.pagespeedSummary.value)
  {
    AssignedDistinct(raw.categoryScores);
  }

  /** Before sorting, the list holds exactly the groups of the keys. */
  lemma UnsortedMembership(ps: seq<Sighting>, g: IssueGroup)
    ensures g in UnsortedGroups(ps) <==> exists k | k in KeysInOrder(ps) :: g == GroupOfKey(ps, k)
  {
    var order := KeysInOrder(ps);
    var pre := UnsortedGroups(ps);
    KeysHaveMembers(ps);
    if g in pre {
      var i := FirstIndex(pre, g);
      assert g == GroupOfKey(ps, order[i]);
    }
    if exists k | k in order :: g == GroupOfKey(ps, k) {
      var k :| k in order && g == GroupOfKey(ps, k);
      var i := FirstIndex(order, k);
      assert pre[i] == g;
    }
  }

  /** The digest holds exactly one group per key: the group of that key's members. */
  lemma DigestGroupsAreKeyGroups(raw: ActionPlanAudit)
    ensures var ps := AuditSightings(raw);
      && |DigestGroups(raw)| == |KeysInOrder(ps)|
      && forall g :: g in DigestGroups(raw) <==> exists k | k in KeysInOrder(ps) :: g == GroupOfKey(ps, k)
  {
    var ps := AuditSightings(raw);
    var pre := UnsortedGroups(ps);
    var r := DigestGroups(raw);
    assert multiset(r) == multiset(pre);
    forall g ensures g in r <==> exists k | k in KeysInOrder(ps) :: g == GroupOfKey(ps, k) {
      assert g in r <==> g in multiset(r);
      assert g in pre <==> g in multiset(pre);
      UnsortedMembership(ps, g);
    }
  }

  /**
   * Every group counts at least one issue and keeps min(count, 3) sample URLs, which are the
   * first URLs of its members in encounter order; the groups are in non-increasing count order.
   */
  lemma DigestGroupsShape(raw: ActionPlanAudit)
    ensures forall g | g in DigestGroups(raw) ::
      && g.count >= 1
      && |g.sampleUrls| == (if g.count < SampleLimit then g.count else SampleLimit)
    ensures forall i, j | 0 <= i < j < |DigestGroups(raw)| ::
      DigestGroups(raw)[i].count >= DigestGroups(raw)[j].count
  {
    var ps := AuditSightings(raw);
    KeysHaveMembers(ps);
    DigestGroupsAreKeyGroups(raw);
    forall g | g in DigestGroups(raw)
      ensures g.count >= 1 && |g.sampleUrls| == (if g.count < SampleLimit then g.count else SampleLimit)
    {
      var k :| k in KeysInOrder(ps) && g == GroupOfKey(ps, k);
      GroupOfKeyShape(ps, k);
    }
    SortSorted(UnsortedGroups(ps), CountOrder);
    var r := DigestGroups(raw);
    forall i, j | 0 <= i < j < |r| ensures r[i].count >= r[j].count {
      assert KeyLe(CountOrder(r[i]), CountOrder(r[j]));
    }
  }

  lemma {:induction false} ToGroupsCounts(ps: seq<Sighting>, order: seq<string>)
    requires forall k | k in order :: k in KeysInOrder(ps)
    ensures SumOf(ToGroups(order, Accumulated(ps)), (g: IssueGroup) => g.count as int) == GroupSizes(ps, order)
    decreases |order|
  {
    KeysHaveMembers(ps);
    if order != [] {
      var front := order[..|order| - 1];
      var k := order[|order| - 1];
      var m := Accumulated(ps);
      ToGroupsCounts(ps, front);
      assert ToGroups(order, m) == ToGroups(front, m) + [ToGroup(k, m[k])];
      SumOfConcat(ToGroups(front, m), [ToGroup(k, m[k])], (g: IssueGroup) => g.count as int);
    }
  }

  /** The counts add up to the number of issues over all URL entries; entries without issues add nothing. */
  lemma DigestGroupsTotal(raw: ActionPlanAudit)
    ensures SumOf(DigestGroups(raw), (g: IssueGroup) => g.count as int) == TotalIssues(EntriesOf(raw.urls))
  {
    var ps := AuditSightings(raw);
    SortSum(UnsortedGroups(ps), CountOrder, (g: IssueGroup) => g.count as int);
    ToGroupsCounts(ps, KeysInOrder(ps));
    GroupSizesTotal(ps);
    UrlSightingsCount(raw.domain, EntriesOf(raw.urls));
  }

  /** With bar-free fields, a key's group carries the key's fields and gathers exactly the sightings with them. */
  lemma KeyGroupFields(ps: seq<Sighting>, k: string)
    requires forall q | q in ps :: BarFree(q)
    requires k in KeysInOrder(ps)
    ensures var g := GroupOfKey(ps, k);
      && k == FieldsKey(g.issueType, g.severity, g.category)
      && WithFields(ps, g.issueType, g.severity, g.category) == MembersOf(ps, k)
  {
    KeysHaveMembers(ps);
    MembersOfSpec(ps, k);
    var m := MembersOf(ps, k)[0];
    assert m in MembersOf(ps, k);
    SplitKeyExact(m.issue.issueType, m.issue.severity, m.issue.category);
    MembersAreFieldMatches(ps, m.issue.issueType, m.issue.severity, m.issue.category);
  }

  /** One key's group, read through its fields. */
  lemma KeyGroupByFields(ps: seq<Sighting>, k: string)
    requires forall q | q in ps :: BarFree(q)
    requires k in KeysInOrder(ps)
    ensures var g := GroupOfKey(ps, k);
      var ms := WithFields(ps, g.issueType, g.severity, g.category);
      ms != [] && g.count == |ms| && g.sampleUrls == Samples(Urls(ms)) && g.issueType == ms[0].issue.issueType
  {
    GroupOfKeyShape(ps, k);
    KeyGroupFields(ps, k);
    var ms := MembersOf(ps, k);
    MembersOfSpec(ps, k);
    assert ms[0] in ms;
    SplitKeyExact(ms[0].issue.issueType, ms[0].issue.severity, ms[0].issue.category);
  }

  /**
   * When no issue_type, severity or category contains a bar, every group counts precisely the
   * sightings with its three fields, its samples are their first URLs, and its issue_type is the
   * first field of the key.
   */
  lemma DigestGroupsByFields(raw: ActionPlanAudit)
    requires forall q | q in AuditSightings(raw) :: BarFree(q)
    ensures forall g | g in DigestGroups(raw) ::
      var ms := WithFields(AuditSightings(raw), g.issueType, g.severity, g.category);
      && ms != []
      && g.count == |ms|
      && g.sampleUrls == Samples(Urls(ms))
      && g.issueType == ms[0].issue.issueType
  {
    var ps := AuditSightings(raw);
    DigestGroupsAreKeyGroups(raw);
    forall g | g in DigestGroups(raw)
      ensures var ms := WithFields(ps, g.issueType, g.severity, g.category);
        ms != [] && g.count == |ms| && g.sampleUrls == Samples(Urls(ms)) && g.issueType == ms[0].issue.issueType
    {
      var k :| k in KeysInOrder(ps) && g == GroupOfKey(ps, k);
      KeyGroupByFields(ps, k);
    }
  }
}
