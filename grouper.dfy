/**
 * `groupIssuesForTickets` (src/lib/agents/ticket-creation/grouper.ts): one domain's URL issues
 * grouped per `issue_type|||severity|||category` key, with every affected URL and the first
 * example, sorted by severity rank and then by count, largest first.
 */
module Grouper {
  import opened Wrappers
  import opened JsString
  import opened TicketTypes
  import opened Seqs
  import opened IssueIndex
  import opened StableSort

  /** `SEVERITY_ORDER[severity] ?? 9`. */
  function SeverityRank(severity: string): (r: int)
    ensures 0 <= r <= 3 <==> severity in ["critical", "high", "medium", "low"]
    ensures r == 9 <==> severity !in ["critical", "high", "medium", "low"]
  {
    if severity == "critical" then 0
    else if severity == "high" then 1
    else if severity == "medium" then 2
    else if severity == "low" then 3
    else 9
  }

  /** The comparator of the final sort: severity rank ascending, then count descending. */
  function GroupOrder(g: IssueGroupForTicket): SortKey {
    SortKey(SeverityRank(g.severity), -g.count)
  }

  /** What the group map holds per key. */
  datatype Acc = Acc(allUrls: seq<string>, exampleIssue: ExampleIssue)

  /** The entry a key's members leave in the map: every member's URL and the first member's example. */
  function AccOf(ms: seq<Sighting>): Acc
    requires ms != []
  {
    Acc(Urls(ms), ExampleOf(ms[0].url, ms[0].issue))
  }

  /** The one-domain audit flattened in loop order. */
  function Sightings(raw: RawAuditJson): seq<Sighting> {
    UrlSightings(raw.domain, EntriesOf(raw.urls))
  }

  /** The map entry for `key` as an output group: `const [issue_type, severity, category] = key.split('|||')`. */
  function ToGroup(key: string, allUrls: seq<string>, domains: seq<string>, example: ExampleIssue): IssueGroupForTicket
    requires |Split(key, "|||")| >= 3
  {
    var parts := Split(key, "|||");
    IssueGroupForTicket(parts[0], parts[1], parts[2], |allUrls|, allUrls, domains, example)
  }

  /** `Array.from(groupMap.entries()).map(...)`, in map insertion order. */
  function ToGroups(order: seq<string>, m: map<string, Acc>, domain: string): (r: seq<IssueGroupForTicket>)
    requires forall k | k in order :: k in m && |Split(k, "|||")| >= 3
    ensures |r| == |order|
    ensures forall i | 0 <= i < |order| :: r[i] == ToGroup(order[i], m[order[i]].allUrls, [domain], m[order[i]].exampleIssue)
    decreases |order|
  {
    if order == [] then []
    else
      var k := order[|order| - 1];
      ToGroups(order[..|order| - 1], m, domain) + [ToGroup(k, m[k].allUrls, [domain], m[k].exampleIssue)]
  }

  lemma KeysHaveMembers(ps: seq<Sighting>)
    ensures forall k | k in KeysInOrder(ps) :: MembersOf(ps, k) != [] && |Split(k, "|||")| >= 3
  {
    forall k | k in KeysInOrder(ps) ensures MembersOf(ps, k) != [] && |Split(k, "|||")| >= 3 {
      KeysInOrderSpec(ps, k);
      KeyHasThree(ps, k);
    }
  }

  /** The group map after every sighting, stated per key through the key's members. */
  function Accumulated(ps: seq<Sighting>): map<string, Acc> {
    KeysHaveMembers(ps);
    map k | k in KeysInOrder(ps) :: AccOf(MembersOf(ps, k))
  }

  /** The converted groups of the keys in `order`, before sorting. */
  function GroupsOf(ps: seq<Sighting>, order: seq<string>, domain: string): seq<IssueGroupForTicket>
    requires forall k | k in order :: k in KeysInOrder(ps)
  {
    KeysHaveMembers(ps);
    ToGroups(order, Accumulated(ps), domain)
  }

  /** The groups `groupIssuesForTickets(raw)` returns. */
  function TicketGroups(raw: RawAuditJson): seq<IssueGroupForTicket> {
    var ps := Sightings(raw);
    Sort(GroupsOf(ps, KeysInOrder(ps), raw.domain), GroupOrder)
  }

  /** The loop invariant: the map and its key order are what the sightings so far determine. */
  ghost predicate MapMatches(ps: seq<Sighting>, order: seq<string>, m: map<string, Acc>) {
    && order == KeysInOrder(ps)
    && (forall k :: k in m <==> k in order)
    && EntriesMatch(ps, m)
  }

  /** Every key of the map holds the entry its members determine. */
  ghost predicate EntriesMatch(ps: seq<Sighting>, m: map<string, Acc>) {
    forall k | k in m :: MembersOf(ps, k) != [] && m[k] == AccOf(MembersOf(ps, k))
  }

  /** `existing.allUrls.push(url)` keeps the invariant. */
  lemma PushKeeps(ps: seq<Sighting>, order: seq<string>, m: map<string, Acc>, p: Sighting)
    requires MapMatches(ps, order, m) && KeyOf(p) in m
    ensures MapMatches(ps + [p], order, m[KeyOf(p) := m[KeyOf(p)].(allUrls := m[KeyOf(p)].allUrls + [p.url])])
  {
    SightingStep(ps, p);
    PushEntries(ps, m, p);
  }

  lemma PushEntries(ps: seq<Sighting>, m: map<string, Acc>, p: Sighting)
    requires EntriesMatch(ps, m) && KeyOf(p) in m
    ensures EntriesMatch(ps + [p], m[KeyOf(p) := m[KeyOf(p)].(allUrls := m[KeyOf(p)].allUrls + [p.url])])
  {
    var key := KeyOf(p);
    var m' := m[key := m[key].(allUrls := m[key].allUrls + [p.url])];
    SightingStep(ps, p);
    forall k | k in m' ensures MembersOf(ps + [p], k) != [] && m'[k] == AccOf(MembersOf(ps + [p], k)) {
      if k == key {
        var ms := MembersOf(ps, k);
        MemberStep(ms, p);
        assert MembersOf(ps + [p], k) == ms + [p];
      } else {
        assert MembersOf(ps + [p], k) == MembersOf(ps, k);
      }
    }
  }

  /** `groupMap.set(key, { allUrls: [url], exampleIssue: ... })` keeps the invariant. */
  lemma CreateKeeps(ps: seq<Sighting>, order: seq<string>, m: map<string, Acc>, p: Sighting)
    requires MapMatches(ps, order, m) && KeyOf(p) !in m
    ensures MapMatches(ps + [p], order + [KeyOf(p)], m[KeyOf(p) := Acc([p.url], ExampleOf(p.url, p.issue))])
  {
    SightingStep(ps, p);
    KeysInOrderSpec(ps, KeyOf(p));
    CreateEntries(ps, m, p);
  }

  lemma CreateEntries(ps: seq<Sighting>, m: map<string, Acc>, p: Sighting)
    requires EntriesMatch(ps, m) && KeyOf(p) !in m && MembersOf(ps, KeyOf(p)) == []
    ensures EntriesMatch(ps + [p], m[KeyOf(p) := Acc([p.url], ExampleOf(p.url, p.issue))])
  {
    var key := KeyOf(p);
    var m' := m[key := Acc([p.url], ExampleOf(p.url, p.issue))];
    SightingStep(ps, p);
    forall k | k in m' ensures MembersOf(ps + [p], k) != [] && m'[k] == AccOf(MembersOf(ps + [p], k)) {
      if k == key {
        assert MembersOf(ps + [p], k) == [p];
        assert Urls([p]) == [p.url];
      } else {
        assert MembersOf(ps + [p], k) == MembersOf(ps, k);
      }
    }
  }

  /** Once every sighting is processed, the map is the accumulated map. */
  lemma MatchesAccumulated(ps: seq<Sighting>, order: seq<string>, m: map<string, Acc>)
    requires MapMatches(ps, order, m)
    ensures order == KeysInOrder(ps) && m == Accumulated(ps)
    ensures forall k | k in order :: k in m && |Split(k, "|||")| >= 3
  {
    KeysHaveMembers(ps);
  }

  /** The inner loop of `groupIssuesForTickets`: the issues of one URL entry, in array order. */
  method AddUrlIssues(domain: string, url: string, issues: seq<RawUrlIssue>,
                      order: seq<string>, groupMap: map<string, Acc>, ghost seen: seq<Sighting>)
    returns (order': seq<string>, groupMap': map<string, Acc>)
    requires MapMatches(seen, order, groupMap)
    ensures MapMatches(seen + EntrySightings(domain, url, issues), order', groupMap')
  {
    order', groupMap' := order, groupMap;
    ghost var done := seen;
    var j := 0;
    while j < |issues|
      invariant 0 <= j <= |issues|
      invariant done == seen + EntrySightings(domain, url, issues[..j])
      invariant MapMatches(done, order', groupMap')
    {
      var issue := issues[j];
      var key := FieldsKey(issue.issueType, issue.severity, issue.category);
      ghost var p := Sighting(domain, url, issue);
      EntrySightingsStep(seen, domain, url, issues, j);
      if key in groupMap' {
        var existing := groupMap'[key];
        PushKeeps(done, order', groupMap', p);
        groupMap' := groupMap'[key := existing.(allUrls := existing.allUrls + [url])];
      } else {
        CreateKeeps(done, order', groupMap', p);
        order' := order' + [key];
        groupMap' := groupMap'[key := Acc([url], ExampleOf(url, issue))];
      }
      done := done + [p];
      j := j + 1;
    }
    assert issues[..j] == issues;
  }

  /** `groupIssuesForTickets`: the loop over `Object.entries(urls)`, then the conversion and the sort. */
  method GroupIssuesForTickets(raw: RawAuditJson) returns (groups: seq<IssueGroupForTicket>)
    ensures groups == TicketGroups(raw)
  {
    var entries := EntriesOf(raw.urls);
    var order: seq<string> := [];
    var groupMap: map<string, Acc> := map[];
    ghost var seen: seq<Sighting> := [];
    var i := 0;
    while i < |entries|
      invariant 0 <= i <= |entries|
      invariant seen == UrlSightings(raw.domain, entries[..i])
      invariant MapMatches(seen, order, groupMap)
    {
      var url := entries[i].0;
      var entry := entries[i].1;
      UrlSightingsStep([], raw.domain, entries, i);
      if entry.issues.Some? {
        order, groupMap := AddUrlIssues(raw.domain, url, entry.issues.value, order, groupMap, seen);
        seen := seen + EntrySightings(raw.domain, url, entry.issues.value);
      } else {
        assert seen + EntrySightings(raw.domain, url, IssuesOf(entry)) == seen;
      }
      i := i + 1;
    }
    assert entries[..i] == entries;
    MatchesAccumulated(seen, order, groupMap);
    groups := Sort(ToGroups(order, groupMap, raw.domain), GroupOrder);
    assert ToGroups(order, groupMap, raw.domain) == GroupsOf(seen, KeysInOrder(seen), raw.domain);
  }

  /** The output group of one key: its members' URLs, its first member's example, the key's fields. */
  function GroupOfKey(ps: seq<Sighting>, k: string, domain: string): IssueGroupForTicket
    requires k in KeysInOrder(ps)
  {
    KeysHaveMembers(ps);
    var acc := AccOf(MembersOf(ps, k));
    ToGroup(k, acc.allUrls, [domain], acc.exampleIssue)
  }

  /** The converted list holds exactly the groups of the keys in `order`. */
  lemma GroupsOfMembership(ps: seq<Sighting>, order: seq<string>, domain: string, g: IssueGroupForTicket)
    requires forall k | k in order :: k in KeysInOrder(ps)
    ensures g in GroupsOf(ps, order, domain) <==> exists k | k in order :: g == GroupOfKey(ps, k, domain)
  {
    var pre := GroupsOf(ps, order, domain);
    KeysHaveMembers(ps);
    if g in pre {
      var i :| 0 <= i < |pre| && pre[i] == g;
      assert g == GroupOfKey(ps, order[i], domain);
    }
    if exists k | k in order :: g == GroupOfKey(ps, k, domain) {
      var k :| k in order && g == GroupOfKey(ps, k, domain);
      var i :| 0 <= i < |order| && order[i] == k;
      assert pre[i] == g;
    }
  }

  /** The output holds exactly one group per key: the group of that key's members. */
  lemma TicketGroupsAreKeyGroups(raw: RawAuditJson)
    ensures |TicketGroups(raw)| == |KeysInOrder(Sightings(raw))|
    ensures forall g :: g in TicketGroups(raw) <==>
      exists k | k in KeysInOrder(Sightings(raw)) :: g == GroupOfKey(Sightings(raw), k, raw.domain)
  {
    var ps := Sightings(raw);
    var order := KeysInOrder(ps);
    var pre := GroupsOf(ps, order, raw.domain);
    var r := TicketGroups(raw);
    assert multiset(r) == multiset(pre);
    forall g ensures g in r <==> exists k | k in order :: g == GroupOfKey(ps, k, raw.domain) {
      assert g in r <==> g in multiset(r);
      assert g in pre <==> g in multiset(pre);
      GroupsOfMembership(ps, order, raw.domain, g);
    }
  }

  /**
   * Every group has count == |allUrls| >= 1 and the audit's domain as its only domain, and the
   * output is sorted by severity rank, then by count descending, with ties in key first-seen order.
   */
  lemma TicketGroupsShape(raw: RawAuditJson)
    ensures forall g | g in TicketGroups(raw) ::
      g.count == |g.allUrls| && g.count >= 1 && g.affectedDomains == [raw.domain]
    ensures Sorted(TicketGroups(raw), GroupOrder)
    ensures forall v :: (WithKey(TicketGroups(raw), GroupOrder, v)
      == WithKey(GroupsOf(Sightings(raw), KeysInOrder(Sightings(raw)), raw.domain), GroupOrder, v))
  {
    var ps := Sightings(raw);
    KeysHaveMembers(ps);
    var pre := GroupsOf(ps, KeysInOrder(ps), raw.domain);
    TicketGroupsAreKeyGroups(raw);
    SortSorted(pre, GroupOrder);
    forall v ensures WithKey(TicketGroups(raw), GroupOrder, v) == WithKey(pre, GroupOrder, v) {
      SortStable(pre, GroupOrder, v);
    }
  }

  lemma {:induction false} GroupsOfCounts(ps: seq<Sighting>, order: seq<string>, domain: string)
    requires forall k | k in order :: k in KeysInOrder(ps)
    ensures SumOf(GroupsOf(ps, order, domain), (g: IssueGroupForTicket) => g.count) == GroupSizes(ps, order)
    decreases |order|
  {
    KeysHaveMembers(ps);
    if order != [] {
      var front := order[..|order| - 1];
      var k := order[|order| - 1];
      GroupsOfCounts(ps, front, domain);
      assert GroupsOf(ps, order, domain) == GroupsOf(ps, front, domain) + [ToGroup(k, Accumulated(ps)[k].allUrls, [domain], Accumulated(ps)[k].exampleIssue)];
      SumOfConcat(GroupsOf(ps, front, domain), [ToGroup(k, Accumulated(ps)[k].allUrls, [domain], Accumulated(ps)[k].exampleIssue)],
        (g: IssueGroupForTicket) => g.count);
    }
  }

  /** The counts add up to the number of issues over all URL entries. */
  lemma TicketGroupsTotal(raw: RawAuditJson)
    ensures SumOf(TicketGroups(raw), (g: IssueGroupForTicket) => g.count) == TotalIssues(EntriesOf(raw.urls))
  {
    var ps := Sightings(raw);
    var pre := GroupsOf(ps, KeysInOrder(ps), raw.domain);
    SortSum(pre, GroupOrder, (g: IssueGroupForTicket) => g.count);
    GroupsOfCounts(ps, KeysInOrder(ps), raw.domain);
    GroupSizesTotal(ps);
    UrlSightingsCount(raw.domain, EntriesOf(raw.urls));
  }

  function FieldsOf(g: IssueGroupForTicket): (string, string, string) {
    (g.issueType, g.severity, g.category)
  }

  /** With bar-free fields, a key's group carries the key's own fields and gathers exactly the sightings with them. */
  lemma KeyGroupFields(ps: seq<Sighting>, k: string, domain: string)
    requires forall q | q in ps :: BarFree(q)
    requires k in KeysInOrder(ps)
    ensures var g := GroupOfKey(ps, k, domain);
      && k == FieldsKey(g.issueType, g.severity, g.category)
      && WithFields(ps, g.issueType, g.severity, g.category) == MembersOf(ps, k)
  {
    KeysHaveMembers(ps);
    MembersOfSpec(ps, k);
    var m := MembersOf(ps, k)[0];
    assert m in MembersOf(ps, k);
    SplitKeyExact(m.issue.issueType, m.issue.severity, m.issue.category);
    MembersAreFieldMatches(ps, m.issue.issueType, m.issue.severity, m.issue.category);
  }

  /**
   * When no issue_type, severity or category contains a bar, two issues share a group exactly when
   * their three fields agree: every group gathers precisely the sightings with its fields (its
   * URLs in encounter order and its first one as the example), no two groups have the same
   * fields, and every sighting has a group.
   */
  lemma TicketGroupsByFields(raw: RawAuditJson)
    requires forall q | q in Sightings(raw) :: BarFree(q)
    ensures forall g | g in TicketGroups(raw) ::
      var ms := WithFields(Sightings(raw), g.issueType, g.severity, g.category);
      ms != [] && g.allUrls == Urls(ms) && g.exampleIssue == ExampleOf(ms[0].url, ms[0].issue)
    ensures forall i, j | 0 <= i < j < |TicketGroups(raw)| ::
      FieldsOf(TicketGroups(raw)[i]) != FieldsOf(TicketGroups(raw)[j])
    ensures forall p | p in Sightings(raw) :: exists g | g in TicketGroups(raw) ::
      FieldsOf(g) == (p.issue.issueType, p.issue.severity, p.issue.category)
  {
    TicketGroupsGather(raw);
    TicketGroupsDistinct(raw);
    TicketGroupsCover(raw);
  }

  lemma TicketGroupsGather(raw: RawAuditJson)
    requires forall q | q in Sightings(raw) :: BarFree(q)
    ensures forall g | g in TicketGroups(raw) ::
      var ms := WithFields(Sightings(raw), g.issueType, g.severity, g.category);
      ms != [] && g.allUrls == Urls(ms) && g.exampleIssue == ExampleOf(ms[0].url, ms[0].issue)
  {
    var ps := Sightings(raw);
    var order := KeysInOrder(ps);
    var r := TicketGroups(raw);
    KeysHaveMembers(ps);
    TicketGroupsAreKeyGroups(raw);
    forall g | g in r
      ensures var ms := WithFields(ps, g.issueType, g.severity, g.category);
        ms != [] && g.allUrls == Urls(ms) && g.exampleIssue == ExampleOf(ms[0].url, ms[0].issue)
    {
      var k :| k in order && g == GroupOfKey(ps, k, raw.domain);
      KeyGroupFields(ps, k, raw.domain);
    }
  }

  lemma TicketGroupsDistinct(raw: RawAuditJson)
    requires forall q | q in Sightings(raw) :: BarFree(q)
    ensures forall i, j | 0 <= i < j < |TicketGroups(raw)| ::
      FieldsOf(TicketGroups(raw)[i]) != FieldsOf(TicketGroups(raw)[j])
  {
    var ps := Sightings(raw);
    var order := KeysInOrder(ps);
    var pre := GroupsOf(ps, order, raw.domain);
    var r := TicketGroups(raw);
    KeysHaveMembers(ps);
    TicketGroupsAreKeyGroups(raw);
    KeysInOrderSpec(ps, "");
    forall i, j | 0 <= i < j < |pre| ensures pre[i] != pre[j] {
      KeyGroupFields(ps, order[i], raw.domain);
      KeyGroupFields(ps, order[j], raw.domain);
    }
    SortNoDup(pre, GroupOrder);
    forall i, j | 0 <= i < j < |r| ensures FieldsOf(r[i]) != FieldsOf(r[j]) {
      assert r[i] in r && r[j] in r;
      var ki :| ki in order && r[i] == GroupOfKey(ps, ki, raw.domain);
      var kj :| kj in order && r[j] == GroupOfKey(ps, kj, raw.domain);
      KeyGroupFields(ps, ki, raw.domain);
      KeyGroupFields(ps, kj, raw.domain);
    }
  }

  lemma TicketGroupsCover(raw: RawAuditJson)
    requires forall q | q in Sightings(raw) :: BarFree(q)
    ensures forall p | p in Sightings(raw) :: exists g | g in TicketGroups(raw) ::
      FieldsOf(g) == (p.issue.issueType, p.issue.severity, p.issue.category)
  {
    var ps := Sightings(raw);
    var r := TicketGroups(raw);
    KeysHaveMembers(ps);
    TicketGroupsAreKeyGroups(raw);
    forall p | p in ps ensures exists g | g in r :: FieldsOf(g) == (p.issue.issueType, p.issue.severity, p.issue.category) {
      MembersOfSpec(ps, KeyOf(p));
      KeysInOrderSpec(ps, KeyOf(p));
      SplitKeyExact(p.issue.issueType, p.issue.severity, p.issue.category);
      var g := GroupOfKey(ps, KeyOf(p), raw.domain);
      assert g in r;
    }
  }
}
