/**
 * `groupIssuesAcrossDomains` (src/lib/agents/ticket-creation/cross-domain-grouper.ts): the
 * issues of several domain audits grouped per `issue_type|||severity|||category` key regardless
 * of domain, with every URL, the insertion-ordered set of contributing domains, and an example
 * that is upgraded while the stored one has no description.
 */
module CrossDomainGrouper {
  import opened Wrappers
  import opened JsString
  import opened TicketTypes
  import opened Seqs
  import opened IssueIndex
  import opened StableSort
  import Grouper

  /** One domain's audit as the combined route passes it in. */
  datatype AuditInput = AuditInput(auditId: string, domain: string, rawJson: RawAuditJson)

  /** All audits flattened in loop order: audits, then URL entries, then issues. */
  function AllSightings(audits: seq<AuditInput>): seq<Sighting>
    decreases |audits|
  {
    if audits == [] then []
    else
      var a := audits[|audits| - 1];
      AllSightings(audits[..|audits| - 1]) + UrlSightings(a.domain, EntriesOf(a.rawJson.urls))
  }

  lemma AllSightingsStep(audits: seq<AuditInput>, a: nat)
    requires a < |audits|
    ensures AllSightings(audits[..a + 1])
         == AllSightings(audits[..a]) + UrlSightings(audits[a].domain, EntriesOf(audits[a].rawJson.urls))
  {
    assert audits[..a + 1][..a] == audits[..a];
  }

  /** What the group map holds per key. */
  datatype CrossAcc = CrossAcc(allUrls: seq<string>, affectedDomains: seq<string>, exampleIssue: ExampleIssue)

  /** The upgrade rule: replace the example while it has no description and the new issue has a description or a current value. */
  function Upgrade(example: ExampleIssue, url: string, issue: RawUrlIssue): ExampleIssue {
    if !Truthy(example.description) && (Truthy(issue.description) || Truthy(issue.currentValue))
    then ExampleOf(url, issue)
    else example
  }

  /** The example after a group's members: the first member's, then every member's upgrade check. */
  function ExampleAfter(ms: seq<Sighting>): ExampleIssue
    requires ms != []
    decreases |ms|
  {
    if |ms| == 1 then Upgrade(ExampleOf(ms[0].url, ms[0].issue), ms[0].url, ms[0].issue)
    else Upgrade(ExampleAfter(ms[..|ms| - 1]), ms[|ms| - 1].url, ms[|ms| - 1].issue)
  }

  /** The entry a key's members leave in the map. */
  function CrossAccOf(ms: seq<Sighting>): CrossAcc
    requires ms != []
  {
    CrossAcc(Urls(ms), Dedup(Domains(ms)), ExampleAfter(ms))
  }

  lemma KeysHaveMembers(ps: seq<Sighting>)
    ensures forall k | k in KeysInOrder(ps) :: MembersOf(ps, k) != [] && |Split(k, "|||")| >= 3
  {
    Grouper.KeysHaveMembers(ps);
  }

  /** The group map after every sighting, stated per key through the key's members. */
  function Accumulated(ps: seq<Sighting>): map<string, CrossAcc> {
    KeysHaveMembers(ps);
    map k | k in KeysInOrder(ps) :: CrossAccOf(MembersOf(ps, k))
  }

  /** The output group of one key. */
  function GroupOfKey(ps: seq<Sighting>, k: string): IssueGroupForTicket
    requires k in KeysInOrder(ps)
  {
    KeysHaveMembers(ps);
    var acc := CrossAccOf(MembersOf(ps, k));
    Grouper.ToGroup(k, acc.allUrls, acc.affectedDomains, acc.exampleIssue)
  }

  /** `Array.from(groupMap.entries()).map(...)` for the keys in `order`. */
  function GroupsOf(ps: seq<Sighting>, order: seq<string>): (r: seq<IssueGroupForTicket>)
    requires forall k | k in order :: k in KeysInOrder(ps)
    ensures |r| == |order| && forall i | 0 <= i < |order| :: r[i] == GroupOfKey(ps, order[i])
    decreases |order|
  {
    if order == [] then [] else GroupsOf(ps, order[..|order| - 1]) + [GroupOfKey(ps, order[|order| - 1])]
  }

  /** The groups `groupIssuesAcrossDomains(audits)` returns. */
  function CrossDomainGroups(audits: seq<AuditInput>): seq<IssueGroupForTicket> {
    var ps := AllSightings(audits);
    Sort(GroupsOf(ps, KeysInOrder(ps)), Grouper.GroupOrder)
  }

  /** The loop invariant: the map and its key order are what the sightings so far determine. */
  ghost predicate MapMatches(ps: seq<Sighting>, order: seq<string>, m: map<string, CrossAcc>) {
    && order == KeysInOrder(ps)
    && (forall k :: k in m <==> k in order)
    && EntriesMatch(ps, m)
  }

  /** Every key of the map holds the entry its members determine. */
  ghost predicate EntriesMatch(ps: seq<Sighting>, m: map<string, CrossAcc>) {
    forall k | k in m :: MembersOf(ps, k) != [] && m[k] == CrossAccOf(MembersOf(ps, k))
  }

  /** `Set.add`: append unless present. */
  function AddDomain(ds: seq<string>, d: string): seq<string> {
    if d in ds then ds else ds + [d]
  }

  /** The entry after `existing.allUrls.push(url)`, `affectedDomains.add(domain)` and the upgrade check. */
  function Pushed(e: CrossAcc, p: Sighting): CrossAcc {
    CrossAcc(e.allUrls + [p.url], AddDomain(e.affectedDomains, p.domain), Upgrade(e.exampleIssue, p.url, p.issue))
  }

  /** The entry `groupMap.set` creates, after the upgrade check on the same issue. */
  function Created(p: Sighting): CrossAcc {
    CrossAcc([p.url], [p.domain], Upgrade(ExampleOf(p.url, p.issue), p.url, p.issue))
  }

  /** One more member changes a key's entry exactly as the loop body does. */
  lemma CrossAccStep(ms: seq<Sighting>, p: Sighting)
    requires ms != []
    ensures CrossAccOf(ms + [p]) == Pushed(CrossAccOf(ms), p)
  {
    MemberStep(ms, p);
    assert (ms + [p])[..|ms|] == ms;
    var ds := Domains(ms + [p]);
    assert ds[..|ds| - 1] == Domains(ms);
  }

  /** A group with one member is the entry `groupMap.set` creates. */
  lemma CreatedSingle(p: Sighting)
    ensures CrossAccOf([p]) == Created(p)
  {
    assert Urls([p]) == [p.url];
    assert Domains([p]) == [p.domain];
    assert Dedup([p.domain]) == [p.domain];
  }

  /** Pushing onto an existing group keeps the invariant. */
  lemma PushKeeps(ps: seq<Sighting>, order: seq<string>, m: map<string, CrossAcc>, p: Sighting)
    requires MapMatches(ps, order, m) && KeyOf(p) in m
    ensures MapMatches(ps + [p], order, m[KeyOf(p) := Pushed(m[KeyOf(p)], p)])
  {
    SightingStep(ps, p);
    PushEntries(ps, m, p);
  }

  lemma PushEntries(ps: seq<Sighting>, m: map<string, CrossAcc>, p: Sighting)
    requires EntriesMatch(ps, m) && KeyOf(p) in m
    ensures EntriesMatch(ps + [p], m[KeyOf(p) := Pushed(m[KeyOf(p)], p)])
  {
    var key := KeyOf(p);
    var m' := m[key := Pushed(m[key], p)];
    SightingStep(ps, p);
    forall k | k in m' ensures MembersOf(ps + [p], k) != [] && m'[k] == CrossAccOf(MembersOf(ps + [p], k)) {
      if k == key {
        CrossAccStep(MembersOf(ps, k), p);
      } else {
        assert MembersOf(ps + [p], k) == MembersOf(ps, k);
      }
    }
  }

  /** Creating a group keeps the invariant. */
  lemma CreateKeeps(ps: seq<Sighting>, order: seq<string>, m: map<string, CrossAcc>, p: Sighting)
    requires MapMatches(ps, order, m) && KeyOf(p) !in m
    ensures MapMatches(ps + [p], order + [KeyOf(p)], m[KeyOf(p) := Created(p)])
  {
    SightingStep(ps, p);
    KeysInOrderSpec(ps, KeyOf(p));
    CreateEntries(ps, m, p);
  }

  lemma CreateEntries(ps: seq<Sighting>, m: map<string, CrossAcc>, p: Sighting)
    requires EntriesMatch(ps, m) && KeyOf(p) !in m && MembersOf(ps, KeyOf(p)) == []
    ensures EntriesMatch(ps + [p], m[KeyOf(p) := Created(p)])
  {
    var key := KeyOf(p);
    var m' := m[key := Created(p)];
    SightingStep(ps, p);
    forall k | k in m' ensures MembersOf(ps + [p], k) != [] && m'[k] == CrossAccOf(MembersOf(ps + [p], k)) {
      if k == key {
        assert MembersOf(ps + [p], k) == [p];
        CreatedSingle(p);
      } else {
        assert MembersOf(ps + [p], k) == MembersOf(ps, k);
      }
    }
  }

  lemma MatchesAccumulated(ps: seq<Sighting>, order: seq<string>, m: map<string, CrossAcc>)
    requires MapMatches(ps, order, m)
    ensures order == KeysInOrder(ps) && m == Accumulated(ps)
  {
    KeysHaveMembers(ps);
  }

  /** The body of the innermost loop: one issue of one URL, looked up, added and upgraded. */
  method AddIssue(domain: string, url: string, issue: RawUrlIssue,
                  order: seq<string>, groupMap: map<string, CrossAcc>, ghost seen: seq<Sighting>)
    returns (order': seq<string>, groupMap': map<string, CrossAcc>)
    requires MapMatches(seen, order, groupMap)
    ensures MapMatches(seen + [Sighting(domain, url, issue)], order', groupMap')
  {
    var key := FieldsKey(issue.issueType, issue.severity, issue.category);
    ghost var p := Sighting(domain, url, issue);
    var group: CrossAcc;
    ghost var target: CrossAcc;
    order' := order;
    if key in groupMap {
      var existing := groupMap[key];
      var domains := if domain in existing.affectedDomains then existing.affectedDomains
                     else existing.affectedDomains + [domain];
      group := existing.(allUrls := existing.allUrls + [url], affectedDomains := domains);
      PushKeeps(seen, order, groupMap, p);
      target := Pushed(existing, p);
    } else {
      group := CrossAcc([url], [domain], ExampleOf(url, issue));
      CreateKeeps(seen, order, groupMap, p);
      order' := order + [key];
      target := Created(p);
    }
    if !Truthy(group.exampleIssue.description) && (Truthy(issue.description) || Truthy(issue.currentValue)) {
      group := group.(exampleIssue := ExampleOf(url, issue));
    }
    assert group == target;
    groupMap' := groupMap[key := group];
  }

  /** The innermost loop: the issues of one URL entry of one audit. */
  method AddUrlIssues(domain: string, url: string, issues: seq<RawUrlIssue>,
                      order: seq<string>, groupMap: map<string, CrossAcc>, ghost seen: seq<Sighting>)
    returns (order': seq<string>, groupMap': map<string, CrossAcc>)
    requires MapMatches(seen, order, groupMap)
    ensures MapMatches(seen + EntrySightings(domain, url, issues), order', groupMap')
  {
    order', groupMap' := order, groupMap;
    ghost var done := seen;
    var j := 0;
    while j < |issues|
      invariant 0 <= j <= |issues|
      invariant done == seen + EntrySightings(domain, url, issues[..j])
      invariant MapMatches(done, order', groupMap')
    {
      EntrySightingsStep(seen, domain, url, issues, j);
      order', groupMap' := AddIssue(domain, url, issues[j], order', groupMap', done);
      done := done + [Sighting(domain, url, issues[j])];
      j := j + 1;
    }
    assert issues[..j] == issues;
  }

  /** The middle loop: the URL entries of one audit, in `Object.entries` order. */
  method AddAuditEntries(domain: string, entries: UrlEntries,
                         order: seq<string>, groupMap: map<string, CrossAcc>, ghost seen: seq<Sighting>)
    returns (order': seq<string>, groupMap': map<string, CrossAcc>)
    requires MapMatches(seen, order, groupMap)
    ensures MapMatches(seen + UrlSightings(domain, entries), order', groupMap')
  {
    order', groupMap' := order, groupMap;
    ghost var done := seen;
    var i := 0;
    while i < |entries|
      invariant 0 <= i <= |entries|
      invariant done == seen + UrlSightings(domain, entries[..i])
      invariant MapMatches(done, order', groupMap')
    {
      var url := entries[i].0;
      var entry := entries[i].1;
      UrlSightingsStep(seen, domain, entries, i);
      if entry.issues.Some? {
        order', groupMap' := AddUrlIssues(domain, url, entry.issues.value, order', groupMap', done);
        done := done + EntrySightings(domain, url, entry.issues.value);
      } else {
        assert done + EntrySightings(domain, url, IssuesOf(entry)) == done;
      }
      i := i + 1;
    }
    assert entries[..i] == entries;
  }

  /** `groupIssuesAcrossDomains`: the loop over the audits, then the conversion and the sort. */
  method GroupIssuesAcrossDomains(audits: seq<AuditInput>) returns (groups: seq<IssueGroupForTicket>)
    ensures groups == CrossDomainGroups(audits)
  {
    var order, groupMap := AddAudits(audits);
    ghost var seen := AllSightings(audits);
    MatchesAccumulated(seen, order, groupMap);
    var converted := ConvertGroups(order, groupMap, seen);
    groups := Sort(converted, Grouper.GroupOrder);
  }

  /** The loop over the audits, in array order. */
  method AddAudits(audits: seq<AuditInput>) returns (order: seq<string>, groupMap: map<string, CrossAcc>)
    ensures MapMatches(AllSightings(audits), order, groupMap)
  {
    order, groupMap := [], map[];
    ghost var seen: seq<Sighting> := [];
    var a := 0;
    while a < |audits|
      invariant 0 <= a <= |audits|
      invariant seen == AllSightings(audits[..a])
      invariant MapMatches(seen, order, groupMap)
    {
      var domain := audits[a].domain;
      var entries := EntriesOf(audits[a].rawJson.urls);
      AllSightingsStep(audits, a);
      order, groupMap := AddAuditEntries(domain, entries, order, groupMap, seen);
      seen := seen + UrlSightings(domain, entries);
      a := a + 1;
    }
    assert audits[..a] == audits;
  }

  /** `Array.from(groupMap.entries()).map(...)`. */
  method ConvertGroups(order: seq<string>, groupMap: map<string, CrossAcc>, ghost seen: seq<Sighting>)
    returns (converted: seq<IssueGroupForTicket>)
    requires order == KeysInOrder(seen) && groupMap == Accumulated(seen)
    ensures converted == GroupsOf(seen, order)
  {
    converted := [];
    var k := 0;
    while k < |order|
      invariant 0 <= k <= |order|
      invariant converted == GroupsOf(seen, order[..k])
    {
      GroupsOfStep(seen, k);
      var acc := groupMap[order[k]];
      converted := converted + [Grouper.ToGroup(order[k], acc.allUrls, acc.affectedDomains, acc.exampleIssue)];
      k := k + 1;
    }
    assert order[..k] == order;
  }

  /** One more key of the conversion loop: its group is built from its accumulated entry. */
  lemma GroupsOfStep(ps: seq<Sighting>, k: nat)
    requires k < |KeysInOrder(ps)|
    ensures forall x | x in KeysInOrder(ps)[..k] :: x in KeysInOrder(ps)
    ensures forall x | x in KeysInOrder(ps)[..k + 1] :: x in KeysInOrder(ps)
    ensures KeysInOrder(ps)[k] in Accumulated(ps) && |Split(KeysInOrder(ps)[k], "|||")| >= 3
    ensures var order := KeysInOrder(ps);
      var acc := Accumulated(ps)[order[k]];
      GroupsOf(ps, order[..k + 1])
      == GroupsOf(ps, order[..k]) + [Grouper.ToGroup(order[k], acc.allUrls, acc.affectedDomains, acc.exampleIssue)]
  {
    var order := KeysInOrder(ps);
    KeysHaveMembers(ps);
    PrefixWithin(order, k);
    PrefixWithin(order, k + 1);
    assert order[..k + 1][..k] == order[..k];
  }

  predicate Described(p: Sighting) {
    Truthy(p.issue.description)
  }

  predicate HasCurrent(p: Sighting) {
    Truthy(p.issue.currentValue)
  }

  /** No member before position `n` has a description. */
  predicate UndescribedBefore(ms: seq<Sighting>, n: int) {
    forall j | 0 <= j < n && j < |ms| :: !Described(ms[j])
  }

  /** No member after position `i` has a current value. */
  predicate NoCurrentAfter(ms: seq<Sighting>, i: int) {
    forall j | i < j < |ms| && 0 <= j :: !HasCurrent(ms[j])
  }

  /**
   * The example a group ends with: the first member with a description; when none has one, the
   * last member with a current value; when none has either, the first member.
   */
  lemma ExampleAfterChoice(ms: seq<Sighting>)
    requires ms != []
    ensures forall i | 0 <= i < |ms| && Described(ms[i]) && UndescribedBefore(ms, i) ::
      ExampleAfter(ms) == ExampleOf(ms[i].url, ms[i].issue)
    ensures UndescribedBefore(ms, |ms|) ==>
      forall i | 0 <= i < |ms| && HasCurrent(ms[i]) && NoCurrentAfter(ms, i) ::
        ExampleAfter(ms) == ExampleOf(ms[i].url, ms[i].issue)
    ensures UndescribedBefore(ms, |ms|) && NoCurrentAfter(ms, -1) ==>
      ExampleAfter(ms) == ExampleOf(ms[0].url, ms[0].issue)
  {
    ExampleFirstDescribed(ms);
    ExampleLastCurrent(ms);
    ExampleFallback(ms);
  }

  lemma {:induction false} ExampleFirstDescribed(ms: seq<Sighting>)
    requires ms != []
    ensures forall i | 0 <= i < |ms| && Described(ms[i]) && UndescribedBefore(ms, i) ::
      ExampleAfter(ms) == ExampleOf(ms[i].url, ms[i].issue)
    decreases |ms|
  {
    if |ms| > 1 {
      var f := ms[..|ms| - 1];
      ExampleFirstDescribed(f);
      ExampleAfterMember(f);
      assert forall j | 0 <= j < |f| :: f[j] == ms[j];
      if !UndescribedBefore(f, |f|) {
        var i :| 0 <= i < |f| && Described(f[i]);
        FirstDescribed(f, i);
      }
    }
  }

  lemma {:induction false} ExampleLastCurrent(ms: seq<Sighting>)
    requires ms != []
    ensures UndescribedBefore(ms, |ms|) ==>
      forall i | 0 <= i < |ms| && HasCurrent(ms[i]) && NoCurrentAfter(ms, i) ::
        ExampleAfter(ms) == ExampleOf(ms[i].url, ms[i].issue)
    decreases |ms|
  {
    if |ms| > 1 {
      var f := ms[..|ms| - 1];
      ExampleLastCurrent(f);
      ExampleAfterMember(f);
      assert forall j | 0 <= j < |f| :: f[j] == ms[j];
    }
  }

  lemma {:induction false} ExampleFallback(ms: seq<Sighting>)
    requires ms != []
    ensures UndescribedBefore(ms, |ms|) && NoCurrentAfter(ms, -1) ==>
      ExampleAfter(ms) == ExampleOf(ms[0].url, ms[0].issue)
    decreases |ms|
  {
    if |ms| > 1 {
      var f := ms[..|ms| - 1];
      ExampleFallback(f);
      ExampleAfterMember(f);
      assert forall j | 0 <= j < |f| :: f[j] == ms[j];
    }
  }

  /** Some member with a description has a first one. */
  lemma {:induction false} FirstDescribed(ms: seq<Sighting>, i: int)
    requires 0 <= i < |ms| && Described(ms[i])
    ensures exists l | 0 <= l <= i :: Described(ms[l]) && UndescribedBefore(ms, l)
    decreases i
  {
    if !UndescribedBefore(ms, i) {
      var j :| 0 <= j < i && Described(ms[j]);
      FirstDescribed(ms, j);
    }
  }

  /** The example is one member's: its URL is one of the group's URLs. */
  lemma {:induction false} ExampleAfterMember(ms: seq<Sighting>)
    requires ms != []
    ensures exists i | 0 <= i < |ms| :: ExampleAfter(ms) == ExampleOf(ms[i].url, ms[i].issue)
    ensures ExampleAfter(ms).url in Urls(ms)
    decreases |ms|
  {
    if |ms| > 1 {
      var f := ms[..|ms| - 1];
      ExampleAfterMember(f);
      var i :| 0 <= i < |f| && ExampleAfter(f) == ExampleOf(f[i].url, f[i].issue);
      assert f[i] == ms[i];
    }
    var i :| 0 <= i < |ms| && ExampleAfter(ms) == ExampleOf(ms[i].url, ms[i].issue);
    assert ExampleOf(ms[i].url, ms[i].issue).url == ms[i].url;
    assert ExampleAfter(ms).url == ms[i].url;
    assert Urls(ms)[i] == ms[i].url;
  }

  /** The converted list holds exactly the groups of the keys in `order`. */
  lemma GroupsOfMembership(ps: seq<Sighting>, order: seq<string>, g: IssueGroupForTicket)
    requires forall k | k in order :: k in KeysInOrder(ps)
    ensures g in GroupsOf(ps, order) <==> exists k | k in order :: g == GroupOfKey(ps, k)
  {
    var pre := GroupsOf(ps, order);
    if g in pre {
      var i :| 0 <= i < |pre| && pre[i] == g;
      assert g == GroupOfKey(ps, order[i]);
    }
    if exists k | k in order :: g == GroupOfKey(ps, k) {
      var k :| k in order && g == GroupOfKey(ps, k);
      var i :| 0 <= i < |order| && order[i] == k;
      assert pre[i] == g;
    }
  }

  /** The output holds exactly one group per key seen in any audit: the group of that key's members. */
  lemma CrossGroupsAreKeyGroups(audits: seq<AuditInput>)
    ensures |CrossDomainGroups(audits)| == |KeysInOrder(AllSightings(audits))|
    ensures forall g :: g in CrossDomainGroups(audits) <==>
      exists k | k in KeysInOrder(AllSightings(audits)) :: g == GroupOfKey(AllSightings(audits), k)
  {
    var ps := AllSightings(audits);
    var order := KeysInOrder(ps);
    var pre := GroupsOf(ps, order);
    var r := CrossDomainGroups(audits);
    assert multiset(r) == multiset(pre);
    forall g ensures g in r <==> exists k | k in order :: g == GroupOfKey(ps, k) {
      assert g in r <==> g in multiset(r);
      assert g in pre <==> g in multiset(pre);
      GroupsOfMembership(ps, order, g);
    }
  }

  /**
   * One key's group: every member's URL in encounter order, the members' domains each once in
   * first-seen order, and an example that is one of the members' chosen by `ExampleAfterChoice`.
   */
  lemma KeyGroupContents(ps: seq<Sighting>, k: string)
    requires k in KeysInOrder(ps)
    ensures var g := GroupOfKey(ps, k);
      var ms := MembersOf(ps, k);
      && ms != []
      && g.count == |g.allUrls| == |ms|
      && g.allUrls == Urls(ms)
      && NoDup(g.affectedDomains)
      && (forall d :: d in g.affectedDomains <==> d in Domains(ms))
      && (forall i, j | 0 <= i < j < |g.affectedDomains| ::
            FirstIndex(Domains(ms), g.affectedDomains[i]) < FirstIndex(Domains(ms), g.affectedDomains[j]))
      && g.exampleIssue == ExampleAfter(ms)
      && g.exampleIssue.url in g.allUrls
  {
    KeysHaveMembers(ps);
    var ms := MembersOf(ps, k);
    DedupSpec(Domains(ms));
    ExampleAfterMember(ms);
  }

  /**
   * Every group has count == |allUrls| >= 1 and a non-empty list of distinct domains, and the
   * output is sorted by severity rank, then by count descending, with ties in key first-seen order.
   */
  lemma CrossGroupsShape(audits: seq<AuditInput>)
    ensures forall g | g in CrossDomainGroups(audits) ::
      g.count == |g.allUrls| && g.count >= 1 && g.affectedDomains != [] && NoDup(g.affectedDomains)
      && g.exampleIssue.url in g.allUrls
    ensures Sorted(CrossDomainGroups(audits), Grouper.GroupOrder)
    ensures forall v :: (WithKey(CrossDomainGroups(audits), Grouper.GroupOrder, v)
      == WithKey(GroupsOf(AllSightings(audits), KeysInOrder(AllSightings(audits))), Grouper.GroupOrder, v))
  {
    var ps := AllSightings(audits);
    var pre := GroupsOf(ps, KeysInOrder(ps));
    CrossGroupsAreKeyGroups(audits);
    forall g | g in CrossDomainGroups(audits)
      ensures g.count == |g.allUrls| && g.count >= 1 && g.affectedDomains != [] && NoDup(g.affectedDomains)
        && g.exampleIssue.url in g.allUrls
    {
      var k :| k in KeysInOrder(ps) && g == GroupOfKey(ps, k);
      KeyGroupContents(ps, k);
      var ms := MembersOf(ps, k);
      assert Domains(ms)[0] in Domains(ms);
    }
    SortSorted(pre, Grouper.GroupOrder);
    forall v ensures WithKey(CrossDomainGroups(audits), Grouper.GroupOrder, v) == WithKey(pre, Grouper.GroupOrder, v) {
      SortStable(pre, Grouper.GroupOrder, v);
    }
  }

  /** Σ over audits of the issues of their URL entries. */
  function AuditsTotal(audits: seq<AuditInput>): nat
    decreases |audits|
  {
    if audits == [] then 0
    else AuditsTotal(audits[..|audits| - 1]) + TotalIssues(EntriesOf(audits[|audits| - 1].rawJson.urls))
  }

  lemma {:induction false} AllSightingsCount(audits: seq<AuditInput>)
    ensures |AllSightings(audits)| == AuditsTotal(audits)
    decreases |audits|
  {
    if audits != [] {
      var a := audits[|audits| - 1];
      AllSightingsCount(audits[..|audits| - 1]);
      UrlSightingsCount(a.domain, EntriesOf(a.rawJson.urls));
    }
  }

  lemma {:induction false} GroupsOfCounts(ps: seq<Sighting>, order: seq<string>)
    requires forall k | k in order :: k in KeysInOrder(ps)
    ensures SumOf(GroupsOf(ps, order), (g: IssueGroupForTicket) => g.count) == GroupSizes(ps, order)
    decreases |order|
  {
    if order != [] {
      var front := order[..|order| - 1];
      var k := order[|order| - 1];
      GroupsOfCounts(ps, front);
      assert GroupsOf(ps, order) == GroupsOf(ps, front) + [GroupOfKey(ps, k)];
      SumOfConcat(GroupsOf(ps, front), [GroupOfKey(ps, k)], (g: IssueGroupForTicket) => g.count);
    }
  }

  /** The counts add up to the number of issues over every audit's URL entries. */
  lemma CrossGroupsTotal(audits: seq<AuditInput>)
    ensures SumOf(CrossDomainGroups(audits), (g: IssueGroupForTicket) => g.count) == AuditsTotal(audits)
  {
    var ps := AllSightings(audits);
    var pre := GroupsOf(ps, KeysInOrder(ps));
    SortSum(pre, Grouper.GroupOrder, (g: IssueGroupForTicket) => g.count);
    GroupsOfCounts(ps, KeysInOrder(ps));
    GroupSizesTotal(ps);
    AllSightingsCount(audits);
  }

  /** The URLs one key gathers from each audit, concatenated in audit order. */
  function UrlsPerAudit(audits: seq<AuditInput>, k: string): seq<string>
    decreases |audits|
  {
    if audits == [] then []
    else
      var a := audits[|audits| - 1];
      UrlsPerAudit(audits[..|audits| - 1], k) + Urls(MembersOf(UrlSightings(a.domain, EntriesOf(a.rawJson.urls)), k))
  }

  /** A merged group's URLs are the URLs each audit contributes, audit after audit. */
  lemma {:induction false} AllUrlsByAudit(audits: seq<AuditInput>, k: string)
    ensures Urls(MembersOf(AllSightings(audits), k)) == UrlsPerAudit(audits, k)
    decreases |audits|
  {
    if audits != [] {
      var front := audits[..|audits| - 1];
      var a := audits[|audits| - 1];
      var b := UrlSightings(a.domain, EntriesOf(a.rawJson.urls));
      AllUrlsByAudit(front, k);
      MembersOfConcat(AllSightings(front), b, k);
      UrlsConcat(MembersOf(AllSightings(front), k), MembersOf(b, k));
    }
  }

  /** With bar-free fields, a key's group carries the key's own fields and gathers exactly the sightings with them. */
  lemma KeyGroupFields(ps: seq<Sighting>, k: string)
    requires forall q | q in ps :: BarFree(q)
    requires k in KeysInOrder(ps)
    ensures var g := GroupOfKey(ps, k);
      && k == FieldsKey(g.issueType, g.severity, g.category)
      && WithFields(ps, g.issueType, g.severity, g.category) == MembersOf(ps, k)
  {
    KeysHaveMembers(ps);
    MembersOfSpec(ps, k);
    var m := MembersOf(ps, k)[0];
    assert m in MembersOf(ps, k);
    SplitKeyExact(m.issue.issueType, m.issue.severity, m.issue.category);
    MembersAreFieldMatches(ps, m.issue.issueType, m.issue.severity, m.issue.category);
  }

  /** With bar-free fields no group occurs twice, since each has its own key. */
  lemma DistinctGroups(audits: seq<AuditInput>)
    requires forall q | q in AllSightings(audits) :: BarFree(q)
    ensures NoDup(CrossDomainGroups(audits))
  {
    var ps := AllSightings(audits);
    var order := KeysInOrder(ps);
    var pre := GroupsOf(ps, order);
    KeysInOrderSpec(ps, "");
    forall i, j | 0 <= i < j < |pre| ensures pre[i] != pre[j] {
      KeyGroupFields(ps, order[i]);
      KeyGroupFields(ps, order[j]);
    }
    SortNoDup(pre, Grouper.GroupOrder);
  }

  /**
   * With bar-free fields, issues from any domain share a group exactly when their three fields
   * agree: every group is built from precisely the sightings with its fields, no two groups have
   * the same fields, and every sighting of every audit has a group.
   */
  lemma CrossGroupsByFields(audits: seq<AuditInput>)
    requires forall q | q in AllSightings(audits) :: BarFree(q)
    ensures forall g | g in CrossDomainGroups(audits) ::
      var ms := WithFields(AllSightings(audits), g.issueType, g.severity, g.category);
      ms != [] && g.allUrls == Urls(ms) && g.affectedDomains == Dedup(Domains(ms)) && g.exampleIssue == ExampleAfter(ms)
    ensures forall i, j | 0 <= i < j < |CrossDomainGroups(audits)| ::
      Grouper.FieldsOf(CrossDomainGroups(audits)[i]) != Grouper.FieldsOf(CrossDomainGroups(audits)[j])
    ensures forall p | p in AllSightings(audits) :: exists g | g in CrossDomainGroups(audits) ::
      Grouper.FieldsOf(g) == (p.issue.issueType, p.issue.severity, p.issue.category)
  {
    CrossGroupsGather(audits);
    CrossGroupsDistinct(audits);
    CrossGroupsCover(audits);
  }

  lemma CrossGroupsGather(audits: seq<AuditInput>)
    requires forall q | q in AllSightings(audits) :: BarFree(q)
    ensures forall g | g in CrossDomainGroups(audits) ::
      var ms := WithFields(AllSightings(audits), g.issueType, g.severity, g.category);
      ms != [] && g.allUrls == Urls(ms) && g.affectedDomains == Dedup(Domains(ms)) && g.exampleIssue == ExampleAfter(ms)
  {
    var ps := AllSightings(audits);
    var order := KeysInOrder(ps);
    var r := CrossDomainGroups(audits);
    KeysHaveMembers(ps);
    CrossGroupsAreKeyGroups(audits);
    forall g | g in r
      ensures var ms := WithFields(ps, g.issueType, g.severity, g.category);
        ms != [] && g.allUrls == Urls(ms) && g.affectedDomains == Dedup(Domains(ms)) && g.exampleIssue == ExampleAfter(ms)
    {
      var k :| k in order && g == GroupOfKey(ps, k);
      KeyGroupFields(ps, k);
    }
  }

  lemma CrossGroupsDistinct(audits: seq<AuditInput>)
    requires forall q | q in AllSightings(audits) :: BarFree(q)
    ensures forall i, j | 0 <= i < j < |CrossDomainGroups(audits)| ::
      Grouper.FieldsOf(CrossDomainGroups(audits)[i]) != Grouper.FieldsOf(CrossDomainGroups(audits)[j])
  {
    var ps := AllSightings(audits);
    var order := KeysInOrder(ps);
    var r := CrossDomainGroups(audits);
    KeysHaveMembers(ps);
    CrossGroupsAreKeyGroups(audits);
    DistinctGroups(audits);
    forall i, j | 0 <= i < j < |r| ensures Grouper.FieldsOf(r[i]) != Grouper.FieldsOf(r[j]) {
      assert r[i] in r && r[j] in r;
      var ki :| ki in order && r[i] == GroupOfKey(ps, ki);
      var kj :| kj in order && r[j] == GroupOfKey(ps, kj);
      KeyGroupFields(ps, ki);
      KeyGroupFields(ps, kj);
    }
  }

  lemma CrossGroupsCover(audits: seq<AuditInput>)
    requires forall q | q in AllSightings(audits) :: BarFree(q)
    ensures forall p | p in AllSightings(audits) :: exists g | g in CrossDomainGroups(audits) ::
      Grouper.FieldsOf(g) == (p.issue.issueType, p.issue.severity, p.issue.category)
  {
    var ps := AllSightings(audits);
    var r := CrossDomainGroups(audits);
    KeysHaveMembers(ps);
    CrossGroupsAreKeyGroups(audits);
    forall p | p in ps ensures exists g | g in r :: Grouper.FieldsOf(g) == (p.issue.issueType, p.issue.severity, p.issue.category) {
      CoverOne(ps, r, p);
    }
  }

  /** The group of a sighting's key is among the groups and carries the sighting's fields. */
  lemma CoverOne(ps: seq<Sighting>, r: seq<IssueGroupForTicket>, p: Sighting)
    requires p in ps && BarFree(p)
    requires forall k | k in KeysInOrder(ps) :: MembersOf(ps, k) != [] && |Split(k, "|||")| >= 3
    requires forall k | k in KeysInOrder(ps) :: GroupOfKey(ps, k) in r
    ensures exists g | g in r :: Grouper.FieldsOf(g) == (p.issue.issueType, p.issue.severity, p.issue.category)
  {
    MembersOfSpec(ps, KeyOf(p));
    KeysInOrderSpec(ps, KeyOf(p));
    SplitKeyExact(p.issue.issueType, p.issue.severity, p.issue.category);
    var g := GroupOfKey(ps, KeyOf(p));
    assert g in r;
  }

  /**
   * With one audit whose domain is the audit JSON's own, the merged groups are the single-domain
   * groups up to the example: same keys, fields, URLs and counts, and `[domain]` as the domains.
   */
  lemma SingleAuditAgrees(a: AuditInput, k: string)
    requires a.domain == a.rawJson.domain
    requires k in KeysInOrder(AllSightings([a]))
    ensures AllSightings([a]) == Grouper.Sightings(a.rawJson)
    ensures var g := GroupOfKey(AllSightings([a]), k);
      g == Grouper.GroupOfKey(Grouper.Sightings(a.rawJson), k, a.domain).(exampleIssue := g.exampleIssue)
  {
    assert [a][..0] == [];
    var ps := AllSightings([a]);
    assert ps == UrlSightings(a.domain, EntriesOf(a.rawJson.urls));
    KeysHaveMembers(ps);
    var ms := MembersOf(ps, k);
    MembersOfSpec(ps, k);
    UrlSightingsDomain(a.domain, EntriesOf(a.rawJson.urls));
    SameDomain(ms, a.domain);
  }

  /** Members that all come from one domain list exactly that domain. */
  lemma {:induction false} SameDomain(ms: seq<Sighting>, d: string)
    requires ms != [] && forall q | q in ms :: q.domain == d
    ensures Dedup(Domains(ms)) == [d]
    decreases |ms|
  {
    var ds := Domains(ms);
    assert ds[..|ds| - 1] == Domains(ms[..|ms| - 1]);
    if |ms| > 1 {
      var f := ms[..|ms| - 1];
      assert forall q | q in f :: q in ms;
      SameDomain(f, d);
    }
  }
}
