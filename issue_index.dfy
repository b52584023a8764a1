/**
 * What the three issue aggregators (grouper.ts, cross-domain-grouper.ts, preprocessor.ts) share:
 * the flattening of `urls` into (domain, url, issue) sightings in iteration order, the string key
 * `issue_type|||severity|||category`, and the view of each key's group as the subsequence of
 * sightings that carry it. Map insertion order is the order in which keys are first seen.
 */
module IssueIndex {
  import opened Wrappers
  import opened JsString
  import opened TicketTypes
  import opened Seqs

  /** One issue seen at one URL of one domain's audit. */
  datatype Sighting = Sighting(domain: string, url: string, issue: RawUrlIssue)

  /** The template-literal key `${issue_type}|||${severity}|||${category}`. */
  function FieldsKey(issueType: string, severity: string, category: string): string {
    issueType + "|||" + severity + "|||" + category
  }

  function KeyOf(p: Sighting): string {
    FieldsKey(p.issue.issueType, p.issue.severity, p.issue.category)
  }

  /** `entry.issues`, where a missing array contributes nothing (`if (!entry.issues) continue`). */
  function IssuesOf(e: RawUrlEntry): seq<RawUrlIssue> {
    if e.issues.Some? then e.issues.value else []
  }

  /** `raw.urls ?? {}`. */
  function EntriesOf(urls: Option<UrlEntries>): UrlEntries {
    if urls.Some? then urls.value else []
  }

  /** The inner loop: one sighting per issue of one URL, in array order. */
  function EntrySightings(domain: string, url: string, issues: seq<RawUrlIssue>): (r: seq<Sighting>)
    ensures |r| == |issues|
    ensures forall k | 0 <= k < |issues| :: r[k] == Sighting(domain, url, issues[k])
    decreases |issues|
  {
    if issues == [] then []
    else EntrySightings(domain, url, issues[..|issues| - 1]) + [Sighting(domain, url, issues[|issues| - 1])]
  }

  /** One more issue of the inner loop appends one sighting. */
  lemma EntrySightingsStep(seen: seq<Sighting>, domain: string, url: string, issues: seq<RawUrlIssue>, j: nat)
    requires j < |issues|
    ensures seen + EntrySightings(domain, url, issues[..j + 1])
         == (seen + EntrySightings(domain, url, issues[..j])) + [Sighting(domain, url, issues[j])]
  {
    assert issues[..j + 1][..j] == issues[..j];
  }

  /** The outer loop over `Object.entries(urls)`. */
  function UrlSightings(domain: string, entries: UrlEntries): seq<Sighting>
    decreases |entries|
  {
    if entries == [] then []
    else
      var e := entries[|entries| - 1];
      UrlSightings(domain, entries[..|entries| - 1]) + EntrySightings(domain, e.0, IssuesOf(e.1))
  }

  /** One more URL entry of the outer loop appends that entry's sightings. */
  lemma UrlSightingsStep(seen: seq<Sighting>, domain: string, entries: UrlEntries, i: nat)
    requires i < |entries|
    ensures UrlSightings(domain, entries[..i + 1])
         == UrlSightings(domain, entries[..i]) + EntrySightings(domain, entries[i].0, IssuesOf(entries[i].1))
    ensures seen + UrlSightings(domain, entries[..i + 1])
         == (seen + UrlSightings(domain, entries[..i])) + EntrySightings(domain, entries[i].0, IssuesOf(entries[i].1))
  {
    assert entries[..i + 1][..i] == entries[..i];
  }

  /** The number of issues over all URL entries; entries without `issues` count 0. */
  function TotalIssues(entries: UrlEntries): nat
    decreases |entries|
  {
    if entries == [] then 0
    else TotalIssues(entries[..|entries| - 1]) + |IssuesOf(entries[|entries| - 1].1)|
  }

  lemma {:induction false} UrlSightingsCount(domain: string, entries: UrlEntries)
    ensures |UrlSightings(domain, entries)| == TotalIssues(entries)
  {
    if entries != [] {
      UrlSightingsCount(domain, entries[..|entries| - 1]);
    }
  }

  /** Every sighting of one domain's audit carries that domain. */
  lemma {:induction false} UrlSightingsDomain(domain: string, entries: UrlEntries)
    ensures forall p | p in UrlSightings(domain, entries) :: p.domain == domain
  {
    if entries != [] {
      UrlSightingsDomain(domain, entries[..|entries| - 1]);
    }
  }

  /** The key of every sighting, in order. */
  function KeySeq(ps: seq<Sighting>): (r: seq<string>)
    ensures |r| == |ps| && forall k | 0 <= k < |ps| :: r[k] == KeyOf(ps[k])
    decreases |ps|
  {
    if ps == [] then [] else KeySeq(ps[..|ps| - 1]) + [KeyOf(ps[|ps| - 1])]
  }

  /** The key order of the group map: distinct keys, first-seen first. */
  function KeysInOrder(ps: seq<Sighting>): seq<string> {
    Dedup(KeySeq(ps))
  }

  /** The sightings that land in the group of key `k`, in encounter order. */
  function MembersOf(ps: seq<Sighting>, k: string): (r: seq<Sighting>)
    ensures |r| <= |ps|
    decreases |ps|
  {
    if ps == [] then []
    else
      var m := MembersOf(ps[..|ps| - 1], k);
      assert ps == ps[..|ps| - 1] + [ps[|ps| - 1]];
      if KeyOf(ps[|ps| - 1]) == k then m + [ps[|ps| - 1]] else m
  }

  /** A group holds exactly the sightings that carry its key. */
  lemma {:induction false} MembersOfSpec(ps: seq<Sighting>, k: string)
    ensures forall q :: q in MembersOf(ps, k) <==> q in ps && KeyOf(q) == k
  {
    if ps != [] {
      MembersOfSpec(ps[..|ps| - 1], k);
      assert ps == ps[..|ps| - 1] + [ps[|ps| - 1]];
    }
  }

  /** The URL of each sighting, in order (the `allUrls.push(url)` sequence). */
  function Urls(ps: seq<Sighting>): (r: seq<string>)
    ensures |r| == |ps| && forall k | 0 <= k < |ps| :: r[k] == ps[k].url
    decreases |ps|
  {
    if ps == [] then [] else Urls(ps[..|ps| - 1]) + [ps[|ps| - 1].url]
  }

  /** The domain of each sighting, in order. */
  function Domains(ps: seq<Sighting>): (r: seq<string>)
    ensures |r| == |ps| && forall k | 0 <= k < |ps| :: r[k] == ps[k].domain
    decreases |ps|
  {
    if ps == [] then [] else Domains(ps[..|ps| - 1]) + [ps[|ps| - 1].domain]
  }

  /** Appending one sighting: the shape of every per-key accumulation step. */
  lemma SightingStep(ps: seq<Sighting>, p: Sighting)
    ensures KeySeq(ps + [p]) == KeySeq(ps) + [KeyOf(p)]
    ensures KeysInOrder(ps + [p])
         == if KeyOf(p) in KeysInOrder(ps) then KeysInOrder(ps) else KeysInOrder(ps) + [KeyOf(p)]
    ensures forall k :: MembersOf(ps + [p], k)
                     == MembersOf(ps, k) + (if KeyOf(p) == k then [p] else [])
  {
    assert (ps + [p])[..|ps|] == ps;
  }

  /** Appending one member to a group. */
  lemma MemberStep(ms: seq<Sighting>, p: Sighting)
    ensures Urls(ms + [p]) == Urls(ms) + [p.url]
    ensures Domains(ms + [p]) == Domains(ms) + [p.domain]
    ensures ms != [] ==> (ms + [p])[0] == ms[0]
  {
    assert (ms + [p])[..|ms|] == ms;
  }

  /** Grouping distributes over consecutive runs of sightings. */
  lemma {:induction false} MembersOfConcat(a: seq<Sighting>, b: seq<Sighting>, k: string)
    ensures MembersOf(a + b, k) == MembersOf(a, k) + MembersOf(b, k)
    decreases |b|
  {
    if b == [] {
      assert a + b == a;
    } else {
      var front := b[..|b| - 1];
      assert a + b == (a + front) + [b[|b| - 1]];
      assert (a + b)[..|a + b| - 1] == a + front;
      MembersOfConcat(a, front, k);
    }
  }

  lemma {:induction false} UrlsConcat(a: seq<Sighting>, b: seq<Sighting>)
    ensures Urls(a + b) == Urls(a) + Urls(b)
  {
  }

  /** Every key in the map is a template key, so it splits into at least three pieces. */
  lemma KeyHasThree(ps: seq<Sighting>, k: string)
    requires MembersOf(ps, k) != []
    ensures |Split(k, "|||")| >= 3
  {
    var m := MembersOf(ps, k)[0];
    MembersOfSpec(ps, k);
    assert m in MembersOf(ps, k);
    SplitKeyHasThree(m.issue.issueType, m.issue.severity, m.issue.category);
  }

  /** With bar-free fields, a group's members are exactly the sightings with the key's fields. */
  lemma MembersByFields(ps: seq<Sighting>, p: Sighting)
    requires forall q | q in ps :: BarFree(q) 
    requires BarFree(p)
    ensures forall q | q in ps ::
      (q in MembersOf(ps, KeyOf(p))) <==> SameFields(q, p)
  {
    MembersOfSpec(ps, KeyOf(p));
    forall q | q in ps ensures (q in MembersOf(ps, KeyOf(p))) <==> SameFields(q, p) {
      KeyInjective(q.issue.issueType, q.issue.severity, q.issue.category,
                   p.issue.issueType, p.issue.severity, p.issue.category);
    }
  }

  /** A key is in the map exactly when some sighting carries it; the map's keys are distinct. */
  lemma KeysInOrderSpec(ps: seq<Sighting>, k: string)
    ensures NoDup(KeysInOrder(ps))
    ensures k in KeysInOrder(ps) <==> MembersOf(ps, k) != []
  {
    DedupSpec(KeySeq(ps));
    MembersOfSpec(ps, k);
    if k in KeySeq(ps) {
      var i :| 0 <= i < |ps| && KeySeq(ps)[i] == k;
      assert ps[i] in MembersOf(ps, k);
    }
    if MembersOf(ps, k) != [] {
      assert MembersOf(ps, k)[0] in MembersOf(ps, k);
      var i :| 0 <= i < |ps| && ps[i] == MembersOf(ps, k)[0];
      assert KeySeq(ps)[i] == k;
    }
  }

  /** Σ over `keys` of the group sizes. */
  function GroupSizes(ps: seq<Sighting>, keys: seq<string>): nat
    decreases |keys|
  {
    if keys == [] then 0 else GroupSizes(ps, keys[..|keys| - 1]) + |MembersOf(ps, keys[|keys| - 1])|
  }

  /** One more sighting grows exactly the group of its key, once. */
  lemma {:induction false} GroupSizesStep(ps: seq<Sighting>, p: Sighting, keys: seq<string>)
    requires NoDup(keys)
    ensures GroupSizes(ps + [p], keys)
         == GroupSizes(ps, keys) + (if KeyOf(p) in keys then 1 else 0)
  {
    assert (ps + [p])[..|ps + [p]| - 1] == ps;
    if keys != [] {
      var front := keys[..|keys| - 1];
      assert NoDup(front);
      GroupSizesStep(ps, p, front);
      assert keys == front + [keys[|keys| - 1]];
    }
  }

  /** The group sizes add up to the number of sightings: every sighting is in exactly one group. */
  lemma {:induction false} GroupSizesTotal(ps: seq<Sighting>)
    ensures GroupSizes(ps, KeysInOrder(ps)) == |ps|
  {
    if ps != [] {
      var front := ps[..|ps| - 1];
      var p := ps[|ps| - 1];
      assert ps == front + [p];
      GroupSizesTotal(front);
      KeysInOrderSpec(front, KeyOf(p));
      GroupSizesStep(front, p, KeysInOrder(front));
      assert KeySeq(ps) == KeySeq(front) + [KeyOf(p)];
      if KeyOf(p) !in KeysInOrder(front) {
        assert KeysInOrder(ps) == KeysInOrder(front) + [KeyOf(p)];
        assert MembersOf(front, KeyOf(p)) == [];
      }
    }
  }

  /** The fields of an issue key can be recovered from it (see `SplitKeyExact`). */
  predicate BarFree(p: Sighting) {
    NoBar(p.issue.issueType) && NoBar(p.issue.severity) && NoBar(p.issue.category)
  }

  predicate SameFields(q: Sighting, p: Sighting) {
    q.issue.issueType == p.issue.issueType && q.issue.severity == p.issue.severity
    && q.issue.category == p.issue.category
  }

  /** The sightings whose issue has the given three fields, in order. */
  function WithFields(ps: seq<Sighting>, t: string, s: string, c: string): seq<Sighting>
    decreases |ps|
  {
    if ps == [] then []
    else
      var q := ps[|ps| - 1];
      WithFields(ps[..|ps| - 1], t, s, c)
        + (if q.issue.issueType == t && q.issue.severity == s && q.issue.category == c then [q] else [])
  }

  /** With bar-free fields, the group of a key is the subsequence of sightings with its fields. */
  lemma {:induction false} MembersAreFieldMatches(ps: seq<Sighting>, t: string, s: string, c: string)
    requires forall q | q in ps :: BarFree(q)
    requires NoBar(t) && NoBar(s) && NoBar(c)
    ensures MembersOf(ps, FieldsKey(t, s, c)) == WithFields(ps, t, s, c)
  {
    if ps != [] {
      var q := ps[|ps| - 1];
      assert q in ps;
      MembersAreFieldMatches(ps[..|ps| - 1], t, s, c);
      KeyInjective(q.issue.issueType, q.issue.severity, q.issue.category, t, s, c);
    }
  }

  /** The input to the split-key lemmas: a field that cannot be confused with the separator. */
  predicate NoBar(s: string) {
    forall k | 0 <= k < |s| :: s[k] != '|'
  }

  /** The leftmost `|||` of `a + "|||" + rest` is the one right after `a`, when `a` has no bar. */
  lemma SeparatorAfterField(a: string, rest: string)
    requires NoBar(a)
    ensures IndexOf(a + "|||" + rest, "|||") == |a|
  {
    var s := a + "|||" + rest;
    assert s[|a|..|a| + 3] == "|||";
    assert OccursAt(s, "|||", |a|);
    forall k | 0 <= k < |a| ensures !OccursAt(s, "|||", k) {
      assert s[k] == a[k];
      if k + 3 <= |s| {
        assert s[k..k + 3][0] == s[k];
      }
    }
  }

  /** A bar-free string contains no separator. */
  lemma NoSeparator(c: string)
    requires NoBar(c)
    ensures IndexOf(c, "|||") < 0
  {
    forall k | 0 <= k && k + 3 <= |c| ensures !OccursAt(c, "|||", k) {
      assert c[k..k + 3][0] == c[k];
    }
  }

  /** Cutting at the leftmost separator. */
  lemma SplitAt(x: string, head: string, rest: string)
    requires x == head + "|||" + rest && IndexOf(x, "|||") == |head|
    ensures Split(x, "|||") == [head] + Split(rest, "|||")
  {
    assert x[..|head|] == head;
    assert x[|head| + 3..] == rest;
  }

  /** `key.split('|||')` gives back the three fields exactly when none of them contains a bar. */
  lemma SplitKeyExact(t: string, s: string, c: string)
    requires NoBar(t) && NoBar(s) && NoBar(c)
    ensures Split(FieldsKey(t, s, c), "|||") == [t, s, c]
  {
    var rest := s + "|||" + c;
    assert FieldsKey(t, s, c) == t + "|||" + rest;
    SeparatorAfterField(t, rest);
    SplitAt(FieldsKey(t, s, c), t, rest);
    SeparatorAfterField(s, c);
    SplitAt(rest, s, c);
    NoSeparator(c);
  }

  /** Splitting at a separator that occurs at `p` gives at least two pieces. */
  lemma SplitTwo(x: string, p: int)
    requires OccursAt(x, "|||", p)
    ensures |Split(x, "|||")| >= 2
  {
  }

  /** Two non-overlapping separators give at least three pieces. */
  lemma SplitThree(x: string, p: int, q: int)
    requires OccursAt(x, "|||", p) && OccursAt(x, "|||", q) && q >= p + 3
    ensures |Split(x, "|||")| >= 3
  {
    var i := IndexOf(x, "|||");
    var rest := x[i + 3..];
    assert x[q..q + 3] == rest[q - i - 3..q - i];
    SplitTwo(rest, q - i - 3);
  }

  /** So destructuring the first three pieces of any key never reads past the end. */
  lemma SplitKeyHasThree(t: string, s: string, c: string)
    ensures |Split(FieldsKey(t, s, c), "|||")| >= 3
  {
    var key := FieldsKey(t, s, c);
    assert key[|t|..|t| + 3] == "|||";
    assert key[|t| + 3 + |s|..|t| + 3 + |s| + 3] == "|||";
    SplitThree(key, |t|, |t| + 3 + |s|);
  }

  /** With bar-free fields, two issues share a key exactly when all three fields agree. */
  lemma KeyInjective(t1: string, s1: string, c1: string, t2: string, s2: string, c2: string)
    requires NoBar(t1) && NoBar(s1) && NoBar(c1) && NoBar(t2) && NoBar(s2) && NoBar(c2)
    ensures FieldsKey(t1, s1, c1) == FieldsKey(t2, s2, c2) <==> (t1, s1, c1) == (t2, s2, c2)
  {
    if FieldsKey(t1, s1, c1) == FieldsKey(t2, s2, c2) {
      SplitKeyExact(t1, s1, c1);
      SplitKeyExact(t2, s2, c2);
    }
  }

  /** Fields that contain the separator can make different issues share one key. */
  lemma KeyCollision()
    ensures FieldsKey("a|||b", "c", "d") == FieldsKey("a", "b|||c", "d")
  {
  }

  /**
   * A field that ends in a bar is cut short even though it holds no `|||`: for `"a|"` the key
   * is `"a||||high|||content"` and the recovered issue_type is `"a"`.
   */
  lemma KeyMisread(t: string, s: string, c: string)
    requires |t| >= 1 && t[|t| - 1] == '|' && NoBar(t[..|t| - 1])
    ensures |Split(FieldsKey(t, s, c), "|||")| >= 3
    ensures Split(FieldsKey(t, s, c), "|||")[0] == t[..|t| - 1] != t
  {
    var t' := t[..|t| - 1];
    var rest := "|" + s + "|||" + c;
    assert FieldsKey(t, s, c) == t' + "|||" + rest;
    SeparatorAfterField(t', rest);
    SplitAt(FieldsKey(t, s, c), t', rest);
    SplitKeyHasThree(t, s, c);
  }
}
