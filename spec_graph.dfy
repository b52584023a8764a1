/**
 * The two table stages of the spec dependency graph
 * (src/lib/agents/ticket-creation/specs/migration-specs/build-dependency-graph.js): the
 * source-path to spec table built from every spec file, and the resolution of each spec's
 * listed dependencies through that table. The spec directory is a map from a spec's path
 * (relative to the directory) to the lines of the file; reading and listing it is not modelled.
 */
module SpecGraph {
  import opened Wrappers
  import opened JsString
  import opened Records
  import opened SpecPaths
  import opened SpecParsers
  import opened Seqs

  /** The spec files: each path relative to the spec directory, with the lines of the file. */
  type SpecDir = map<string, seq<string>>

  /**
   * The file `path.join(SPECS_DIR, specPath)` reads, relative to the spec directory: the path
   * normalized, so "./", "//", "." and `name/..` segments and a leading '/' make no difference.
   */
  function SpecFileOf(specPath: string): (r: string)
    ensures r != ""
  {
    PosixJoin(".", specPath)
  }

  // ---- the directory-import alias ----

  /** `normalized.replace('/index', '')` as written: a string pattern, so the FIRST "/index" goes. */
  function AliasAsWritten(n: string): string {
    ReplaceFirst(n, "/index", "")
  }

  /** The key a directory import uses for a module path ending in "/index": the path without that suffix. */
  function AliasKey(n: string): (r: string)
    requires EndsWith(n, "/index")
    ensures r + "/index" == n
  {
    n[..|n| - 6]
  }

  /** When the ending is the only "/index" in the path, the code as written drops exactly the suffix. */
  lemma AliasAgrees(n: string)
    requires EndsWith(n, "/index")
    requires forall k | 0 <= k < |n| - 6 :: !OccursAt(n, "/index", k)
    ensures AliasAsWritten(n) == AliasKey(n)
  {
    assert OccursAt(n, "/index", |n| - 6);
    var i := IndexOf(n, "/index");
    assert i == |n| - 6;
    assert n[i + 6..] == [];
  }

  /**
   * A directory whose name starts with "index" before the final "/index": the code as written
   * cuts the earlier occurrence, so `lib/index-utils/index` is filed as `lib-utils/index`
   * instead of `lib/index-utils`.
   */
  lemma AliasMisreads(dir: string, name: string)
    requires NoSlash(dir) && name != "" && NoSlash(name)
    ensures EndsWith(dir + "/index" + name + "/index", "/index")
    ensures AliasAsWritten(dir + "/index" + name + "/index") == dir + name + "/index"
    ensures AliasAsWritten(dir + "/index" + name + "/index") != AliasKey(dir + "/index" + name + "/index")
  {
    var n := dir + "/index" + name + "/index";
    assert n[|dir|..|dir| + 6] == "/index";
    assert OccursAt(n, "/index", |dir|);
    forall k | 0 <= k < |dir| ensures !OccursAt(n, "/index", k) {
      assert n[k] == dir[k];
      assert n[k..k + 6][0] == n[k];
    }
    var i := IndexOf(n, "/index");
    assert i == |dir|;
    assert n[..i] == dir;
    assert n[i + 6..] == name + "/index";
    var key := AliasKey(n);
    assert key == dir + "/index" + name;
    assert key[|dir|] == '/';
    assert (dir + name + "/index")[|dir|] == name[0];
  }

  /** A path that is "/index" twice shows agreement without a single occurrence: both give "/index". */
  lemma AliasDoubleIndex()
    ensures AliasAsWritten("/index" + "/index") == AliasKey("/index" + "/index")
  {
    var x := "/index";
    var n := x + x;
    assert n[..6] == x;
    assert OccursAt(n, x, 0);
    assert IndexOf(n, x) == 0;
    assert n[6..] == x;
  }

  // ---- the source to spec table ----

  /** `normalizePath(getSourceFile(spec))` for the lines of a spec file. */
  function NormalizedSource(lines: seq<string>): Option<string> {
    NormalizePath(SourceFile(lines))
  }

  /** The keys a spec is filed under: its normalized source, then, when it ends in "/index", the alias the code computes (first "/index" removed). */
  function Filed(lines: seq<string>): (r: seq<string>)
    ensures |r| <= 2
  {
    var src := SourceFile(lines);
    if !Truthy(src) then []
    else
      var n := NormalizePath(src).value;
      if n == "" then [] else if EndsWith(n, "/index") then [n, AliasAsWritten(n)] else [n]
  }

  /** What the first stage reads from one spec file: whether a source was found, and the keys it files. */
  datatype SpecFacts = SpecFacts(path: string, hasSource: bool, keys: seq<string>)

  function FactsOfSpec(path: string, lines: seq<string>): SpecFacts {
    SpecFacts(path, Truthy(SourceFile(lines)), Filed(lines))
  }

  /** Every spec in the list is a file of the directory (the list is the directory's own listing). */
  predicate Listed(dir: SpecDir, specs: seq<string>) {
    forall i | 0 <= i < |specs| :: specs[i] in dir
  }

  /** The facts of a file of the directory. */
  function FactsIn(dir: SpecDir): string -> SpecFacts {
    p => if p in dir then FactsOfSpec(p, dir[p]) else SpecFacts(p, false, [])
  }

  /** The facts of each spec file, in listing order. */
  function Listing(dir: SpecDir, specs: seq<string>): (r: seq<SpecFacts>)
    requires Listed(dir, specs)
    ensures |r| == |specs|
  {
    MapSeq(FactsIn(dir), specs)
  }

  lemma ListingAt(dir: SpecDir, specs: seq<string>, k: nat)
    requires Listed(dir, specs) && k < |specs|
    ensures Listing(dir, specs)[k] == FactsOfSpec(specs[k], dir[specs[k]])
  {
    MapSeqAt(FactsIn(dir), specs, k);
    assert specs[k] in dir;
  }

  /** The three things the first stage leaves behind. */
  datatype SourceIndex = SourceIndex(sourceToSpec: Entries<string>, found: nat, missing: seq<string>)

  /** Files `spec` under each key in turn (`Map.set`, so a later spec overwrites). */
  function FileUnder(t: Entries<string>, keys: seq<string>, spec: string): Entries<string>
    decreases |keys|
  {
    if keys == [] then t else FileUnder(Assign(t, keys[0], spec), keys[1..], spec)
  }

  /** One iteration of the `specFiles.forEach` that builds the table. */
  function AddSpec(ix: SourceIndex, f: SpecFacts): SourceIndex {
    if !f.hasSource then
      if |ix.missing| < 10 then ix.(missing := ix.missing + [f.path]) else ix
    else ix.(sourceToSpec := FileUnder(ix.sourceToSpec, f.keys, f.path), found := ix.found + 1)
  }

  /** The first stage over the spec files in listing order. */
  function Table(ls: seq<SpecFacts>): SourceIndex
    decreases |ls|
  {
    if ls == [] then SourceIndex([], 0, [])
    else AddSpec(Table(ls[..|ls| - 1]), ls[|ls| - 1])
  }

  lemma FileUnderSmall(t: Entries<string>, a: string, b: string, spec: string)
    ensures FileUnder(t, [], spec) == t
    ensures FileUnder(t, [a], spec) == Assign(t, a, spec)
    ensures FileUnder(t, [a, b], spec) == Assign(Assign(t, a, spec), b, spec)
  {
    assert [a][1..] == [];
    assert [a, b][1..] == [b];
    assert [b][1..] == [];
    var t1 := Assign(t, a, spec);
    assert FileUnder(t1, [], spec) == t1;
    assert FileUnder(Assign(t1, b, spec), [], spec) == Assign(t1, b, spec);
    assert FileUnder(t1, [b], spec) == Assign(t1, b, spec);
  }

  lemma TableSnoc(ls: seq<SpecFacts>, i: nat)
    requires i < |ls|
    ensures Table(ls[..i + 1]) == AddSpec(Table(ls[..i]), ls[i])
  {
    assert ls[..i + 1][..i] == ls[..i];
  }

  /** The loop that builds the source to spec table. */
  method BuildSourceIndex(dir: SpecDir, specFiles: seq<string>) returns (ix: SourceIndex)
    requires Listed(dir, specFiles)
    ensures ix == Table(Listing(dir, specFiles))
  {
    ghost var ls := Listing(dir, specFiles);
    var sourceToSpec: Entries<string> := [];
    var foundSourceFiles := 0;
    var missingSourceFiles: seq<string> := [];
    var i := 0;
    while i < |specFiles|
      invariant 0 <= i <= |specFiles|
      invariant SourceIndex(sourceToSpec, foundSourceFiles, missingSourceFiles) == Table(ls[..i])
    {
      var specPath := specFiles[i];
      ghost var before := SourceIndex(sourceToSpec, foundSourceFiles, missingSourceFiles);
      TableSnoc(ls, i);
      ListingAt(dir, specFiles, i);
      var sourceFile := GetSourceFile(dir[specPath]);
      ghost var keys := Filed(dir[specPath]);
      if Truthy(sourceFile) {
        foundSourceFiles := foundSourceFiles + 1;
        var normalized := NormalizePath(sourceFile).value;
        if normalized != "" {
          sourceToSpec := Assign(sourceToSpec, normalized, specPath);
          if EndsWith(normalized, "/index") {
            sourceToSpec := Assign(sourceToSpec, AliasAsWritten(normalized), specPath);
            assert keys == [normalized, AliasAsWritten(normalized)];
          } else {
            assert keys == [normalized];
          }
        } else {
          assert keys == [];
        }
        FileUnderSmall(before.sourceToSpec, normalized, if EndsWith(normalized, "/index") then AliasAsWritten(normalized) else "", specPath);
      } else {
        if |missingSourceFiles| < 10 {
          missingSourceFiles := missingSourceFiles + [specPath];
        }
      }
      i := i + 1;
    }
    assert ls[..|specFiles|] == ls;
    ix := SourceIndex(sourceToSpec, foundSourceFiles, missingSourceFiles);
  }

  /** The specs whose source file is found (`found`) or not (`!found`), in listing order. */
  function Paths(ls: seq<SpecFacts>, found: bool): seq<string>
    decreases |ls|
  {
    if ls == [] then []
    else
      var f := ls[|ls| - 1];
      Paths(ls[..|ls| - 1], found) + (if f.hasSource == found then [f.path] else [])
  }

  function Min(a: int, b: int): int {
    if a < b then a else b
  }

  /**
   * `foundSourceFiles` counts the specs with a source file, and `missingSourceFiles` holds the
   * first ten (at most) of the others, in order.
   */
  lemma {:induction false} TableCounts(ls: seq<SpecFacts>)
    ensures Table(ls).found == |Paths(ls, true)|
    ensures Table(ls).missing == Paths(ls, false)[..Min(10, |Paths(ls, false)|)]
    decreases |ls|
  {
    if ls != [] {
      var n := |ls| - 1;
      TableCounts(ls[..n]);
      var w := Paths(ls[..n], false);
      if !ls[n].hasSource && |w| < 10 {
        assert (w + [ls[n].path])[..|w| + 1] == w[..|w|] + [ls[n].path];
      } else if !ls[n].hasSource {
        assert (w + [ls[n].path])[..10] == w[..10];
      }
    }
  }

  /** The spec a key was last filed by: the later spec wins, since `Map.set` overwrites. */
  function LastFiled(ls: seq<SpecFacts>, key: string): (r: Option<string>)
    ensures r.Some? ==> exists i | 0 <= i < |ls| :: ls[i].path == r.value && ls[i].hasSource && key in ls[i].keys
    ensures r.None? ==> forall i | 0 <= i < |ls| && ls[i].hasSource :: key !in ls[i].keys
    decreases |ls|
  {
    if ls == [] then None
    else
      var n := |ls| - 1;
      if ls[n].hasSource && key in ls[n].keys then Some(ls[n].path) else LastFiled(ls[..n], key)
  }

  lemma {:induction false} FileUnderLookup(t: Entries<string>, keys: seq<string>, spec: string, key: string)
    ensures Lookup(FileUnder(t, keys, spec), key) == if key in keys then Some(spec) else Lookup(t, key)
    decreases |keys|
  {
    if keys != [] {
      FileUnderLookup(Assign(t, keys[0], spec), keys[1..], spec, key);
      LookupAssign(t, keys[0], spec, key);
      assert key in keys <==> key == keys[0] || key in keys[1..];
    }
  }

  /**
   * The table answers every key with the last spec filed under it, and knows no other key; so
   * every spec the table names is one of the spec files.
   */
  lemma {:induction false} TableLookup(ls: seq<SpecFacts>, key: string)
    ensures Lookup(Table(ls).sourceToSpec, key) == LastFiled(ls, key)
    decreases |ls|
  {
    if ls != [] {
      var n := |ls| - 1;
      TableLookup(ls[..n], key);
      if ls[n].hasSource {
        FileUnderLookup(Table(ls[..n]).sourceToSpec, ls[n].keys, ls[n].path, key);
      }
    }
  }

  /** On a real spec directory, the table names only spec files. */
  lemma TableTargets(dir: SpecDir, specFiles: seq<string>, key: string)
    requires Listed(dir, specFiles)
    ensures Lookup(Table(Listing(dir, specFiles)).sourceToSpec, key).Some? ==>
      Lookup(Table(Listing(dir, specFiles)).sourceToSpec, key).value in specFiles
  {
    var ls := Listing(dir, specFiles);
    TableLookup(ls, key);
    var r := LastFiled(ls, key);
    if r.Some? {
      var i :| 0 <= i < |ls| && ls[i].path == r.value && ls[i].hasSource && key in ls[i].keys;
      ListingAt(dir, specFiles, i);
    }
  }

  // ---- resolving each spec's dependencies ----

  /** A dependency that was found in the table, with the spec it leads to. */
  datatype ResolvedDep = ResolvedDep(path: string, spec: string)

  /** A dependency whose resolved path is not in the table. */
  datatype Unresolved = Unresolved(spec: string, dependency: string, resolvedPath: string)

  /** What the second stage leaves behind: each spec's resolved list, and the misses in order. */
  datatype Resolution = Resolution(resolved: Entries<seq<ResolvedDep>>, unresolved: seq<Unresolved>)

  /** What happens to one listed dependency. */
  datatype DepOutcome = Dropped | Found(target: string) | Missing(resolvedPath: string)

  function Outcome(table: Entries<string>, source: Option<string>, dep: string): DepOutcome {
    var rp := ResolveDependencyPath(source, Some(dep));
    if !Truthy(rp) then Dropped
    else
      var t := Lookup(table, rp.value);
      if Truthy(t) then Found(t.value) else Missing(rp.value)
  }

  /** The found dependencies of a spec, in list order. */
  function ResolvedOf(table: Entries<string>, source: Option<string>, deps: seq<string>): (r: seq<ResolvedDep>)
    ensures |r| <= |deps|
    decreases |deps|
  {
    if deps == [] then []
    else
      var n := |deps| - 1;
      var o := Outcome(table, source, deps[n]);
      ResolvedOf(table, source, deps[..n]) + (if o.Found? then [ResolvedDep(deps[n], o.target)] else [])
  }

  /** The missed dependencies of a spec, in list order. */
  function UnresolvedOf(table: Entries<string>, source: Option<string>, specPath: string, deps: seq<string>): (r: seq<Unresolved>)
    ensures |r| <= |deps|
    decreases |deps|
  {
    if deps == [] then []
    else
      var n := |deps| - 1;
      var o := Outcome(table, source, deps[n]);
      UnresolvedOf(table, source, specPath, deps[..n])
        + (if o.Missing? then [Unresolved(specPath, deps[n], o.resolvedPath)] else [])
  }

  /** How many dependencies of a spec are silently dropped (no resolved path). */
  function DroppedCount(table: Entries<string>, source: Option<string>, deps: seq<string>): nat
    decreases |deps|
  {
    if deps == [] then 0
    else
      var n := |deps| - 1;
      DroppedCount(table, source, deps[..n]) + (if Outcome(table, source, deps[n]).Dropped? then 1 else 0)
  }

  /** What resolving one entry of the index gives: whether its spec file exists, and its two lists. */
  datatype EntryFacts = EntryFacts(spec: string, present: bool, resolved: seq<ResolvedDep>, unresolved: seq<Unresolved>)

  /**
   * One entry of the index: its spec file is read at `path.join(SPECS_DIR, specPath)`, while the
   * entry keeps the index's own spelling of the path as its key.
   */
  function EntryOf(dir: SpecDir, table: Entries<string>, specPath: string, deps: seq<string>): (r: EntryFacts)
    ensures r.spec == specPath && (r.present <==> SpecFileOf(specPath) in dir)
    ensures r.present ==> forall u | u in r.unresolved :: u.spec == specPath
  {
    var fullPath := SpecFileOf(specPath);
    if fullPath !in dir then EntryFacts(specPath, false, [], [])
    else
      var src := NormalizedSource(dir[fullPath]);
      ResolvedMeaning(table, src, specPath, deps);
      EntryFacts(specPath, true, ResolvedOf(table, src, deps), UnresolvedOf(table, src, specPath, deps))
  }

  /** A path as the directory listing gives it (plain segments joined by '/') is read as it is. */
  lemma SpecFileOfListed(segs: seq<string>)
    requires segs != [] && AllPlain(segs)
    ensures SpecFileOf(Join(segs, "/")) == Join(segs, "/")
  {
    JoinFirst(segs);
    DotSegments(segs);
    NormalizeRelative(["."] + segs);
    DotCanon(segs);
    DotJoin(segs);
  }

  lemma DotJoin(segs: seq<string>)
    requires segs != []
    ensures Join(["."] + segs, "/") == "." + "/" + Join(segs, "/")
  {
    JoinAppend(["."], segs, "/");
  }

  lemma DotCanon(segs: seq<string>)
    requires AllPlain(segs)
    ensures Canon(["."] + segs, true) == segs
  {
    CanonAppendPlain(["."], segs, true);
    assert Canon(["."], true) == [];
  }

  lemma DotSegments(segs: seq<string>)
    requires segs != [] && AllPlain(segs)
    ensures var all := ["."] + segs;
      all[0] != "" && all[0][0] != '/' && Plain(all[|all| - 1])
      && forall k | 0 <= k < |all| :: NoSlash(all[k])
  {
    var all := ["."] + segs;
    forall k | 0 <= k < |all| ensures NoSlash(all[k]) {
      if k == 0 {
        assert all[0] == ".";
      } else {
        assert all[k] == segs[k - 1];
      }
    }
    assert all[|all| - 1] == segs[|segs| - 1];
  }

  /** `a//b`, `a/./b` and `a/name/../b` name the spec file `a/b` names. */
  lemma SpecFileOfDropsNeutral(a: string, m: string, b: string)
    requires Neutral(Split(m, "/"))
    ensures SpecFileOf(a + "/" + m + "/" + b) == SpecFileOf(a + "/" + b)
  {
    JoinedAtDot(a, m, b);
    NormalizeDropsNeutral("." + "/" + a, m, b);
  }

  lemma JoinedAtDot(a: string, m: string, b: string)
    ensures "." + "/" + (a + "/" + m + "/" + b) == ("." + "/" + a) + "/" + m + "/" + b
    ensures "." + "/" + (a + "/" + b) == ("." + "/" + a) + "/" + b
  {
  }

  /** A leading "./" or '/' makes no difference: `./p` and `/p` both read the file `p` names. */
  lemma SpecFileOfLeading(p: string)
    requires p != ""
    ensures SpecFileOf("./" + p) == SpecFileOf(p)
    ensures SpecFileOf("/" + p) == SpecFileOf(p)
  {
    NeutralTexts("");
    LeadingTexts(p);
    NormalizeDropsNeutral(".", ".", p);
    NormalizeDropsNeutral(".", "", p);
  }

  lemma LeadingTexts(p: string)
    ensures "." + "/" + ("./" + p) == "." + "/" + "." + "/" + p
    ensures "." + "/" + ("/" + p) == "." + "/" + "" + "/" + p
  {
  }

  /**
   * The index line `spec: ./a.yaml` next to the spec file `a.yaml`: the entry's file is found and
   * resolution goes on, with the entry still keyed `./a.yaml`.
   */
  lemma IndexDotSlashEntry()
    ensures var e := EntryOf(map["a.yaml" := []], [], "./a.yaml", []);
      e.present && e.spec == "./a.yaml" && ResolveAll([e]).Ok?
  {
    var name := "a.yaml";
    assert Plain(name) by {
      assert forall k | 0 <= k < |name| :: name[k] != '/';
    }
    SpecFileOfListed([name]);
    SpecFileOfLeading(name);
    assert "./" + name == "./a.yaml";
    var e := EntryOf(map[name := []], [], "./a.yaml", []);
    assert ResolveAll([e]) == ResolveEntry(Resolution([], []), e) by {
      assert [e][..0] == [];
    }
  }

  /** The facts of each entry of the index, in insertion order. */
  function EntriesOf(dir: SpecDir, table: Entries<string>, specDeps: Entries<seq<string>>): (r: seq<EntryFacts>)
    ensures |r| == |specDeps|
    decreases |specDeps|
  {
    if specDeps == [] then []
    else
      var n := |specDeps| - 1;
      EntriesOf(dir, table, specDeps[..n]) + [EntryOf(dir, table, specDeps[n].0, specDeps[n].1)]
  }

  lemma {:induction false} EntriesOfAt(dir: SpecDir, table: Entries<string>, specDeps: Entries<seq<string>>, k: nat)
    requires k < |specDeps|
    ensures EntriesOf(dir, table, specDeps)[k] == EntryOf(dir, table, specDeps[k].0, specDeps[k].1)
    decreases |specDeps|
  {
    var n := |specDeps| - 1;
    if k < n {
      EntriesOfAt(dir, table, specDeps[..n], k);
    }
  }

  /** One iteration of `specDeps.forEach`: reading a spec file that does not exist throws. */
  function ResolveEntry(res: Resolution, e: EntryFacts): Result<Resolution> {
    if !e.present then Err(e.spec)
    else Ok(Resolution(Assign(res.resolved, e.spec, e.resolved), res.unresolved + e.unresolved))
  }

  /** The second stage over the entries of `parseDependencies`, in insertion order; the first error ends it. */
  function ResolveAll(es: seq<EntryFacts>): Result<Resolution>
    decreases |es|
  {
    if es == [] then Ok(Resolution([], []))
    else
      var before := ResolveAll(es[..|es| - 1]);
      if before.Err? then before else ResolveEntry(before.value, es[|es| - 1])
  }

  /** An error ends the stage: the later entries are not looked at. */
  lemma {:induction false} ErrSticks(es: seq<EntryFacts>, n: nat)
    requires n <= |es| && ResolveAll(es[..n]).Err?
    ensures ResolveAll(es) == ResolveAll(es[..n])
    decreases |es|
  {
    if n < |es| {
      var m := |es| - 1;
      assert es[..m][..n] == es[..n];
      ErrSticks(es[..m], n);
    } else {
      assert es[..n] == es;
    }
  }

  lemma ResolveAllSnoc(es: seq<EntryFacts>, i: nat)
    requires i < |es|
    ensures ResolveAll(es[..i + 1]) ==
      if ResolveAll(es[..i]).Err? then ResolveAll(es[..i]) else ResolveEntry(ResolveAll(es[..i]).value, es[i])
  {
    assert es[..i + 1][..i] == es[..i];
  }

  /** The inner `deps.forEach` of the second stage: the found list, and the misses in order. */
  method ResolveSpecDeps(table: Entries<string>, normalizedSource: Option<string>, specPath: string, deps: seq<string>)
    returns (resolved: seq<ResolvedDep>, missed: seq<Unresolved>)
    ensures resolved == ResolvedOf(table, normalizedSource, deps)
    ensures missed == UnresolvedOf(table, normalizedSource, specPath, deps)
  {
    resolved := [];
    missed := [];
    var j := 0;
    while j < |deps|
      invariant 0 <= j <= |deps|
      invariant resolved == ResolvedOf(table, normalizedSource, deps[..j])
      invariant missed == UnresolvedOf(table, normalizedSource, specPath, deps[..j])
    {
      var dep := deps[j];
      assert deps[..j + 1][..j] == deps[..j];
      var resolvedPath := ResolveDependencyPath(normalizedSource, Some(dep));
      if Truthy(resolvedPath) {
        var targetSpec := Lookup(table, resolvedPath.value);
        if Truthy(targetSpec) {
          resolved := resolved + [ResolvedDep(dep, targetSpec.value)];
        } else {
          missed := missed + [Unresolved(specPath, dep, resolvedPath.value)];
        }
      }
      j := j + 1;
    }
    assert deps[..|deps|] == deps;
  }

  /** The outer `specDeps.forEach` of the second stage. */
  method ResolveDependencies(dir: SpecDir, table: Entries<string>, specDeps: Entries<seq<string>>)
    returns (r: Result<Resolution>)
    ensures r == ResolveAll(EntriesOf(dir, table, specDeps))
  {
    ghost var es := EntriesOf(dir, table, specDeps);
    var resolvedDeps: Entries<seq<ResolvedDep>> := [];
    var unresolvedDeps: seq<Unresolved> := [];
    var i := 0;
    while i < |specDeps|
      invariant 0 <= i <= |specDeps|
      invariant ResolveAll(es[..i]) == Ok(Resolution(resolvedDeps, unresolvedDeps))
    {
      var (specPath, deps) := specDeps[i];
      var fullPath := SpecFileOf(specPath);
      if fullPath !in dir {
        ResolveStops(dir, table, specDeps, i);
        return Err(specPath);
      }
      var sourceFile := GetSourceFile(dir[fullPath]);
      var normalizedSource := NormalizePath(sourceFile);
      var resolved, missed := ResolveSpecDeps(table, normalizedSource, specPath, deps);
      ResolveGoesOn(dir, table, specDeps, i, Resolution(resolvedDeps, unresolvedDeps));
      unresolvedDeps := unresolvedDeps + missed;
      resolvedDeps := Assign(resolvedDeps, specPath, resolved);
      i := i + 1;
    }
    assert es[..|specDeps|] == es;
    return Ok(Resolution(resolvedDeps, unresolvedDeps));
  }

  /** An entry whose spec file does not exist is the error of the whole stage. */
  lemma ResolveStops(dir: SpecDir, table: Entries<string>, specDeps: Entries<seq<string>>, i: nat)
    requires i < |specDeps| && SpecFileOf(specDeps[i].0) !in dir
    requires ResolveAll(EntriesOf(dir, table, specDeps)[..i]).Ok?
    ensures ResolveAll(EntriesOf(dir, table, specDeps)) == Err(specDeps[i].0)
  {
    var es := EntriesOf(dir, table, specDeps);
    ResolveAllSnoc(es, i);
    EntriesOfAt(dir, table, specDeps, i);
    ErrSticks(es, i + 1);
  }

  /** An entry whose spec file exists adds its found list and its misses. */
  lemma ResolveGoesOn(dir: SpecDir, table: Entries<string>, specDeps: Entries<seq<string>>, i: nat, res: Resolution)
    requires i < |specDeps| && SpecFileOf(specDeps[i].0) in dir
    requires ResolveAll(EntriesOf(dir, table, specDeps)[..i]) == Ok(res)
    ensures var (p, deps) := specDeps[i];
      var src := NormalizedSource(dir[SpecFileOf(p)]);
      ResolveAll(EntriesOf(dir, table, specDeps)[..i + 1])
        == Ok(Resolution(Assign(res.resolved, p, ResolvedOf(table, src, deps)),
                         res.unresolved + UnresolvedOf(table, src, p, deps)))
  {
    var es := EntriesOf(dir, table, specDeps);
    ResolveAllSnoc(es, i);
    EntriesOfAt(dir, table, specDeps, i);
  }

  /** Every listed dependency is found, missed or dropped, exactly one of the three. */
  lemma {:induction false} OutcomesPartition(table: Entries<string>, source: Option<string>, specPath: string, deps: seq<string>)
    ensures |ResolvedOf(table, source, deps)| + |UnresolvedOf(table, source, specPath, deps)|
      + DroppedCount(table, source, deps) == |deps|
    decreases |deps|
  {
    if deps != [] {
      OutcomesPartition(table, source, specPath, deps[..|deps| - 1]);
    }
  }

  /** A spec whose own source file is not found loses every dependency, silently. */
  lemma {:induction false} NoSourceDropsAll(table: Entries<string>, source: Option<string>, specPath: string, deps: seq<string>)
    requires !Truthy(source)
    ensures ResolvedOf(table, source, deps) == [] && UnresolvedOf(table, source, specPath, deps) == []
    ensures DroppedCount(table, source, deps) == |deps|
    decreases |deps|
  {
    if deps != [] {
      NoSourceDropsAll(table, source, specPath, deps[..|deps| - 1]);
    }
  }

  /**
   * Every found dependency is one of the spec's listed paths, and leads to the spec the table
   * holds for its resolved path; a miss carries its resolved path, which the table lacks.
   */
  lemma {:induction false} ResolvedMeaning(table: Entries<string>, source: Option<string>, specPath: string, deps: seq<string>)
    ensures forall d | d in ResolvedOf(table, source, deps) ::
      d.path in deps && Truthy(ResolveDependencyPath(source, Some(d.path)))
      && Lookup(table, ResolveDependencyPath(source, Some(d.path)).value) == Some(d.spec) && d.spec != ""
    ensures forall u | u in UnresolvedOf(table, source, specPath, deps) ::
      u.spec == specPath && u.dependency in deps
      && ResolveDependencyPath(source, Some(u.dependency)) == Some(u.resolvedPath) && u.resolvedPath != ""
      && !Truthy(Lookup(table, u.resolvedPath))
    decreases |deps|
  {
    if deps != [] {
      var n := |deps| - 1;
      ResolvedMeaning(table, source, specPath, deps[..n]);
      assert forall x | x in deps[..n] :: x in deps;
    }
  }

  /** With the table of the first stage, every found dependency leads to one of the spec files. */
  lemma ResolvedTargetsAreSpecs(dir: SpecDir, specFiles: seq<string>, source: Option<string>, specPath: string, deps: seq<string>)
    requires Listed(dir, specFiles)
    ensures forall d | d in ResolvedOf(Table(Listing(dir, specFiles)).sourceToSpec, source, deps) :: d.spec in specFiles
  {
    var table := Table(Listing(dir, specFiles)).sourceToSpec;
    ResolvedMeaning(table, source, specPath, deps);
    forall d | d in ResolvedOf(table, source, deps) ensures d.spec in specFiles {
      TableTargets(dir, specFiles, ResolveDependencyPath(source, Some(d.path)).value);
    }
  }

  /**
   * The second stage fails exactly when some entry's spec file is missing, and otherwise gives
   * every entry's spec its resolved list and no other spec one.
   */
  lemma ResolveAllOutcome(es: seq<EntryFacts>, key: string)
    ensures ResolveAll(es).Err? <==> exists i | 0 <= i < |es| :: !es[i].present
    ensures ResolveAll(es).Ok? ==>
      (HasKey(ResolveAll(es).value.resolved, key) <==> exists i | 0 <= i < |es| :: es[i].spec == key)
  {
    ResolveAllFails(es);
    ResolveAllKeys(es, key);
  }

  lemma {:induction false} ResolveAllFails(es: seq<EntryFacts>)
    ensures ResolveAll(es).Err? <==> exists i | 0 <= i < |es| :: !es[i].present
    decreases |es|
  {
    if es != [] {
      var n := |es| - 1;
      var front := es[..n];
      ResolveAllFails(front);
      var before := ResolveAll(front);
      assert ResolveAll(es) == if before.Err? then before else ResolveEntry(before.value, es[n]);
      if exists i | 0 <= i < |es| :: !es[i].present {
        var i :| 0 <= i < |es| && !es[i].present;
        if i < n {
          assert !front[i].present;
        }
      }
      if exists i | 0 <= i < n :: !front[i].present {
        var i :| 0 <= i < n && !front[i].present;
        assert !es[i].present;
      }
    }
  }

  lemma {:induction false} ResolveAllKeys(es: seq<EntryFacts>, key: string)
    ensures ResolveAll(es).Ok? ==>
      (HasKey(ResolveAll(es).value.resolved, key) <==> exists i | 0 <= i < |es| :: es[i].spec == key)
    decreases |es|
  {
    if es != [] && ResolveAll(es).Ok? {
      var n := |es| - 1;
      var front := es[..n];
      ResolveAllKeys(front, key);
      var before := ResolveAll(front);
      assert ResolveAll(es) == if before.Err? then before else ResolveEntry(before.value, es[n]);
      assert before.Ok? && es[n].present;
      var t := before.value.resolved;
      assert ResolveAll(es).value.resolved == Assign(t, es[n].spec, es[n].resolved);
      LookupAssign(t, es[n].spec, es[n].resolved, key);
      HasKeyLookup(t, key);
      HasKeyLookup(Assign(t, es[n].spec, es[n].resolved), key);
      if exists i | 0 <= i < |es| :: es[i].spec == key {
        var i :| 0 <= i < |es| && es[i].spec == key;
        if i < n {
          assert front[i].spec == key;
        }
      }
      if exists i | 0 <= i < n :: front[i].spec == key {
        var i :| 0 <= i < n && front[i].spec == key;
        assert es[i].spec == key;
      }
    }
  }

  /**
   * On the entries of the index: the stage fails exactly when some entry's joined spec file does
   * not exist, and otherwise its keys are the index's own spellings of the spec paths.
   */
  lemma ResolveIndex(dir: SpecDir, table: Entries<string>, specDeps: Entries<seq<string>>, key: string)
    ensures ResolveAll(EntriesOf(dir, table, specDeps)).Err? <==>
      exists i | 0 <= i < |specDeps| :: SpecFileOf(specDeps[i].0) !in dir
    ensures ResolveAll(EntriesOf(dir, table, specDeps)).Ok? ==>
      (HasKey(ResolveAll(EntriesOf(dir, table, specDeps)).value.resolved, key) <==> HasKey(specDeps, key))
  {
    var es := EntriesOf(dir, table, specDeps);
    ResolveAllOutcome(es, key);
    forall i | 0 <= i < |specDeps| ensures es[i].spec == specDeps[i].0 && (es[i].present <==> SpecFileOf(specDeps[i].0) in dir) {
      EntriesOfAt(dir, table, specDeps, i);
    }
  }
}
