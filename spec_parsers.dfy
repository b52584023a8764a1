/**
 * The two line-based YAML readers of the build-time spec dependency graph
 * (src/lib/agents/ticket-creation/specs/migration-specs/build-dependency-graph.js):
 * `getSourceFile`, which finds the source path a spec describes, and `parseDependencies`,
 * which collects the dependency list of every spec in `index.yaml`. Both work on the lines of
 * a file split on '\n'; reading the file is not part of the model.
 */
module SpecParsers {
  import opened Wrappers
  import opened JsString
  import opened Records
  import opened Seqs

  /** The longest prefix of `s` whose characters all satisfy `p` (a greedy `[...]+` run). */
  function Span(s: string, p: char -> bool): (r: string)
    ensures r <= s
    ensures forall k | 0 <= k < |r| :: p(r[k])
    ensures |r| == |s| || !p(s[|r|])
    decreases |s|
  {
    if s != [] && p(s[0]) then [s[0]] + Span(s[1..], p) else []
  }

  /** `line.split(':').slice(1).join(':').trim()`. */
  function AfterColon(line: string): string {
    Trim(Join(Split(line, ":")[1..], ":"))
  }

  /** What `AfterColon` reads is everything after the FIRST ':', colons included. */
  lemma AfterColonOf(key: string, rest: string)
    requires forall k | 0 <= k < |key| :: key[k] != ':'
    ensures AfterColon(key + ":" + rest) == Trim(rest)
  {
    var line := key + ":" + rest;
    assert line[..|key|] == key && line[|key|] == ':';
    assert forall k | 0 <= k < |key| :: line[k] != ':' by {
      forall k | 0 <= k < |key| ensures line[k] != ':' {
        assert line[k] == line[..|key|][k];
      }
    }
    IndexOfFirstChar(line, ':', |key|);
    assert line[|key| + 1..] == rest;
    SplitSpec(rest, ":");
    assert Split(line, ":")[1..] == Split(rest, ":");
  }

  // ---- getSourceFile ----

  /** Comment and blank lines are passed over. */
  predicate Skipped(line: string) {
    StartsWith(Trim(line), "#") || Trim(line) == ""
  }

  /** `/^source_file:/`. */
  predicate SourceFileKey(line: string) {
    StartsWith(line, "source_file:")
  }

  /** `/^source: /`. */
  predicate SourceInlineKey(line: string) {
    StartsWith(line, "source: ")
  }

  /** `/^source:\s*$/`: the key alone, its value nested below. */
  predicate SourceBareKey(line: string) {
    StartsWith(line, "source:") && AllSpace(line[7..])
  }

  /**
   * `/^\s+(file|path):/`. The whitespace run is greedy and "file" and "path" begin with a
   * letter, so the run must be the whole leading whitespace.
   */
  predicate NestedKey(line: string) {
    var t := TrimStart(line);
    |t| < |line| && (StartsWith(t, "file:") || StartsWith(t, "path:"))
  }

  /** `/^\w+:/`: a root-level key. */
  predicate RootKey(line: string) {
    var w := Span(line, IsWordChar);
    w != "" && |w| < |line| && line[|w|] == ':'
  }

  /** The inline `source: <value>` form, which is taken unless empty or an object. */
  predicate InlineValue(line: string) {
    SourceInlineKey(line) && AfterColon(line) != "" && !StartsWith(AfterColon(line), "{")
  }

  /** What a line at the top level of a spec file means to `getSourceFile`. */
  datatype SourceLine = Passed | Answer(value: string) | BareKey

  function SourceKind(line: string): SourceLine {
    if Skipped(line) then Passed
    else if SourceFileKey(line) then Answer(AfterColon(line))
    else if InlineValue(line) then Answer(AfterColon(line))
    else if SourceBareKey(line) then BareKey
    else Passed
  }

  /** What a line below a bare `source:` key means to the nested scan. */
  datatype NestedLine = PathLine(value: string) | RootLine | OtherLine

  function NestedKind(line: string): NestedLine {
    if NestedKey(line) then PathLine(AfterColon(line))
    else if RootKey(line) then RootLine
    else OtherLine
  }

  function NestedKinds(lines: seq<string>): (r: seq<NestedLine>)
    ensures |r| == |lines| && forall k | 0 <= k < |lines| :: r[k] == NestedKind(lines[k])
  {
    seq(|lines|, k requires 0 <= k < |lines| => NestedKind(lines[k]))
  }

  /** The nested scan of lines `j .. stop - 1`: the first `file:`/`path:` value, unless a root key comes first. */
  function Scan(kinds: seq<NestedLine>, j: nat, stop: nat): Option<string>
    requires stop <= |kinds|
    decreases stop - j
  {
    if j >= stop then None
    else match kinds[j]
      case PathLine(v) => Some(v)
      case RootLine => None
      case OtherLine => Scan(kinds, j + 1, stop)
  }

  function Min(a: int, b: int): int {
    if a < b then a else b
  }

  /** What line `i` decides: `Some(v)` when `getSourceFile` returns `v` there, `None` when it moves on. */
  function Decide(lines: seq<string>, i: nat): Option<string>
    requires i < |lines|
  {
    match SourceKind(lines[i])
    case Answer(v) => Some(v)
    case BareKey => Scan(NestedKinds(lines), i + 1, Min(i + 10, |lines|))
    case Passed => None
  }

  function Decisions(lines: seq<string>): (r: seq<Option<string>>)
    ensures |r| == |lines| && forall k | 0 <= k < |lines| :: r[k] == Decide(lines, k)
  {
    seq(|lines|, k requires 0 <= k < |lines| => Decide(lines, k))
  }

  /** The first decision at or after `i`. */
  function FirstFrom(ds: seq<Option<string>>, i: nat): Option<string>
    decreases |ds| - i
  {
    if i >= |ds| then None
    else if ds[i].Some? then ds[i]
    else FirstFrom(ds, i + 1)
  }

  /** `getSourceFile` on the lines of a spec file. */
  function SourceFile(lines: seq<string>): Option<string> {
    FirstFrom(Decisions(lines), 0)
  }

  /** The loop of `getSourceFile`, with its early returns. */
  method GetSourceFile(lines: seq<string>) returns (r: Option<string>)
    ensures r == SourceFile(lines)
  {
    ghost var ds := Decisions(lines);
    var i := 0;
    while i < |lines|
      invariant 0 <= i <= |lines|
      invariant SourceFile(lines) == FirstFrom(ds, i)
    {
      var line := lines[i];
      assert ds[i] == Decide(lines, i);
      if Skipped(line) {
        i := i + 1;
        continue;
      }
      if SourceFileKey(line) {
        return Some(AfterColon(line));
      }
      if InlineValue(line) {
        return Some(AfterColon(line));
      }
      if SourceBareKey(line) {
        var nested := ScanNested(lines, i);
        if nested.Some? {
          return nested;
        }
      }
      i := i + 1;
    }
    return None;
  }

  /** The inner loop of `getSourceFile` over the (at most nine) lines below a bare `source:` key. */
  method ScanNested(lines: seq<string>, i: nat) returns (r: Option<string>)
    requires i < |lines|
    ensures r == Scan(NestedKinds(lines), i + 1, Min(i + 10, |lines|))
  {
    ghost var kinds := NestedKinds(lines);
    var stop := Min(i + 10, |lines|);
    var j := i + 1;
    while j < stop
      invariant i + 1 <= j <= stop
      invariant Scan(kinds, i + 1, stop) == Scan(kinds, j, stop)
    {
      var next := lines[j];
      if NestedKey(next) {
        assert kinds[j] == PathLine(AfterColon(next));
        return Some(AfterColon(next));
      }
      if RootKey(next) {
        assert kinds[j] == RootLine;
        return None;
      }
      assert kinds[j] == OtherLine;
      j := j + 1;
    }
    return None;
  }

  /** Line `m` is the first `file:` or `path:` line after line `i`, and no root key comes between. */
  predicate FirstPathAt(kinds: seq<NestedLine>, i: nat, m: nat, v: string) {
    i < m < |kinds| && kinds[m] == PathLine(v) && forall q | i < q < m :: kinds[q] == OtherLine
  }

  /**
   * The scan of the lines after line `i` answers with the first `file:` or `path:` line that
   * comes before any root key and before `stop`, and only then.
   */
  lemma {:induction false} ScanSpec(kinds: seq<NestedLine>, i: nat, stop: nat, v: string)
    requires stop <= |kinds|
    ensures Scan(kinds, i + 1, stop) == Some(v) <==> exists m: nat | m < stop :: FirstPathAt(kinds, i, m, v)
    decreases stop - i
  {
    var j := i + 1;
    if j < stop {
      if kinds[j].OtherLine? {
        ScanSpec(kinds, j, stop, v);
        if Scan(kinds, j, stop) == Some(v) {
          var m: nat :| m < stop && FirstPathAt(kinds, j, m, v);
          assert FirstPathAt(kinds, i, m, v);
        }
        if exists m: nat | m < stop :: FirstPathAt(kinds, i, m, v) {
          var m: nat :| m < stop && FirstPathAt(kinds, i, m, v);
          assert m != j;
          assert FirstPathAt(kinds, j, m, v);
        }
      } else {
        if exists m: nat | m < stop :: FirstPathAt(kinds, i, m, v) {
          var m: nat :| m < stop && FirstPathAt(kinds, i, m, v);
          assert m == j;
        }
        if Scan(kinds, j, stop) == Some(v) {
          assert FirstPathAt(kinds, i, j, v);
        }
      }
    }
  }

  /**
   * The line that answers is never a comment or blank, and answers in one of three ways: a
   * `source_file:` key, a usable inline `source: ` value, or a bare `source:` key followed,
   * within the next nine lines and before any root key, by a `file:` or `path:` line.
   */
  lemma DecideForms(lines: seq<string>, i: nat, v: string)
    requires i < |lines| && Decide(lines, i) == Some(v)
    ensures !Skipped(lines[i])
    ensures (SourceFileKey(lines[i]) && v == AfterColon(lines[i]))
      || (!SourceFileKey(lines[i]) && InlineValue(lines[i]) && v == AfterColon(lines[i]))
      || (!SourceFileKey(lines[i]) && !InlineValue(lines[i]) && SourceBareKey(lines[i])
          && exists m: nat | m <= i + 9 :: FirstPathAt(NestedKinds(lines), i, m, v))
  {
    if SourceKind(lines[i]) == BareKey {
      ScanSpec(NestedKinds(lines), i, Min(i + 10, |lines|), v);
    }
  }

  /** A path line is a `file:` or `path:` key below the bare key; the lines it skips are neither keys. */
  lemma NestedKindMeaning(line: string)
    ensures NestedKind(line).PathLine? <==> NestedKey(line)
    ensures NestedKind(line).PathLine? ==> NestedKind(line).value == AfterColon(line)
    ensures NestedKind(line) == OtherLine <==> !NestedKey(line) && !RootKey(line)
  {
  }

  lemma {:induction false} FirstFromFirst(ds: seq<Option<string>>, i: nat)
    requires i <= |ds|
    ensures FirstFrom(ds, i).Some? <==> exists k | i <= k < |ds| :: ds[k].Some?
    ensures FirstFrom(ds, i).Some? ==>
      exists k | i <= k < |ds| :: FirstFrom(ds, i) == ds[k] && forall q | i <= q < k :: ds[q].None?
    decreases |ds| - i
  {
    if i < |ds| && ds[i].None? {
      FirstFromFirst(ds, i + 1);
      if FirstFrom(ds, i).Some? {
        var k :| i + 1 <= k < |ds| && FirstFrom(ds, i + 1) == ds[k] && forall q | i + 1 <= q < k :: ds[q].None?;
        assert forall q | i <= q < k :: ds[q].None?;
      }
    }
  }

  /**
   * `getSourceFile` answers exactly when some line decides, and then with the answer of the
   * first line that decides.
   */
  lemma SourceFileFirst(lines: seq<string>)
    ensures SourceFile(lines).Some? <==> exists k | 0 <= k < |lines| :: Decide(lines, k).Some?
    ensures SourceFile(lines).Some? ==>
      exists k | 0 <= k < |lines| :: SourceFile(lines) == Decide(lines, k)
        && forall q | 0 <= q < k :: Decide(lines, q).None?
  {
    var ds := Decisions(lines);
    FirstFromFirst(ds, 0);
    if SourceFile(lines).Some? {
      var k :| 0 <= k < |ds| && FirstFrom(ds, 0) == ds[k] && forall q | 0 <= q < k :: ds[q].None?;
      assert SourceFile(lines) == Decide(lines, k);
      assert forall q | 0 <= q < k :: Decide(lines, q).None?;
    }
    if exists k | 0 <= k < |lines| :: Decide(lines, k).Some? {
      var k :| 0 <= k < |lines| && Decide(lines, k).Some?;
      assert ds[k].Some?;
    }
  }

  // ---- parseDependencies ----

  /** The characters of `[\w.-]`. */
  predicate UnitChar(c: char) {
    IsWordChar(c) || c == '.' || c == '-'
  }

  /** The characters of `[a-z_]`. */
  predicate SectionChar(c: char) {
    ('a' <= c <= 'z') || c == '_'
  }

  /** `/^  ([\w.-]+):/`: the name of a unit key indented by exactly two spaces. */
  function UnitKey(line: string): (r: Option<string>)
    ensures r.Some? ==> r.value != ""
  {
    if !StartsWith(line, "  ") then None
    else
      var name := Span(line[2..], UnitChar);
      if name != "" && 2 + |name| < |line| && line[2 + |name|] == ':' then Some(name) else None
  }

  /** `/^    spec:/`. */
  predicate SpecLine(line: string) {
    StartsWith(line, "    spec:")
  }

  /** `/^    dependencies:/`. */
  predicate DepsLine(line: string) {
    StartsWith(line, "    dependencies:")
  }

  /** `/^    [a-z_]+:/`: another key of the unit, which closes its dependency list. */
  predicate SectionKey(line: string) {
    StartsWith(line, "    ")
    && var w := Span(line[4..], SectionChar);
    w != "" && 4 + |w| < |line| && line[4 + |w|] == ':'
  }

  /** `trimmed.startsWith('- ')`. */
  predicate ItemLine(line: string) {
    StartsWith(Trim(line), "- ")
  }

  predicate Quote(c: char) {
    c == '"' || c == '\''
  }

  /** `replace(/^["']|["']$/g, '')`: one quote character off each end, either kind. */
  function StripQuotes(s: string): string {
    var a := if s != [] && Quote(s[0]) then s[1..] else s;
    if a != [] && Quote(a[|a| - 1]) then a[..|a| - 1] else a
  }

  /** Surrounding quotes of either kind go, and nothing else does. */
  lemma StripQuotesOf(open: string, t: string, close: string)
    requires open == "" || open == "\"" || open == "'"
    requires close == "" || close == "\"" || close == "'"
    requires open == "" ==> t == [] || !Quote(t[0])
    requires close == "" ==> t == [] || !Quote(t[|t| - 1])
    ensures StripQuotes(open + t + close) == t
  {
    var s := open + t + close;
    var a := if s != [] && Quote(s[0]) then s[1..] else s;
    if open == "" && t == [] {
      assert s == close;
      if close != "" {
        assert Quote(s[0]);
        assert a == [];
      }
    } else {
      if open != "" {
        assert s[0] == open[0];
      } else {
        assert s[0] == t[0];
      }
      assert a == t + close;
      if close != "" {
        assert a[|a| - 1] == close[0];
        assert a[..|a| - 1] == t;
      } else {
        assert a == t;
      }
    }
  }

  /** A "spec:" line keeps its colon through `trim`, so `split(':')[1]` exists. */
  lemma SpecLineSplits(line: string)
    requires SpecLine(line)
    ensures |Split(Trim(line), ":")| >= 2
  {
    assert line[..9] == "    spec:";
    assert line[..4] == "    ";
    TrimStartAt(line, 4);
    var t := line[4..];
    assert t[4] == ':';
    TrimEndKeeps(t, 4);
    var r := Trim(line);
    assert r[4..5] == ":";
    assert OccursAt(r, ":", 4);
  }

  /** `trimmed.split(':')[1].trim()`: what lies between the first and the second ':'. */
  function SpecValue(line: string): string
    requires SpecLine(line)
  {
    SpecLineSplits(line);
    Trim(Split(Trim(line), ":")[1])
  }

  /** `trimmed.substring(2).trim()` with its quotes stripped. */
  function ItemValue(line: string): string
    requires ItemLine(line)
  {
    StripQuotes(Trim(Trim(line)[2..]))
  }

  /**
   * What each test in the loop body says of one line, taken before looking at the parser's
   * state; the values are read only when their test holds.
   */
  datatype LineFacts = LineFacts(
    unit: Option<string>,
    spec: bool,
    specValue: string,
    deps: bool,
    item: bool,
    itemValue: string,
    section: bool)

  function Facts(line: string): LineFacts {
    LineFacts(
      UnitKey(line),
      SpecLine(line), if SpecLine(line) then SpecValue(line) else "",
      DepsLine(line),
      ItemLine(line), if ItemLine(line) then ItemValue(line) else "",
      SectionKey(line))
  }

  function FactsOf(lines: seq<string>): (r: seq<LineFacts>)
    ensures |r| == |lines|
  {
    MapSeq(Facts, lines)
  }

  lemma FactsOfAt(lines: seq<string>, k: nat)
    requires k < |lines|
    ensures FactsOf(lines)[k] == Facts(lines[k])
  {
    MapSeqAt(Facts, lines, k);
  }

  /** The loop variables of `parseDependencies`. */
  datatype ParserState = ParserState(
    unit: Option<string>,
    spec: Option<string>,
    inDependencies: bool,
    deps: Entries<seq<string>>)

  const Initial := ParserState(None, None, false, [])

  /** One iteration of the loop, branch by branch in the source's order. */
  function Step(st: ParserState, f: LineFacts): ParserState {
    if f.unit.Some? then ParserState(f.unit, None, false, st.deps)
    else if Truthy(st.unit) && f.spec then st.(spec := Some(f.specValue))
    else if Truthy(st.unit) && f.deps then
      st.(inDependencies := true,
          deps := if Truthy(st.spec) then Assign(st.deps, st.spec.value, []) else st.deps)
    else if st.inDependencies && f.item then
      if Truthy(st.spec) && HasKey(st.deps, st.spec.value) then
        st.(deps := Assign(st.deps, st.spec.value, Lookup(st.deps, st.spec.value).value + [f.itemValue]))
      else st
    else if st.inDependencies && f.section then st.(inDependencies := false)
    else st
  }

  /** The state after the given lines. */
  function Run(fs: seq<LineFacts>): ParserState
    decreases |fs|
  {
    if fs == [] then Initial else Step(Run(fs[..|fs| - 1]), fs[|fs| - 1])
  }

  /** The map `parseDependencies` returns for the lines of `index.yaml`. */
  function Parse(lines: seq<string>): Entries<seq<string>> {
    Run(FactsOf(lines)).deps
  }

  lemma RunFactsStep(lines: seq<string>, i: nat)
    requires i < |lines|
    ensures Run(FactsOf(lines[..i + 1])) == Step(Run(FactsOf(lines[..i])), Facts(lines[i]))
  {
    assert lines[..i + 1][..i] == lines[..i];
    assert (FactsOf(lines[..i]) + [Facts(lines[i])])[..i] == FactsOf(lines[..i]);
  }

  /** `parseDependencies` over the lines of `index.yaml`. */
  method ParseDependencies(lines: seq<string>) returns (deps: Entries<seq<string>>)
    ensures deps == Parse(lines)
  {
    var currentUnit: Option<string> := None;
    var currentSpec: Option<string> := None;
    var inDependencies := false;
    deps := [];
    var i := 0;
    while i < |lines|
      invariant 0 <= i <= |lines|
      invariant ParserState(currentUnit, currentSpec, inDependencies, deps) == Run(FactsOf(lines[..i]))
    {
      var line := lines[i];
      ghost var st := ParserState(currentUnit, currentSpec, inDependencies, deps);
      ghost var f := Facts(line);
      RunFactsStep(lines, i);
      assert f.unit == UnitKey(line) && f.spec == SpecLine(line) && f.deps == DepsLine(line);
      assert f.item == ItemLine(line) && f.section == SectionKey(line);
      assert f.spec ==> f.specValue == SpecValue(line);
      assert f.item ==> f.itemValue == ItemValue(line);
      if UnitKey(line).Some? {
        currentUnit := UnitKey(line);
        inDependencies := false;
        currentSpec := None;
      } else if Truthy(currentUnit) && SpecLine(line) {
        currentSpec := Some(SpecValue(line));
      } else if Truthy(currentUnit) && DepsLine(line) {
        inDependencies := true;
        if Truthy(currentSpec) {
          deps := Assign(deps, currentSpec.value, []);
        }
      } else if inDependencies && ItemLine(line) {
        var dep := ItemValue(line);
        if Truthy(currentSpec) && HasKey(deps, currentSpec.value) {
          deps := Assign(deps, currentSpec.value, Lookup(deps, currentSpec.value).value + [dep]);
        }
      } else if inDependencies && SectionKey(line) {
        inDependencies := false;
      }
      assert ParserState(currentUnit, currentSpec, inDependencies, deps) == Step(st, f);
      i := i + 1;
    }
    assert lines[..|lines|] == lines;
  }

  // ---- what the parser's state means ----

  /** The last unit key among the first `n` lines. */
  function LastUnit(fs: seq<LineFacts>, n: nat): (r: Option<nat>)
    requires n <= |fs|
    ensures r.Some? ==> r.value < n && fs[r.value].unit.Some? && forall q | r.value < q < n :: fs[q].unit.None?
    ensures r.None? ==> forall q | 0 <= q < n :: fs[q].unit.None?
    decreases n
  {
    if n == 0 then None else if fs[n - 1].unit.Some? then Some(n - 1) else LastUnit(fs, n - 1)
  }

  /** The unit the first `n` lines leave open: the name of the last unit key, if any. */
  function UnitAt(fs: seq<LineFacts>, n: nat): Option<string>
    requires n <= |fs|
  {
    var u := LastUnit(fs, n);
    if u.Some? then fs[u.value].unit else None
  }

  /**
   * The last `spec:` line the parser takes among the first `n` lines: it lies after the last
   * unit key, inside a unit with a non-empty name, and no later `spec:` line of that unit follows.
   */
  function LastSpec(fs: seq<LineFacts>, n: nat): (r: Option<nat>)
    requires n <= |fs|
    ensures r.Some? ==> (LastUnit(fs, n).Some? && LastUnit(fs, n).value < r.value < n
      && fs[r.value].spec && Truthy(UnitAt(fs, n))
      && forall q | r.value < q < n :: !fs[q].spec)
    ensures r.None? && Truthy(UnitAt(fs, n)) ==>
      forall q | LastUnit(fs, n).value < q < n :: !fs[q].spec
    decreases n
  {
    if n == 0 || fs[n - 1].unit.Some? then None
    else if fs[n - 1].spec && Truthy(UnitAt(fs, n - 1)) then Some(n - 1)
    else LastSpec(fs, n - 1)
  }

  /** The spec path the first `n` lines leave current. */
  function SpecAt(fs: seq<LineFacts>, n: nat): Option<string>
    requires n <= |fs|
  {
    var k := LastSpec(fs, n);
    if k.Some? then Some(fs[k.value].specValue) else None
  }

  lemma RunSnoc(fs: seq<LineFacts>, n: nat)
    requires n < |fs|
    ensures Run(fs[..n + 1]) == Step(Run(fs[..n]), fs[n])
  {
    assert fs[..n + 1][..n] == fs[..n];
  }

  /**
   * The parser's current unit is the last unit key read, and its current spec is the last
   * `spec:` line read since then; so a unit key starts a unit with no spec at all.
   */
  lemma {:induction false} RunUnitSpec(fs: seq<LineFacts>, n: nat)
    requires n <= |fs|
    ensures Run(fs[..n]).unit == UnitAt(fs, n)
    ensures Run(fs[..n]).spec == SpecAt(fs, n)
  {
    if n > 0 {
      RunUnitSpec(fs, n - 1);
      RunSnoc(fs, n - 1);
    }
  }

  /** Line `j` is a `dependencies:` line that opens the list of the non-empty spec path `k`. */
  predicate OpensEntry(fs: seq<LineFacts>, j: nat, k: string)
    requires j < |fs|
  {
    fs[j].unit.None? && Truthy(UnitAt(fs, j)) && !fs[j].spec && fs[j].deps
    && SpecAt(fs, j) == Some(k) && k != ""
  }

  /** How one line changes the set of keys: only a `dependencies:` line under a spec adds one. */
  lemma StepKeys(st: ParserState, f: LineFacts, k: string)
    ensures HasKey(Step(st, f).deps, k) <==>
      HasKey(st.deps, k)
      || (f.unit.None? && Truthy(st.unit) && !f.spec && f.deps && st.spec == Some(k) && k != "")
  {
    if Truthy(st.spec) {
      LookupAssign(st.deps, st.spec.value, [], k);
      if HasKey(st.deps, st.spec.value) {
        var v := Lookup(st.deps, st.spec.value).value + [f.itemValue];
        LookupAssign(st.deps, st.spec.value, v, k);
      }
    }
  }

  /**
   * A spec path has an entry in the result exactly when some `dependencies:` line opened it:
   * one that follows, inside the same unit, a `spec:` line naming that path.
   */
  lemma EntryIff(fs: seq<LineFacts>, n: nat, k: string)
    requires n <= |fs|
    ensures HasKey(Run(fs[..n]).deps, k) <==> exists j | 0 <= j < n :: OpensEntry(fs, j, k)
  {
    EntryOpened(fs, n, k);
    OpenedSome(fs, n, k);
  }

  /** Some line before `n` opens an entry for `k`, counted backwards. */
  ghost predicate Opened(fs: seq<LineFacts>, n: nat, k: string)
    requires n <= |fs|
  {
    n > 0 && (Opened(fs, n - 1, k) || OpensEntry(fs, n - 1, k))
  }

  lemma {:induction false} OpenedSome(fs: seq<LineFacts>, n: nat, k: string)
    requires n <= |fs|
    ensures Opened(fs, n, k) <==> exists j | 0 <= j < n :: OpensEntry(fs, j, k)
  {
    if n > 0 {
      OpenedSome(fs, n - 1, k);
      OpensSplit(fs, n - 1, k);
    }
  }

  lemma {:induction false} EntryOpened(fs: seq<LineFacts>, n: nat, k: string)
    requires n <= |fs|
    ensures HasKey(Run(fs[..n]).deps, k) <==> Opened(fs, n, k)
  {
    if n > 0 {
      EntryOpened(fs, n - 1, k);
      EntryLast(fs, n - 1, k);
    }
  }

  /** Line `n` adds the key `k` exactly when it opens an entry for `k`. */
  lemma EntryLast(fs: seq<LineFacts>, n: nat, k: string)
    requires n < |fs|
    ensures HasKey(Run(fs[..n + 1]).deps, k) <==> HasKey(Run(fs[..n]).deps, k) || OpensEntry(fs, n, k)
  {
    RunSnoc(fs, n);
    RunUnitSpec(fs, n);
    StepKeys(Run(fs[..n]), fs[n], k);
  }

  lemma OpensSplit(fs: seq<LineFacts>, n: nat, k: string)
    requires n < |fs|
    ensures (exists j | 0 <= j < n + 1 :: OpensEntry(fs, j, k)) <==>
      (exists j | 0 <= j < n :: OpensEntry(fs, j, k)) || OpensEntry(fs, n, k)
  {
    if exists j | 0 <= j < n + 1 :: OpensEntry(fs, j, k) {
      var j :| 0 <= j < n + 1 && OpensEntry(fs, j, k);
      if j < n {
        assert exists j | 0 <= j < n :: OpensEntry(fs, j, k);
      }
    }
  }

  /** The values read from a run of item lines, in order. */
  function ItemValues(fs: seq<LineFacts>): (r: seq<string>)
    ensures |r| == |fs|
    decreases |fs|
  {
    if fs == [] then [] else ItemValues(fs[..|fs| - 1]) + [fs[|fs| - 1].itemValue]
  }

  /** Line `q` is a `- ` item that is neither a unit key nor a `spec:` or `dependencies:` line. */
  predicate PlainItem(f: LineFacts) {
    f.unit.None? && !f.spec && !f.deps && f.item
  }

  /**
   * Inside an open dependency list of spec `k`, a run of item lines appends their values, in
   * order and quotes stripped, to `k`'s list; every other spec's list is unchanged, and the
   * list stays open under the same spec.
   */
  lemma {:induction false} ItemsAppend(fs: seq<LineFacts>, i: nat, n: nat, k: string, key: string)
    requires i <= n <= |fs|
    requires Run(fs[..i]).inDependencies && Run(fs[..i]).spec == Some(k) && k != ""
    requires HasKey(Run(fs[..i]).deps, k)
    requires forall q | i <= q < n :: PlainItem(fs[q])
    ensures Run(fs[..n]).inDependencies && Run(fs[..n]).spec == Some(k)
    ensures Run(fs[..n]).unit == Run(fs[..i]).unit
    ensures Lookup(Run(fs[..n]).deps, key) ==
      if key == k then Some(Lookup(Run(fs[..i]).deps, k).value + ItemValues(fs[i..n]))
      else Lookup(Run(fs[..i]).deps, key)
  {
    RunExec(fs, i, n);
    ExecItems(Run(fs[..i]), fs[i..n], key);
  }

  /** The state after more lines, read from the state reached so far. */
  function Exec(st: ParserState, gs: seq<LineFacts>): ParserState
    decreases |gs|
  {
    if gs == [] then st else Step(Exec(st, gs[..|gs| - 1]), gs[|gs| - 1])
  }

  lemma {:induction false} RunExec(fs: seq<LineFacts>, i: nat, n: nat)
    requires i <= n <= |fs|
    ensures Run(fs[..n]) == Exec(Run(fs[..i]), fs[i..n])
    decreases n - i
  {
    if n > i {
      RunExec(fs, i, n - 1);
      RunSnoc(fs, n - 1);
      assert fs[i..n][..n - 1 - i] == fs[i..n - 1];
    } else {
      assert fs[i..n] == [];
    }
  }

  lemma {:induction false} ExecItems(st: ParserState, gs: seq<LineFacts>, key: string)
    requires st.inDependencies && Truthy(st.spec) && HasKey(st.deps, st.spec.value)
    requires forall q | 0 <= q < |gs| :: PlainItem(gs[q])
    ensures Exec(st, gs).inDependencies && Exec(st, gs).spec == st.spec && Exec(st, gs).unit == st.unit
    ensures HasKey(Exec(st, gs).deps, st.spec.value)
    ensures Lookup(Exec(st, gs).deps, key) ==
      if key == st.spec.value then Some(Lookup(st.deps, key).value + ItemValues(gs))
      else Lookup(st.deps, key)
    decreases |gs|
  {
    var k := st.spec.value;
    if gs == [] {
      HasKeyLookup(st.deps, k);
      assert Lookup(st.deps, k).value + [] == Lookup(st.deps, k).value;
    } else {
      var m := |gs| - 1;
      var front := gs[..m];
      ExecItems(st, front, key);
      ExecItems(st, front, k);
      var mid := Exec(st, front);
      ItemStep(mid, gs[m], key);
      var a := Lookup(st.deps, k).value;
      assert ItemValues(gs) == ItemValues(front) + [gs[m].itemValue];
      assert (a + ItemValues(front)) + [gs[m].itemValue] == a + ItemValues(gs);
    }
  }

  /** One item line appends its value to the current spec's list and leaves every other list alone. */
  lemma ItemStep(st: ParserState, f: LineFacts, key: string)
    requires st.inDependencies && Truthy(st.spec) && HasKey(st.deps, st.spec.value) && PlainItem(f)
    ensures Step(st, f).inDependencies && Step(st, f).spec == st.spec && Step(st, f).unit == st.unit
    ensures HasKey(Step(st, f).deps, st.spec.value)
    ensures Lookup(Step(st, f).deps, key) ==
      if key == st.spec.value then Some(Lookup(st.deps, key).value + [f.itemValue])
      else Lookup(st.deps, key)
  {
    var v := Lookup(st.deps, st.spec.value).value + [f.itemValue];
    LookupAssign(st.deps, st.spec.value, v, key);
    LookupAssign(st.deps, st.spec.value, v, st.spec.value);
  }

  /** No line is both a `spec:` and a `dependencies:` line, so the two branches never compete. */
  lemma SpecNotDeps(line: string)
    ensures !(SpecLine(line) && DepsLine(line))
  {
    if SpecLine(line) {
      assert line[4] == 's' by { assert line[..9][4] == line[4]; }
      if |line| >= 17 {
        assert line[..17][4] == line[4];
      }
    }
  }
}
