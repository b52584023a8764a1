/**
 * The deterministic parts of the classifier agent's tools (src/lib/agents/ticket-creation/tools.ts):
 * route matching against the routing table of `seo-specs/_index.yaml`, the page-spec path
 * normalisation, the spec-file reads, the region-to-TLD table of the Printerpix API, and the
 * response cap. The file system is a map from normalized paths to texts, and a spec path is read at
 * its `path.join` with the specs directory; the API call is an oracle that yields the response
 * text or an error message.
 */
module ClassifierTools {
  import opened Wrappers
  import opened JsString
  import opened SpecPaths

  // ── matchURLToRoute ──────────────────────────────────────────────────────

  /** An entry of `routing_table`; `examples` and `notes` only reach the JSON text and are not kept. */
  datatype RoutingEntry = RoutingEntry(
    pattern: string,
    pageSpec: Option<string>,
    layout: Option<string>,
    i18nRewrites: Option<seq<(string, string)>>)

  /** `normalize(p)`: "/" stays, otherwise one trailing '/' is dropped (`p.replace(/\/$/, '')`). */
  function Normalize(p: string): (r: string)
    ensures p == "/" ==> r == "/"
    ensures p != "/" && EndsWith(p, "/") ==> p == r + "/"
    ensures p != "/" && !EndsWith(p, "/") ==> r == p
  {
    if p == "/" then "/"
    else if |p| > 0 && p[|p| - 1] == '/' then p[..|p| - 1]
    else p
  }

  /** Only one slash goes: normalising twice can differ from normalising once. */
  lemma NormalizeDropsOneSlash()
    ensures Normalize("/a//") == "/a/" && Normalize(Normalize("/a//")) == "/a"
  {
    assert EndsWith("/a//", "/");
    assert "/a//" == "/a/" + "/";
    assert EndsWith("/a/", "/");
    assert "/a/" == "/a" + "/";
  }

  /** `Object.values(entry.i18n_rewrites ?? {})`. */
  function RewriteValues(e: RoutingEntry): (r: seq<string>)
    ensures e.i18nRewrites.None? ==> r == []
    ensures e.i18nRewrites.Some? ==>
      |r| == |e.i18nRewrites.value| && forall k | 0 <= k < |r| :: r[k] == e.i18nRewrites.value[k].1
  {
    if e.i18nRewrites.None? then []
    else seq(|e.i18nRewrites.value|, k requires 0 <= k < |e.i18nRewrites.value| => e.i18nRewrites.value[k].1)
  }

  const CatchAllPattern: string := "/[...productCategory]"

  /** The three scans of the routing table. */
  datatype Scan = ExactScan | RewriteScan | CatchAllScan

  /** `values.some(v => normalize(v) === normalUrl)`. */
  predicate AnyNormalizesTo(values: seq<string>, normalUrl: string) {
    exists k | 0 <= k < |values| :: Normalize(values[k]) == normalUrl
  }

  /** Whether an entry stops the given scan for the normalised URL. */
  predicate Hits(e: RoutingEntry, normalUrl: string, scan: Scan) {
    match scan
    case ExactScan => Normalize(e.pattern) == normalUrl
    case RewriteScan => AnyNormalizesTo(RewriteValues(e), normalUrl)
    case CatchAllScan => e.pattern == CatchAllPattern
  }

  /** The index of the first entry that stops the scan. */
  function FirstHit(table: seq<RoutingEntry>, normalUrl: string, scan: Scan): (r: Option<nat>)
    ensures r.None? <==> forall j | 0 <= j < |table| :: !Hits(table[j], normalUrl, scan)
    ensures r.Some? ==>
      && r.value < |table| && Hits(table[r.value], normalUrl, scan)
      && forall j | 0 <= j < r.value :: !Hits(table[j], normalUrl, scan)
    decreases |table|
  {
    if table == [] then None
    else
      var front := FirstHit(table[..|table| - 1], normalUrl, scan);
      if front.Some? then front
      else if Hits(table[|table| - 1], normalUrl, scan) then Some(|table| - 1)
      else None
  }

  /** The first hit is the one the scan stops at. */
  lemma FirstHitIs(table: seq<RoutingEntry>, normalUrl: string, scan: Scan, i: nat)
    requires i < |table| && Hits(table[i], normalUrl, scan)
    requires forall j | 0 <= j < i :: !Hits(table[j], normalUrl, scan)
    ensures FirstHit(table, normalUrl, scan) == Some(i)
  {
  }

  lemma FirstHitNone(table: seq<RoutingEntry>, normalUrl: string, scan: Scan)
    requires forall j | 0 <= j < |table| :: !Hits(table[j], normalUrl, scan)
    ensures FirstHit(table, normalUrl, scan) == None
  {
  }

  /** `urlPath.replace(/^\/|\/$/g, '')`: one leading and one trailing '/' go. */
  function StripEdgeSlashes(p: string): (r: string)
    ensures |r| <= |p|
  {
    var a := if |p| > 0 && p[0] == '/' then 1 else 0;
    var b := if |p| > a && p[|p| - 1] == '/' then |p| - 1 else |p|;
    p[a..b]
  }

  /** `segments[0]` is empty exactly when the stripped path is empty or starts with '/'. */
  lemma FirstSegmentEmpty(s: string)
    ensures Split(s, "/")[0] == "" <==> s == "" || s[0] == '/'
  {
    var i := IndexOf(s, "/");
    if s != [] && s[0] == '/' {
      assert OccursAt(s, "/", 0);
    }
    if i > 0 {
      assert Split(s, "/")[0] == s[..i];
      assert !OccursAt(s, "/", 0);
      assert s[..1] != "/";
    }
  }

  /** The catch-all condition: the path has a non-empty first segment. */
  predicate HasFirstSegment(urlPath: string) {
    Split(StripEdgeSlashes(urlPath), "/")[0] != ""
  }

  /** What `matchURLToRoute` answers; the JSON text of the entry is not modelled. */
  datatype RouteMatch =
    | ExactRoute(entry: RoutingEntry)
    | RewriteRoute(entry: RoutingEntry)
    | CatchAllRoute(entry: RoutingEntry)
    | OutOfScope(urlPath: string)

  /** The answer for a table: exact match first, then an i18n rewrite value, then the catch-all. */
  function MatchRoute(table: seq<RoutingEntry>, urlPath: string): RouteMatch {
    var n := Normalize(urlPath);
    match FirstHit(table, n, ExactScan)
    case Some(k) => ExactRoute(table[k])
    case None =>
      match FirstHit(table, n, RewriteScan)
      case Some(k) => RewriteRoute(table[k])
      case None =>
        match FirstHit(table, n, CatchAllScan)
        case Some(k) => if HasFirstSegment(urlPath) then CatchAllRoute(table[k]) else OutOfScope(urlPath)
        case None => OutOfScope(urlPath)
  }

  /**
   * The precedence of the three scans: an exact match returns the first exactly matching entry
   * whatever the rewrites say; otherwise the first entry with a matching rewrite value; otherwise
   * the catch-all entry when it exists and the path has a first segment; otherwise out of scope.
   */
  lemma MatchRouteCases(table: seq<RoutingEntry>, urlPath: string)
    ensures var n := Normalize(urlPath);
      var r := MatchRoute(table, urlPath);
      && (r.ExactRoute? <==> exists k | 0 <= k < |table| :: Normalize(table[k].pattern) == n)
      && (r.ExactRoute? ==> exists k | 0 <= k < |table| :: r.entry == table[k] && Normalize(table[k].pattern) == n
                              && forall j | 0 <= j < k :: Normalize(table[j].pattern) != n)
      && (r.RewriteRoute? ==>
            && (forall j | 0 <= j < |table| :: Normalize(table[j].pattern) != n)
            && exists k | 0 <= k < |table| :: r.entry == table[k] && Hits(table[k], n, RewriteScan)
                 && forall j | 0 <= j < k :: !Hits(table[j], n, RewriteScan))
      && (r.CatchAllRoute? <==>
            && (forall j | 0 <= j < |table| :: !Hits(table[j], n, ExactScan) && !Hits(table[j], n, RewriteScan))
            && (exists k | 0 <= k < |table| :: table[k].pattern == CatchAllPattern)
            && HasFirstSegment(urlPath))
      && (r.CatchAllRoute? ==> r.entry.pattern == CatchAllPattern)
      && (r.OutOfScope? ==> r.urlPath == urlPath)
  {
    MatchRouteExact(table, urlPath);
    MatchRouteRewrite(table, urlPath);
    MatchRouteCatchAll(table, urlPath);
  }

  lemma MatchRouteExact(table: seq<RoutingEntry>, urlPath: string)
    ensures var n := Normalize(urlPath);
      var r := MatchRoute(table, urlPath);
      && (r.ExactRoute? <==> exists k | 0 <= k < |table| :: Normalize(table[k].pattern) == n)
      && (r.ExactRoute? ==> exists k | 0 <= k < |table| :: r.entry == table[k] && Normalize(table[k].pattern) == n
                              && forall j | 0 <= j < k :: Normalize(table[j].pattern) != n)
  {
    var n := Normalize(urlPath);
    var e := FirstHit(table, n, ExactScan);
    if e.Some? {
      assert Hits(table[e.value], n, ExactScan);
    } else {
      assert forall j | 0 <= j < |table| :: !Hits(table[j], n, ExactScan);
    }
  }

  lemma MatchRouteRewrite(table: seq<RoutingEntry>, urlPath: string)
    ensures var n := Normalize(urlPath);
      var r := MatchRoute(table, urlPath);
      r.RewriteRoute? ==>
        && (forall j | 0 <= j < |table| :: Normalize(table[j].pattern) != n)
        && exists k | 0 <= k < |table| :: r.entry == table[k] && Hits(table[k], n, RewriteScan)
             && forall j | 0 <= j < k :: !Hits(table[j], n, RewriteScan)
  {
    var n := Normalize(urlPath);
    var e := FirstHit(table, n, ExactScan);
    var w := FirstHit(table, n, RewriteScan);
    if e.None? && w.Some? {
      assert forall j | 0 <= j < |table| :: !Hits(table[j], n, ExactScan);
      assert Hits(table[w.value], n, RewriteScan);
    }
  }

  lemma MatchRouteCatchAll(table: seq<RoutingEntry>, urlPath: string)
    ensures var n := Normalize(urlPath);
      var r := MatchRoute(table, urlPath);
      && (r.CatchAllRoute? <==>
            && (forall j | 0 <= j < |table| :: !Hits(table[j], n, ExactScan) && !Hits(table[j], n, RewriteScan))
            && (exists k | 0 <= k < |table| :: table[k].pattern == CatchAllPattern)
            && HasFirstSegment(urlPath))
      && (r.CatchAllRoute? ==> r.entry.pattern == CatchAllPattern)
      && (r.OutOfScope? ==> r.urlPath == urlPath)
  {
    var n := Normalize(urlPath);
    var e := FirstHit(table, n, ExactScan);
    var w := FirstHit(table, n, RewriteScan);
    var c := FirstHit(table, n, CatchAllScan);
    if e.None? && w.None? && c.Some? {
      assert Hits(table[c.value], n, CatchAllScan);
    }
    if exists k | 0 <= k < |table| :: table[k].pattern == CatchAllPattern {
      var k :| 0 <= k < |table| && table[k].pattern == CatchAllPattern;
      assert Hits(table[k], n, CatchAllScan);
    }
  }

  /** The catch-all path test on the raw path: non-empty after the edge slashes go, and not starting with '/'. */
  lemma CatchAllSegment(urlPath: string)
    ensures HasFirstSegment(urlPath) <==>
      StripEdgeSlashes(urlPath) != "" && StripEdgeSlashes(urlPath)[0] != '/'
  {
    FirstSegmentEmpty(StripEdgeSlashes(urlPath));
  }

  /** No path made of slashes alone reaches the catch-all. */
  lemma RootIsNotCatchAll()
    ensures !HasFirstSegment("/") && !HasFirstSegment("//") && !HasFirstSegment("")
  {
    CatchAllSegment("/");
    CatchAllSegment("//");
    CatchAllSegment("");
  }

  /** One scan of the routing table: the loop stops at the first entry that hits. */
  method ScanTable(table: seq<RoutingEntry>, normalUrl: string, scan: Scan) returns (r: Option<nat>)
    ensures r == FirstHit(table, normalUrl, scan)
  {
    var i := 0;
    while i < |table|
      invariant 0 <= i <= |table|
      invariant forall j | 0 <= j < i :: !Hits(table[j], normalUrl, scan)
    {
      var hit := Hits(table[i], normalUrl, scan);
      if hit {
        FirstHitIs(table, normalUrl, scan, i);
        return Some(i);
      }
      i := i + 1;
    }
    FirstHitNone(table, normalUrl, scan);
    r := None;
  }

  /** `matchURLToRoute(urlPath)` on the parsed index: the exact, rewrite and catch-all scans in turn. */
  method MatchUrlToRoute(routingTable: Option<seq<RoutingEntry>>, urlPath: string) returns (r: RouteMatch)
    ensures r == MatchRoute(routingTable.GetOr([]), urlPath)
  {
    var table := routingTable.GetOr([]);
    var normalUrl := Normalize(urlPath);
    var exact := ScanTable(table, normalUrl, ExactScan);
    if exact.Some? {
      return ExactRoute(table[exact.value]);
    }
    var rewrite := ScanTable(table, normalUrl, RewriteScan);
    if rewrite.Some? {
      return RewriteRoute(table[rewrite.value]);
    }
    var catchAll := ScanTable(table, normalUrl, CatchAllScan);
    if catchAll.Some? {
      var segments := Split(StripEdgeSlashes(urlPath), "/");
      if segments[0] != "" {
        return CatchAllRoute(table[catchAll.value]);
      }
    }
    r := OutOfScope(urlPath);
  }

  // ── Spec files ───────────────────────────────────────────────────────────

  const SpecsPrefix: string := "seo-specs/"
  const PagesPrefix: string := "pages/"

  /** The page-spec path: kept when it starts with `seo-specs/`, otherwise placed under `seo-specs/pages/`. */
  function PageSpecPath(p: string): (r: string)
    ensures StartsWith(r, SpecsPrefix)
    ensures EndsWith(r, p)
    ensures r == p <==> StartsWith(p, SpecsPrefix)
  {
    if StartsWith(p, SpecsPrefix) then p
    else SpecsPrefix + (if StartsWith(p, PagesPrefix) then p else PagesPrefix + p)
  }

  /** Normalising a normalised path changes nothing. */
  lemma PageSpecPathIdempotent(p: string)
    ensures PageSpecPath(PageSpecPath(p)) == PageSpecPath(p)
  {
  }

  /** A bare file name and its `pages/` form name the same spec. */
  lemma PageSpecPathForms(name: string)
    ensures PageSpecPath(name) == PageSpecPath(PagesPrefix + name) || StartsWith(name, SpecsPrefix) || StartsWith(name, PagesPrefix)
    ensures !StartsWith(name, SpecsPrefix) && !StartsWith(name, PagesPrefix) ==>
      PageSpecPath(name) == SpecsPrefix + PagesPrefix + name
  {
    var q := PagesPrefix + name;
    assert q[..|PagesPrefix|] == PagesPrefix;
    assert !StartsWith(q, SpecsPrefix) by {
      assert q[0] == 'p';
    }
  }

  /**
   * `path.join(SPECS_DIR, p)`: the file a spec path names. `specsDir` is `SPECS_DIR`, the specs
   * directory under the working directory; `path.join` normalizes the joined path.
   */
  function SpecFile(specsDir: string, p: string): (r: string)
    ensures r != ""
  {
    PosixJoin(specsDir, p)
  }

  /** `getPageSpec(pageSpecPath)`: the normalised page spec, read at its joined path. */
  function GetPageSpec(pageSpecPath: string, specsDir: string, files: map<string, string>): (r: string)
    ensures var full := SpecFile(specsDir, PageSpecPath(pageSpecPath));
      && (full in files ==> r == files[full])
      && (full !in files ==>
          r == "Page spec not found at " + PageSpecPath(pageSpecPath) + ". Check the path from matchURLToRoute.")
  {
    var normalized := PageSpecPath(pageSpecPath);
    var fullPath := SpecFile(specsDir, normalized);
    if fullPath in files then files[fullPath]
    else "Page spec not found at " + normalized + ". Check the path from matchURLToRoute."
  }

  const SpecDirsAdvice: string := "Available top-level dirs: seo-specs/, migration-specs/. Check the path and retry."

  /** `readSpecFile(relativePath)`: the file at the joined path, or the not-found message naming the path. */
  function ReadSpecFile(relativePath: string, specsDir: string, files: map<string, string>): (r: string)
    ensures var full := SpecFile(specsDir, relativePath);
      && (full in files ==> r == files[full])
      && (full !in files ==> StartsWith(r, "Spec file not found: " + relativePath + ". "))
  {
    var fullPath := SpecFile(specsDir, relativePath);
    if fullPath in files then files[fullPath]
    else "Spec file not found: " + relativePath + ". " + SpecDirsAdvice
  }

  /**
   * Once joined, an empty segment, a "." or a `name/..` pair between two '/' changes nothing:
   * `a//b`, `a/./b` and `a/name/../b` name the same file as `a/b`.
   */
  lemma SpecFileDropsNeutral(specsDir: string, a: string, m: string, b: string)
    requires specsDir != "" && Neutral(Split(m, "/"))
    ensures SpecFile(specsDir, a + "/" + m + "/" + b) == SpecFile(specsDir, a + "/" + b)
  {
    JoinedInside(specsDir, a, m, b);
    NormalizeDropsNeutral(specsDir + "/" + a, m, b);
  }

  /** The joined texts regrouped around `specsDir/a`. */
  lemma JoinedInside(specsDir: string, a: string, m: string, b: string)
    ensures specsDir + "/" + (a + "/" + m + "/" + b) == (specsDir + "/" + a) + "/" + m + "/" + b
    ensures specsDir + "/" + (a + "/" + b) == (specsDir + "/" + a) + "/" + b
  {
  }

  /** The two paths are read alike: both find the same file, or neither does. */
  lemma ReadSpecFileDropsNeutral(specsDir: string, a: string, m: string, b: string, files: map<string, string>)
    requires specsDir != "" && Neutral(Split(m, "/"))
    ensures var full := SpecFile(specsDir, a + "/" + b);
      && (full in files ==>
          ReadSpecFile(a + "/" + m + "/" + b, specsDir, files) == ReadSpecFile(a + "/" + b, specsDir, files) == files[full])
      && (full !in files ==> StartsWith(ReadSpecFile(a + "/" + m + "/" + b, specsDir, files), "Spec file not found: "))
  {
    SpecFileDropsNeutral(specsDir, a, m, b);
  }

  /** `seo-specs/./pages/home.yaml` reads the file `seo-specs/pages/home.yaml` names. */
  lemma ReadSpecFileDotSegment(specsDir: string, files: map<string, string>)
    requires specsDir != "" && SpecFile(specsDir, "seo-specs/pages/home.yaml") in files
    ensures ReadSpecFile("seo-specs/./pages/home.yaml", specsDir, files)
         == files[SpecFile(specsDir, "seo-specs/pages/home.yaml")]
  {
    NeutralTexts("");
    HomeSpecTexts();
    SpecFileDropsNeutral(specsDir, "seo-specs", ".", "pages/home.yaml");
  }

  lemma HomeSpecTexts()
    ensures "seo-specs/./pages/home.yaml" == "seo-specs" + "/" + "." + "/" + "pages/home.yaml"
    ensures "seo-specs/pages/home.yaml" == "seo-specs" + "/" + "pages/home.yaml"
  {
  }

  /**
   * A leading ".." leaves the specs directory: `../name` read from `parent/dir` is the file
   * `name` in `parent`.
   */
  lemma SpecFileLeavesSpecsDir(parent: string, dir: string, name: string)
    requires parent != "" && Plain(dir) && name != ""
    ensures SpecFile(parent + "/" + dir, "../" + name) == SpecFile(parent, name)
  {
    NeutralTexts(dir);
    ParentTexts(parent, dir, name);
    NormalizeDropsNeutral(parent, dir + "/..", name);
  }

  lemma ParentTexts(parent: string, dir: string, name: string)
    ensures (parent + "/" + dir) + "/" + ("../" + name) == parent + "/" + (dir + "/..") + "/" + name
  {
  }

  const ApiGuidePath: string := "seo-specs/_api-guide.yaml"

  /** `getAPIGuide()`: the guide at its joined path, or the fallback text. */
  function GetApiGuide(specsDir: string, files: map<string, string>): (r: string)
    ensures SpecFile(specsDir, ApiGuidePath) in files ==> r == files[SpecFile(specsDir, ApiGuidePath)]
    ensures SpecFile(specsDir, ApiGuidePath) !in files ==>
      r == "API guide not found. Classify conservatively as Frontend Rendering Issue."
  {
    var guidePath := SpecFile(specsDir, ApiGuidePath);
    if guidePath in files then files[guidePath]
    else "API guide not found. Classify conservatively as Frontend Rendering Issue."
  }

  // ── callPrinterpixAPI ────────────────────────────────────────────────────

  /** `TLD_MAP`. */
  const TldMap: map<string, string> := map[
    "GB" := "co.uk", "US" := "com", "DE" := "de", "FR" := "fr", "IT" := "it",
    "ES" := "es", "NL" := "nl", "IN" := "in", "AE" := "ae"]

  /** `TLD_MAP[region] ?? 'com'`. */
  function Tld(region: string): (r: string)
    ensures region in TldMap ==> r == TldMap[region]
    ensures region !in TldMap ==> r == "com"
    ensures r in TldMap.Values
  {
    assert TldMap["US"] == "com";
    if region in TldMap then TldMap[region] else "com"
  }

  const ApiHostPrefix: string := "https://qt-api.printerpix."

  /** The URL the request goes to: the region's host followed by the endpoint. */
  function ApiUrl(region: string, endpoint: string): (r: string)
    ensures StartsWith(r, ApiHostPrefix)
    ensures r == ApiHostPrefix + Tld(region) + endpoint
  {
    ApiHostPrefix + Tld(region) + endpoint
  }

  /** The nine regions of the schema and their hosts; Great Britain is the one two-label TLD. */
  lemma RegionHosts()
    ensures ApiUrl("GB", "") == "https://qt-api.printerpix.co.uk"
    ensures ApiUrl("US", "") == "https://qt-api.printerpix.com"
    ensures ApiUrl("DE", "") == "https://qt-api.printerpix.de"
    ensures ApiUrl("AE", "") == "https://qt-api.printerpix.ae"
    ensures ApiUrl("XX", "/page") == "https://qt-api.printerpix.com/page"
  {
  }

  const ResponseCap: nat := 8000
  const TruncationMarker: string := "\n... [truncated]"

  /** The cap on the response text: longer text keeps its first 8000 characters and gets the marker. */
  function Truncate(text: string): (r: string)
    ensures |text| <= ResponseCap ==> r == text
    ensures |text| > ResponseCap ==> r == text[..ResponseCap] + TruncationMarker
  {
    if |text| > ResponseCap then text[..ResponseCap] + TruncationMarker else text
  }

  /** The capped text is never longer than the cap plus the marker and always begins like the response. */
  lemma TruncateBounds(text: string)
    ensures |Truncate(text)| <= ResponseCap + |TruncationMarker|
    ensures var n := if |text| < ResponseCap then |text| else ResponseCap;
      Truncate(text)[..n] == text[..n]
    ensures |text| > ResponseCap ==> EndsWith(Truncate(text), TruncationMarker)
  {
    if |text| > ResponseCap {
      var r := Truncate(text);
      assert r[..ResponseCap] == text[..ResponseCap];
      assert r[|r| - |TruncationMarker|..] == TruncationMarker;
    }
  }

  const UnreachableAdvice: string := "Classify conservatively as Frontend Rendering Issue and note the API was unreachable."

  /** What the tool returns for the fetch outcome: the capped JSON text, or the failure advice. */
  function ApiResponse(outcome: Result<string>): (r: string)
    ensures outcome.Ok? ==> r == Truncate(outcome.value)
    ensures outcome.Err? ==> StartsWith(r, "API call failed: " + outcome.error + ". ")
  {
    match outcome
    case Ok(text) => Truncate(text)
    case Err(message) => "API call failed: " + message + ". " + UnreachableAdvice
  }
}
