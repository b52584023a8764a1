/**
 * Path handling of the build-time spec dependency graph
 * (src/lib/agents/ticket-creation/specs/migration-specs/build-dependency-graph.js):
 * `normalizePath`, `resolveDependencyPath`, and the POSIX `path.dirname` and `path.join`
 * of Node.js that the relative case relies on.
 */
module SpecPaths {
  import opened Wrappers
  import opened JsString

  predicate NoBackslash(s: string) {
    forall k | 0 <= k < |s| :: s[k] != '\\'
  }

  predicate NoSlash(s: string) {
    forall k | 0 <= k < |s| :: s[k] != '/'
  }

  /** `/^src[\/\\]/` matches. */
  predicate HasSrcPrefix(s: string) {
    |s| >= 4 && s[..3] == "src" && (s[3] == '/' || s[3] == '\\')
  }

  /** `replace(/^src[\/\\]/, '')`: one leading "src/" or "src\" goes. */
  function DropSrcPrefix(s: string): string {
    if HasSrcPrefix(s) then s[4..] else s
  }

  /** `replace(/\\/g, '/')`: every backslash becomes a slash, nothing else changes. */
  function ForwardSlashes(s: string): (r: string)
    ensures |r| == |s| && NoBackslash(r)
    ensures forall k | 0 <= k < |s| :: r[k] == (if s[k] == '\\' then '/' else s[k])
  {
    seq(|s|, k requires 0 <= k < |s| => if s[k] == '\\' then '/' else s[k])
  }

  /** The extensions of `/\.(ts|tsx|js|jsx)$/`. */
  predicate IsExtension(e: string) {
    e == ".ts" || e == ".tsx" || e == ".js" || e == ".jsx"
  }

  predicate HasExtension(s: string) {
    EndsWith(s, ".ts") || EndsWith(s, ".tsx") || EndsWith(s, ".js") || EndsWith(s, ".jsx")
  }

  /**
   * `replace(/\.(ts|tsx|js|jsx)$/, '')`. The pattern is anchored at the end, so the only
   * candidates are the last three or four characters; ".ts" and ".tsx" cannot both end a string.
   */
  function DropExtension(s: string): string {
    if EndsWith(s, ".tsx") || EndsWith(s, ".jsx") then s[..|s| - 4]
    else if EndsWith(s, ".ts") || EndsWith(s, ".js") then s[..|s| - 3]
    else s
  }

  /** `normalizePath`: `null` for a missing or empty path. */
  function NormalizePath(p: Option<string>): (r: Option<string>)
    ensures r.Some? <==> Truthy(p)
    ensures r.Some? ==> NoBackslash(r.value) && |r.value| <= |p.value|
  {
    if !Truthy(p) then None
    else Some(DropExtension(ForwardSlashes(DropSrcPrefix(p.value))))
  }

  lemma ForwardSlashesAppend(p: string, e: string)
    requires NoBackslash(e)
    ensures ForwardSlashes(p + e) == ForwardSlashes(p) + e
  {
    var l := ForwardSlashes(p + e);
    var r := ForwardSlashes(p) + e;
    assert |l| == |r|;
    forall k | 0 <= k < |l| ensures l[k] == r[k] {
      if k < |p| {
        assert (p + e)[k] == p[k];
      } else {
        assert (p + e)[k] == e[k - |p|];
      }
    }
  }

  lemma ForwardSlashesNoop(s: string)
    requires NoBackslash(s)
    ensures ForwardSlashes(s) == s
  {
  }

  lemma DropExtensionOf(x: string, e: string)
    requires IsExtension(e)
    ensures DropExtension(x + e) == x
  {
    var s := x + e;
    var n := |s|;
    assert s[n - 1] == e[|e| - 1];
    assert s[n - 2] == e[|e| - 2];
    assert s[..|x|] == x;
    if e == ".ts" || e == ".js" {
      assert !EndsWith(s, ".tsx") && !EndsWith(s, ".jsx") by {
        assert ".tsx"[3] == 'x' && ".jsx"[3] == 'x';
      }
      assert s[n - 3..] == e;
    } else {
      assert s[n - 4..] == e;
    }
  }

  /**
   * What `normalizePath` does to every non-empty path: with `pre` the optional "src/" or "src\"
   * and `ext` the optional extension, the result is the middle part with slashes forward. A
   * second "src/" inside `p` and a second extension inside `p` both survive.
   */
  lemma NormalizePathForm(pre: string, p: string, ext: string)
    requires pre == "" || pre == "src/" || pre == "src\\"
    requires pre == "" ==> !HasSrcPrefix(p + ext)
    requires IsExtension(ext) || (ext == "" && !HasExtension(ForwardSlashes(p)))
    ensures NormalizePath(Some(pre + p + ext))
      == if pre + p + ext == "" then None else Some(ForwardSlashes(p))
  {
    var s := pre + p + ext;
    assert DropSrcPrefix(s) == p + ext by {
      if pre != "" {
        assert s[..3] == "src" && s[3] == pre[3];
        assert s[4..] == p + ext;
      } else {
        assert s == p + ext;
      }
    }
    ForwardSlashesAppend(p, ext);
    if ext != "" {
      DropExtensionOf(ForwardSlashes(p), ext);
    } else {
      assert ForwardSlashes(p) + ext == ForwardSlashes(p);
    }
  }

  // ---- Node's path.posix.dirname and path.join ----

  /** The right-to-left scan of `path.posix.dirname`: skip trailing slashes, then stop at the next slash. */
  function DirnameEnd(p: string, i: int, matchedSlash: bool): (end: int)
    requires i < |p|
    ensures end == -1 || (1 <= end <= i && p[end] == '/')
    decreases i + 1
  {
    if i < 1 then -1
    else if p[i] == '/' then (if !matchedSlash then i else DirnameEnd(p, i - 1, true))
    else DirnameEnd(p, i - 1, false)
  }

  /** `path.posix.dirname`. */
  function Dirname(p: string): (r: string)
    ensures r != ""
  {
    if p == "" then "."
    else
      var end := DirnameEnd(p, |p| - 1, true);
      if end == -1 then (if p[0] == '/' then "/" else ".")
      else if p[0] == '/' && end == 1 then "//"
      else p[..end]
  }

  lemma {:induction false} DirnameScan(p: string, lo: nat, i: int, m: bool)
    requires lo < i < |p|
    requires forall k | lo < k <= i :: p[k] != '/'
    ensures DirnameEnd(p, i, m) == DirnameEnd(p, lo, false)
    decreases i
  {
    if i - 1 > lo {
      DirnameScan(p, lo, i - 1, false);
    }
  }

  /** The directory of `dir/name` is `dir`, for a relative `dir` and a name without slashes. */
  lemma DirnameOfChild(dir: string, name: string)
    requires dir != "" && dir[0] != '/'
    requires name != "" && NoSlash(name)
    ensures Dirname(dir + "/" + name) == dir
  {
    var p := dir + "/" + name;
    assert p[|dir|] == '/';
    forall k | |dir| < k <= |p| - 1 ensures p[k] != '/' {
      assert p[k] == name[k - |dir| - 1];
    }
    DirnameScan(p, |dir|, |p| - 1, true);
    assert p[..|dir|] == dir;
  }

  /** A relative name without slashes lives in ".". */
  lemma DirnameOfBare(name: string)
    requires name != "" && name[0] != '/' && NoSlash(name)
    ensures Dirname(name) == "."
  {
    if |name| > 1 {
      DirnameScan(name, 0, |name| - 1, true);
    }
  }

  /** One segment of Node's `normalizeString`: "" and "." vanish, ".." pops a real segment. */
  function CanonStep(stack: seq<string>, seg: string, allowAboveRoot: bool): seq<string> {
    if seg == "" || seg == "." then stack
    else if seg == ".." then
      if |stack| > 0 && stack[|stack| - 1] != ".." then stack[..|stack| - 1]
      else if allowAboveRoot then stack + [".."]
      else stack
    else stack + [seg]
  }

  /** The segments `normalizeString` keeps, left to right. */
  function Canon(segs: seq<string>, allowAboveRoot: bool): seq<string>
    decreases |segs|
  {
    if segs == [] then []
    else CanonStep(Canon(segs[..|segs| - 1], allowAboveRoot), segs[|segs| - 1], allowAboveRoot)
  }

  /** `path.posix.normalize`. */
  function PosixNormalize(p: string): (r: string)
    ensures r != ""
  {
    if p == "" then "."
    else
      var isAbsolute := p[0] == '/';
      var trailing := p[|p| - 1] == '/';
      var body := Join(Canon(Split(p, "/"), !isAbsolute), "/");
      if body == "" then (if isAbsolute then "/" else if trailing then "./" else ".")
      else
        var b := if trailing then body + "/" else body;
        if isAbsolute then "/" + b else b
  }

  /** `path.posix.join(a, b)`: empty arguments are skipped, the rest joined with '/' and normalized. */
  function PosixJoin(a: string, b: string): (r: string)
    ensures r != ""
  {
    if a == "" && b == "" then "."
    else if a == "" then PosixNormalize(b)
    else if b == "" then PosixNormalize(a)
    else PosixNormalize(a + "/" + b)
  }

  /** A segment that `normalizeString` keeps as it is. */
  predicate Plain(seg: string) {
    seg != "" && seg != "." && seg != ".." && NoSlash(seg)
  }

  predicate AllPlain(segs: seq<string>) {
    forall k | 0 <= k < |segs| :: Plain(segs[k])
  }

  /** A normalized path never keeps an empty or "." segment, and every ".." comes first. */
  predicate Canonical(segs: seq<string>, allowAboveRoot: bool) {
    (forall k | 0 <= k < |segs| :: segs[k] != "" && segs[k] != ".")
    && (forall i, j | 0 <= i < j < |segs| && segs[j] == ".." :: segs[i] == "..")
    && (!allowAboveRoot ==> forall k | 0 <= k < |segs| :: segs[k] != "..")
  }

  lemma {:induction false} CanonIsCanonical(segs: seq<string>, allowAboveRoot: bool)
    ensures Canonical(Canon(segs, allowAboveRoot), allowAboveRoot)
    decreases |segs|
  {
    if segs != [] {
      var stack := Canon(segs[..|segs| - 1], allowAboveRoot);
      CanonIsCanonical(segs[..|segs| - 1], allowAboveRoot);
      var seg := segs[|segs| - 1];
      if seg == ".." && !(|stack| > 0 && stack[|stack| - 1] != "..") && allowAboveRoot {
        var r := stack + [".."];
        forall i, j | 0 <= i < j < |r| && r[j] == ".." ensures r[i] == ".." {
          if j < |stack| {
          } else if |stack| > 0 {
            assert stack[|stack| - 1] == "..";
            if i < |stack| - 1 {
              assert stack[i] == "..";
            }
          }
        }
      }
    }
  }

  /** Plain segments appended after any prefix are kept as they are. */
  lemma {:induction false} CanonAppendPlain(xs: seq<string>, ys: seq<string>, allowAboveRoot: bool)
    requires AllPlain(ys)
    ensures Canon(xs + ys, allowAboveRoot) == Canon(xs, allowAboveRoot) + ys
    decreases |ys|
  {
    if ys != [] {
      var front := ys[..|ys| - 1];
      var last := ys[|ys| - 1];
      assert (xs + ys)[..|xs + ys| - 1] == xs + front;
      assert (xs + ys)[|xs + ys| - 1] == last;
      assert Plain(last);
      CanonAppendPlain(xs, front, allowAboveRoot);
      assert ys == front + [last];
      assert (Canon(xs, allowAboveRoot) + front) + [last] == Canon(xs, allowAboveRoot) + ys;
    } else {
      assert xs + ys == xs;
    }
  }

  lemma JoinAppend(xs: seq<string>, ys: seq<string>, sep: string)
    requires xs != [] && ys != []
    ensures Join(xs + ys, sep) == Join(xs, sep) + sep + Join(ys, sep)
    decreases |xs|
  {
    if |xs| == 1 {
      assert (xs + ys)[1..] == ys;
    } else {
      assert (xs + ys)[1..] == xs[1..] + ys;
      JoinAppend(xs[1..], ys, sep);
    }
  }

  /** Splitting a join of slash-free segments on '/' gives the segments back. */
  lemma {:induction false} SplitJoin(segs: seq<string>)
    requires segs != [] && forall k | 0 <= k < |segs| :: NoSlash(segs[k])
    ensures Split(Join(segs, "/"), "/") == segs
    decreases |segs|
  {
    var s := Join(segs, "/");
    if |segs| == 1 {
      IndexOfAbsentChar(segs[0], '/');
    } else {
      var h := segs[0];
      var rest := Join(segs[1..], "/");
      assert s == h + "/" + rest;
      assert s[..|h|] == h && s[|h|] == '/';
      assert forall k | 0 <= k < |h| :: s[k] != '/' by {
        forall k | 0 <= k < |h| ensures s[k] != '/' {
          assert s[k] == s[..|h|][k];
        }
      }
      IndexOfFirstChar(s, '/', |h|);
      assert s[|h| + 1..] == rest;
      SplitJoin(segs[1..]);
      assert segs == [segs[0]] + segs[1..];
    }
  }

  lemma JoinLast(segs: seq<string>)
    requires segs != [] && segs[|segs| - 1] != ""
    ensures Join(segs, "/") != "" && Join(segs, "/")[|Join(segs, "/")| - 1] == segs[|segs| - 1][|segs[|segs| - 1]| - 1]
    decreases |segs|
  {
    if |segs| > 1 {
      JoinLast(segs[1..]);
    }
  }

  lemma JoinFirst(segs: seq<string>)
    requires segs != [] && segs[0] != ""
    ensures Join(segs, "/") != "" && Join(segs, "/")[0] == segs[0][0]
  {
  }

  /** `path.posix.normalize` of a relative path of segments is the join of the canonical segments. */
  lemma NormalizeRelative(segs: seq<string>)
    requires segs != [] && segs[0] != "" && segs[0][0] != '/'
    requires forall k | 0 <= k < |segs| :: NoSlash(segs[k])
    requires Plain(segs[|segs| - 1])
    ensures PosixNormalize(Join(segs, "/")) == Join(Canon(segs, true), "/")
  {
    var p := Join(segs, "/");
    var c := Canon(segs, true);
    JoinFirst(segs);
    JoinLast(segs);
    SplitJoin(segs);
    CanonKeepsLast(segs);
    JoinLast(c);
    NormalizePlainRelative(p, c);
  }

  lemma CanonKeepsLast(segs: seq<string>)
    requires segs != [] && Plain(segs[|segs| - 1])
    ensures Canon(segs, true) != [] && Canon(segs, true)[|Canon(segs, true)| - 1] == segs[|segs| - 1]
  {
    var last := segs[|segs| - 1];
    assert segs == segs[..|segs| - 1] + [last];
    CanonAppendPlain(segs[..|segs| - 1], [last], true);
  }

  lemma NormalizePlainRelative(p: string, c: seq<string>)
    requires p != "" && p[0] != '/' && p[|p| - 1] != '/'
    requires Canon(Split(p, "/"), true) == c && Join(c, "/") != ""
    ensures PosixNormalize(p) == Join(c, "/")
  {
  }

  /** `resolveDependencyPath`: `null` unless both paths are present and non-empty. */
  function ResolveDependencyPath(sourceFile: Option<string>, depPath: Option<string>): Option<string> {
    if !Truthy(sourceFile) || !Truthy(depPath) then None
    else
      var dep := depPath.value;
      if StartsWith(dep, "~/") then NormalizePath(Some(ReplaceFirst(dep, "~/", "")))
      else if StartsWith(dep, "./") || StartsWith(dep, "../") then
        var joined := PosixJoin(Dirname(sourceFile.value), dep);
        Some(ForwardSlashes(NormalizePath(Some(joined)).value))
      else NormalizePath(depPath)
  }

  /** The four forms of `resolveDependencyPath`; a relative dependency always resolves to a path. */
  lemma ResolveForms(sourceFile: Option<string>, depPath: Option<string>)
    ensures !Truthy(sourceFile) || !Truthy(depPath) ==> ResolveDependencyPath(sourceFile, depPath) == None
    ensures Truthy(sourceFile) && Truthy(depPath) && StartsWith(depPath.value, "~/") ==>
      ResolveDependencyPath(sourceFile, depPath) == NormalizePath(Some(depPath.value[2..]))
    ensures (Truthy(sourceFile) && Truthy(depPath) && !StartsWith(depPath.value, "~/")
             && (StartsWith(depPath.value, "./") || StartsWith(depPath.value, "../"))) ==>
      ResolveDependencyPath(sourceFile, depPath)
        == NormalizePath(Some(PosixJoin(Dirname(sourceFile.value), depPath.value)))
      && ResolveDependencyPath(sourceFile, depPath).Some?
    ensures (Truthy(sourceFile) && Truthy(depPath) && !StartsWith(depPath.value, "~/")
             && !StartsWith(depPath.value, "./") && !StartsWith(depPath.value, "../")) ==>
      ResolveDependencyPath(sourceFile, depPath) == NormalizePath(depPath)
  {
    if Truthy(sourceFile) && Truthy(depPath) {
      var dep := depPath.value;
      if StartsWith(dep, "~/") {
        assert IndexOf(dep, "~/") == 0;
        assert ReplaceFirst(dep, "~/", "") == dep[2..];
      } else if StartsWith(dep, "./") || StartsWith(dep, "../") {
        var joined := PosixJoin(Dirname(sourceFile.value), dep);
        ForwardSlashesNoop(NormalizePath(Some(joined)).value);
      }
    }
  }

  /** A "~/" dependency names the same path whatever the source file. */
  lemma TildeIgnoresSource(a: Option<string>, b: Option<string>, depPath: Option<string>)
    requires Truthy(a) && Truthy(b) && Truthy(depPath) && StartsWith(depPath.value, "~/")
    ensures ResolveDependencyPath(a, depPath) == ResolveDependencyPath(b, depPath)
  {
    ResolveForms(a, depPath);
    ResolveForms(b, depPath);
  }

  /** The segments of `<dir>/<lead>/<f>` after normalization: "." stays put, ".." pops the last directory. */
  lemma CanonLead(dirSegs: seq<string>, lead: string, fSegs: seq<string>)
    requires dirSegs != [] && AllPlain(dirSegs) && (lead == "." || lead == "..") && AllPlain(fSegs)
    ensures Canon(dirSegs + [lead] + fSegs, true)
      == (if lead == "." then dirSegs else dirSegs[..|dirSegs| - 1]) + fSegs
  {
    CanonAppendPlain(dirSegs + [lead], fSegs, true);
    CanonAppendPlain([], dirSegs, true);
    assert [] + dirSegs == dirSegs;
    assert (dirSegs + [lead])[..|dirSegs|] == dirSegs;
    assert Plain(dirSegs[|dirSegs| - 1]);
  }

  /** Joining a relative directory with `<lead>/<f>` normalizes the whole segment list. */
  lemma JoinRelative(dirSegs: seq<string>, lead: string, fSegs: seq<string>)
    requires dirSegs != [] && AllPlain(dirSegs) && (lead == "." || lead == "..")
    requires fSegs != [] && AllPlain(fSegs)
    ensures PosixJoin(Join(dirSegs, "/"), lead + "/" + Join(fSegs, "/"))
      == Join(Canon(dirSegs + [lead] + fSegs, true), "/")
  {
    var dir := Join(dirSegs, "/");
    var dep := lead + "/" + Join(fSegs, "/");
    var segs := dirSegs + [lead] + fSegs;
    JoinFirst(dirSegs);
    JoinLead(dirSegs, lead, fSegs);
    LeadSegments(dirSegs, lead, fSegs);
    NormalizeRelative(segs);
  }

  lemma JoinLead(dirSegs: seq<string>, lead: string, fSegs: seq<string>)
    requires dirSegs != [] && fSegs != []
    ensures Join(dirSegs, "/") + "/" + (lead + "/" + Join(fSegs, "/")) == Join(dirSegs + [lead] + fSegs, "/")
  {
    assert Join([lead] + fSegs, "/") == lead + "/" + Join(fSegs, "/") by {
      assert ([lead] + fSegs)[1..] == fSegs;
    }
    JoinAppend(dirSegs, [lead] + fSegs, "/");
    assert dirSegs + ([lead] + fSegs) == dirSegs + [lead] + fSegs;
  }

  lemma LeadSegments(dirSegs: seq<string>, lead: string, fSegs: seq<string>)
    requires dirSegs != [] && AllPlain(dirSegs) && (lead == "." || lead == "..")
    requires fSegs != [] && AllPlain(fSegs)
    ensures var segs := dirSegs + [lead] + fSegs;
      && segs[0] == dirSegs[0]
      && segs[|segs| - 1] == fSegs[|fSegs| - 1]
      && forall k | 0 <= k < |segs| :: NoSlash(segs[k])
  {
    var segs := dirSegs + [lead] + fSegs;
    forall k | 0 <= k < |segs| ensures NoSlash(segs[k]) {
      if k < |dirSegs| {
        assert segs[k] == dirSegs[k];
      } else if k > |dirSegs| {
        assert segs[k] == fSegs[k - |dirSegs| - 1];
      }
    }
  }

  lemma RelativeLead(lead: string, f: string)
    requires lead == "." || lead == ".."
    ensures !StartsWith(lead + "/" + f, "~/")
    ensures StartsWith(lead + "/" + f, "./") || StartsWith(lead + "/" + f, "../")
  {
    var dep := lead + "/" + f;
    assert dep[..|lead| + 1] == lead + "/";
    assert dep[..2][0] == '.';
  }

  /**
   * A relative dependency `./f` or `../f` (with `f` a path of plain segments) of the source
   * `dir/name` names `dir/f`, respectively `f` next to the parent of `dir`.
   */
  lemma ResolveAgainstDirname(dirSegs: seq<string>, name: string, lead: string, fSegs: seq<string>)
    requires dirSegs != [] && AllPlain(dirSegs) && name != "" && NoSlash(name)
    requires lead == "." || lead == ".."
    requires fSegs != [] && AllPlain(fSegs)
    ensures ResolveDependencyPath(Some(Join(dirSegs + [name], "/")), Some(lead + "/" + Join(fSegs, "/")))
      == NormalizePath(Some(Join((if lead == "." then dirSegs else dirSegs[..|dirSegs| - 1]) + fSegs, "/")))
  {
    var dir := Join(dirSegs, "/");
    var source := Join(dirSegs + [name], "/");
    var dep := lead + "/" + Join(fSegs, "/");
    JoinFirst(dirSegs);
    JoinAppend(dirSegs, [name], "/");
    assert source == dir + "/" + name;
    DirnameOfChild(dir, name);
    RelativeLead(lead, Join(fSegs, "/"));
    ResolveForms(Some(source), Some(dep));
    JoinRelative(dirSegs, lead, fSegs);
    CanonLead(dirSegs, lead, fSegs);
  }

  // ── Segments that `path.normalize` drops ─────────────────────────────────

  /** Splitting at a '/' splits each side. */
  lemma {:induction false} SplitSlashAppend(x: string, y: string)
    ensures Split(x + "/" + y, "/") == Split(x, "/") + Split(y, "/")
    decreases |x|
  {
    var i := IndexOfChar(x, '/');
    if i < 0 {
      SplitAtFirstSlash(x, y);
      SplitNoSlash(x);
    } else {
      var head, rest := x[..i], x[i + 1..];
      assert x == head + "/" + rest;
      SplitSlashAppend(rest, y);
      SplitSlashAppendStep(head, rest, y);
    }
  }

  /** The step of `SplitSlashAppend`: a first segment `head` comes off both sides. */
  lemma {:induction false} SplitSlashAppendStep(head: string, rest: string, y: string)
    requires NoSlash(head)
    requires Split(rest + "/" + y, "/") == Split(rest, "/") + Split(y, "/")
    ensures Split(head + "/" + rest + "/" + y, "/") == Split(head + "/" + rest, "/") + Split(y, "/")
  {
    var t := head + "/" + rest + "/" + y;
    FirstSegment(t, head, rest + "/" + y);
    SplitAtFirstSlash(head, rest);
    ConsGlue(t, head + "/" + rest, head, Split(rest + "/" + y, "/"), Split(rest, "/"), Split(y, "/"));
  }

  /** The list step of `SplitSlashAppendStep`, on the segment lists alone. */
  lemma ConsGlue(t: string, u: string, head: string, st: seq<string>, sr: seq<string>, sy: seq<string>)
    requires Split(t, "/") == [head] + st && Split(u, "/") == [head] + sr && st == sr + sy
    ensures Split(t, "/") == Split(u, "/") + sy
  {
  }

  /** `SplitAtFirstSlash` for any text that reads `head + "/" + tail`. */
  lemma {:induction false} FirstSegment(s: string, head: string, tail: string)
    requires NoSlash(head) && s == head + "/" + tail
    ensures Split(s, "/") == [head] + Split(tail, "/")
  {
    SplitAtFirstSlash(head, tail);
  }

  /** The first '/' of `head + "/" + tail`, for a `head` without one, ends the first segment. */
  lemma {:induction false} SplitAtFirstSlash(head: string, tail: string)
    requires NoSlash(head)
    ensures Split(head + "/" + tail, "/") == [head] + Split(tail, "/")
  {
    var s := head + "/" + tail;
    IndexOfFirstChar(s, '/', |head|);
    assert s[..|head|] == head && s[|head| + 1..] == tail;
  }

  /** A text without '/' is one segment. */
  lemma SplitNoSlash(x: string)
    requires NoSlash(x)
    ensures Split(x, "/") == [x]
  {
    IndexOfAbsentChar(x, '/');
  }

  /**
   * Segment lists `normalizeString` cancels out: an empty segment (from "//"), a "." segment,
   * or a name followed by "..".
   */
  predicate Neutral(mid: seq<string>) {
    mid == [""] || mid == ["."] || (|mid| == 2 && Plain(mid[0]) && mid[1] == "..")
  }

  /** A neutral run of segments leaves the kept segments as they were. */
  lemma {:induction false} CanonSkipsNeutral(xs: seq<string>, mid: seq<string>, ys: seq<string>, allowAboveRoot: bool)
    requires Neutral(mid)
    ensures Canon(xs + mid + ys, allowAboveRoot) == Canon(xs + ys, allowAboveRoot)
    decreases |ys|
  {
    if ys == [] {
      assert xs + mid + ys == xs + mid;
      assert xs + ys == xs;
      if |mid| == 2 {
        assert (xs + mid)[..|xs + mid| - 1] == xs + [mid[0]];
        assert (xs + [mid[0]])[..|xs|] == xs;
      } else {
        assert (xs + mid)[..|xs + mid| - 1] == xs;
      }
    } else {
      var front := ys[..|ys| - 1];
      CanonSkipsNeutral(xs, mid, front, allowAboveRoot);
      assert (xs + mid + ys)[..|xs + mid + ys| - 1] == xs + mid + front;
      assert (xs + ys)[..|xs + ys| - 1] == xs + front;
    }
  }

  /** `path.normalize` depends only on the first and last characters and the kept segments. */
  lemma NormalizeBySegments(s: string, t: string)
    requires s != "" && t != "" && s[0] == t[0] && s[|s| - 1] == t[|t| - 1]
    requires Canon(Split(s, "/"), s[0] != '/') == Canon(Split(t, "/"), t[0] != '/')
    ensures PosixNormalize(s) == PosixNormalize(t)
  {
  }

  /**
   * Between two '/' an empty segment, a "." or a `name/..` pair changes nothing once the path is
   * normalized: `p//q`, `p/./q` and `p/name/../q` all name `p/q`.
   */
  lemma NormalizeDropsNeutral(p: string, m: string, q: string)
    requires p != "" && Neutral(Split(m, "/"))
    ensures PosixNormalize(p + "/" + m + "/" + q) == PosixNormalize(p + "/" + q)
  {
    var s := p + "/" + m + "/" + q;
    var t := p + "/" + q;
    SplitSlashAppend(p + "/" + m, q);
    SplitSlashAppend(p, m);
    SplitSlashAppend(p, q);
    assert Split(s, "/") == Split(p, "/") + Split(m, "/") + Split(q, "/");
    CanonSkipsNeutral(Split(p, "/"), Split(m, "/"), Split(q, "/"), p[0] != '/');
    assert s[0] == p[0] && t[0] == p[0];
    assert s[|s| - 1] == t[|t| - 1] by {
      if q == [] {
        assert s[|s| - 1] == '/' && t[|t| - 1] == '/';
      } else {
        assert s[|s| - 1] == q[|q| - 1] && t[|t| - 1] == q[|q| - 1];
      }
    }
    NormalizeBySegments(s, t);
  }

  /** The three neutral forms as texts. */
  lemma NeutralTexts(x: string)
    ensures Neutral(Split("", "/")) && Neutral(Split(".", "/"))
    ensures Plain(x) ==> Neutral(Split(x + "/..", "/"))
  {
    SplitNoSlash("");
    SplitNoSlash(".");
    if Plain(x) {
      NeutralParent(x);
    }
  }

  lemma NeutralParent(x: string)
    requires Plain(x)
    ensures Split(x + "/..", "/") == [x, ".."]
  {
    assert x + "/.." == x + "/" + "..";
    SplitSlashAppend(x, "..");
    SplitNoSlash(x);
    assert NoSlash("..") by { assert ".."[0] == '.' && ".."[1] == '.'; }
    SplitNoSlash("..");
  }
}
