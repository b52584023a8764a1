/**
 * `GET /api/seo/audits` (src/app/api/seo/audits/route.ts): the audit rows are grouped into runs
 * (newest first) and one page of runs is returned with its pagination block. The query
 * parameters go through JavaScript's `parseInt`, `Math.min` and `Array.prototype.slice`, which
 * are modelled exactly on integers and NaN.
 */
module AuditsRoute {
  import opened Wrappers
  import opened JsString
  import opened BigQueryTypes
  import opened SeoMapper
  import Seqs

  // ── parseInt(s, 10) ──────────────────────────────────────────────────────

  /** A JavaScript number restricted to what `parseInt` can give: an integer, or NaN. */
  datatype Num = NaN | Num(value: int)

  /**
   * `parseInt(s, 10)`: leading whitespace is skipped, one sign is read, then as many decimal
   * digits as follow; no digit gives NaN. (`-0` is read as 0.)
   */
  function ParseInt(s: string): (r: Num) {
    ParseSigned(TrimStart(s))
  }

  /** `parseInt` after the leading whitespace: an optional sign, then the digits. */
  function ParseSigned(t: string): (r: Num) {
    if t != [] && t[0] == '-' then Negate(ParseDigits(t[1..]))
    else if t != [] && t[0] == '+' then ParseDigits(t[1..])
    else ParseDigits(t)
  }

  function ParseDigits(t: string): (r: Num) {
    var digits := DigitPrefix(t);
    if digits == [] then NaN else Num(DecimalValue(digits))
  }

  function Negate(n: Num): Num {
    match n
    case NaN => NaN
    case Num(x) => Num(-x)
  }

  /** Digits not preceded by a sign are read as they are. */
  lemma ParseIntDigits(d: string, t: string)
    requires d != [] && forall k | 0 <= k < |d| :: IsDigit(d[k])
    requires t == [] || !IsDigit(t[0])
    ensures ParseInt(d + t) == Num(DecimalValue(d))
  {
    var s := d + t;
    assert s[0] == d[0];
    ParseIntUnsigned(s);
    ParseDigitsOf(d, t);
  }

  /** A string that starts with a digit is read by its digits alone. */
  lemma ParseIntUnsigned(s: string)
    requires s != [] && IsDigit(s[0])
    ensures ParseInt(s) == ParseDigits(s)
  {
    assert !IsSpace(s[0]);
    assert TrimStart(s) == s;
  }

  lemma DropSign(u: string)
    ensures ("-" + u)[0] == '-' && ("-" + u)[1..] == u
  {
  }

  /** The digits of a number, whatever follows them, are read as that number. */
  lemma ParseDigitsOf(d: string, t: string)
    requires d != [] && forall k | 0 <= k < |d| :: IsDigit(d[k])
    requires t == [] || !IsDigit(t[0])
    ensures ParseDigits(d + t) == Num(DecimalValue(d))
  {
    DigitPrefixOf(d, t);
  }

  /** A leading minus sign is read and the digits after it are negated. */
  lemma ParseIntMinus(u: string)
    ensures ParseInt("-" + u) == Negate(ParseDigits(u))
  {
    DropSign(u);
    assert TrimStart("-" + u) == "-" + u;
  }

  /**
   * `parseInt` reads back the decimal rendering of every integer, and stops at the first
   * character after the digits.
   */
  lemma ParseIntRendering(i: int, t: string)
    requires t == [] || !IsDigit(t[0])
    ensures ParseInt(IntToString(i) + t) == Num(i)
  {
    if i < 0 {
      var d := NatToString(-i);
      assert IntToString(i) + t == "-" + (d + t) by {
        Seqs.AppendAssoc("-", d, t);
      }
      assert DecimalValue(d) == -i by {
        NatToStringValue(-i);
      }
      ParseIntMinus(d + t);
      ParseDigitsOf(d, t);
    } else {
      var d := NatToString(i);
      assert DecimalValue(d) == i by {
        NatToStringValue(i);
      }
      ParseIntDigits(d, t);
    }
  }

  /** A string without any digit parses to NaN. */
  lemma ParseIntNoDigit(s: string)
    requires forall k | 0 <= k < |s| :: !IsDigit(s[k])
    ensures ParseInt(s) == NaN
  {
    var t := TrimStart(s);
    var rest := if t != [] && (t[0] == '-' || t[0] == '+') then t[1..] else t;
    if rest != [] {
      assert rest[0] in s;
    }
  }

  // ── The query parameters ─────────────────────────────────────────────────

  const DefaultLimit := "20"
  const DefaultOffset := "0"
  const MaxLimit := 100

  /** `searchParams.get(name) || fallback`: a missing or empty parameter takes the fallback. */
  function ParamOr(p: Option<string>, fallback: string): string {
    if Truthy(p) then p.value else fallback
  }

  /** `Math.min(n, m)`: NaN stays NaN. */
  function MinNum(n: Num, m: int): (r: Num)
    ensures r.NaN? <==> n.NaN?
    ensures r.Num? ==> r.value <= m && r.value <= n.value && (r.value == m || r.value == n.value)
  {
    match n
    case NaN => NaN
    case Num(x) => Num(if x < m then x else m)
  }

  /** `limit`: the parsed parameter (20 when absent or empty), at most 100. */
  function LimitOf(p: Option<string>): (r: Num)
    ensures r.Num? ==> r.value <= MaxLimit
  {
    MinNum(ParseInt(ParamOr(p, DefaultLimit)), MaxLimit)
  }

  /** `offset`: the parsed parameter, 0 when absent or empty. */
  function OffsetOf(p: Option<string>): Num {
    ParseInt(ParamOr(p, DefaultOffset))
  }

  /** "20" and "0", the fallbacks, read as 20 and 0. */
  lemma DefaultsParse()
    ensures ParseInt(DefaultLimit) == Num(20)
    ensures ParseInt(DefaultOffset) == Num(0)
  {
    DefaultLimitParses();
    DefaultOffsetParses();
  }

  lemma DefaultLimitParses()
    ensures ParseInt(DefaultLimit) == Num(20)
  {
    assert DecimalValue("20") == 20 by {
      assert "20"[..1] == "2";
    }
    assert DefaultLimit + "" == "20";
    ParseIntDigits("20", "");
  }

  lemma DefaultOffsetParses()
    ensures ParseInt(DefaultOffset) == Num(0)
  {
    assert DefaultOffset + "" == "0";
    ParseIntDigits("0", "");
  }

  /** The rendering of a number is a non-empty parameter read back as that number. */
  lemma RequestedParses(i: int)
    ensures Truthy(Some(IntToString(i)))
    ensures ParseInt(IntToString(i)) == Num(i)
  {
    assert IntToString(i) + "" == IntToString(i);
    ParseIntRendering(i, "");
  }

  /** An absent or empty limit is 20, an absent or empty offset 0. */
  lemma Fallbacks(p: Option<string>)
    requires !Truthy(p)
    ensures LimitOf(p) == Num(20)
    ensures OffsetOf(p) == Num(0)
  {
    assert ParamOr(p, DefaultLimit) == DefaultLimit;
    assert ParamOr(p, DefaultOffset) == DefaultOffset;
    DefaultsParse();
  }

  /** The limit is 20 by default, the requested number when at most 100, and 100 otherwise. */
  lemma LimitCases(i: int)
    ensures LimitOf(None) == Num(20) && LimitOf(Some("")) == Num(20)
    ensures LimitOf(Some(IntToString(i))) == Num(if i < MaxLimit then i else MaxLimit)
  {
    Fallbacks(None);
    Fallbacks(Some(""));
    RequestedParses(i);
  }

  /** The offset is 0 by default and the requested number otherwise. */
  lemma OffsetCases(i: int)
    ensures OffsetOf(None) == Num(0) && OffsetOf(Some("")) == Num(0)
    ensures OffsetOf(Some(IntToString(i))) == Num(i)
  {
    Fallbacks(None);
    Fallbacks(Some(""));
    RequestedParses(i);
  }

  // ── Number arithmetic and Array.prototype.slice ──────────────────────────

  /** `a + b` on numbers: NaN if either is NaN. */
  function AddNum(a: Num, b: Num): (r: Num)
    ensures r.Num? <==> a.Num? && b.Num?
    ensures r.Num? ==> r.value == a.value + b.value
  {
    if a.NaN? || b.NaN? then NaN else Num(a.value + b.value)
  }

  /** `a < n`: false for NaN. */
  predicate LessThan(a: Num, n: int) {
    a.Num? && a.value < n
  }

  /** How `slice` reads a position: NaN is 0, a negative one counts from the end, clamped to [0, len]. */
  function SliceIndex(n: Num, len: nat): (r: nat)
    ensures r <= len
    ensures n.NaN? ==> r == 0
    ensures n.Num? && n.value >= 0 ==> r == if n.value < len then n.value else len
    ensures n.Num? && n.value < 0 ==> r == if len + n.value < 0 then 0 else len + n.value
  {
    match n
    case NaN => 0
    case Num(x) =>
      if x < 0 then (if len + x < 0 then 0 else len + x)
      else if x < len then x else len
  }

  /** `s.slice(start, end)`. */
  function Slice<T>(s: seq<T>, start: Num, end: Num): (r: seq<T>)
    ensures var k := SliceIndex(start, |s|);
      var f := SliceIndex(end, |s|);
      r == if k < f then s[k..f] else []
  {
    var k := SliceIndex(start, |s|);
    var f := SliceIndex(end, |s|);
    if k < f then s[k..f] else []
  }

  // ── The response ─────────────────────────────────────────────────────────

  /** The `pagination` block; a NaN limit or offset is serialised as null. */
  datatype Pagination = Pagination(limit: Num, offset: Num, total: nat, hasMore: bool)

  datatype AuditsResponse =
    | RunsPage(data: seq<AuditRun>, pagination: Pagination)
    | FetchFailed(error: string, details: string)

  /** The page exactly as the route computes it from the parsed limit and offset. */
  function PaginateAsWritten(limit: Num, offset: Num, allRuns: seq<AuditRun>): AuditsResponse {
    var end := AddNum(offset, limit);
    RunsPage(
      Slice(allRuns, offset, end),
      Pagination(limit, offset, |allRuns|, LessThan(end, |allRuns|)))
  }

  /**
   * With `?limit=-1` and three runs the route returns two runs, more than the limit, and says
   * there are more; with `?offset=-1` it returns the last run instead of the first page.
   */
  lemma NegativeParametersMisbehave(allRuns: seq<AuditRun>)
    requires |allRuns| == 3
    ensures var p := PaginateAsWritten(LimitOf(Some("-1")), OffsetOf(None), allRuns);
      && p.pagination.limit == Num(-1)
      && |p.data| == 2 && p.data == allRuns[..2]
      && p.pagination.hasMore
    ensures var p := PaginateAsWritten(LimitOf(None), OffsetOf(Some("-1")), allRuns);
      && p.data == allRuns[2..] && !p.pagination.hasMore
  {
    MinusOneParameters();
    Fallbacks(None);
    NegativeWindows(allRuns);
  }

  /** "-1" reads as -1. */
  lemma MinusOneParses()
    ensures ParseInt("-1") == Num(-1)
  {
    var s := "-1";
    assert !IsSpace(s[0]);
    assert TrimStart(s) == s;
    assert s[1..] == "1";
    assert DigitPrefix(s[1..]) == "1" by {
      assert "1"[1..] == "";
    }
    assert DecimalValue("1") == 1 by {
      assert "1"[..0] == "";
    }
  }

  /** "-1" reads as a limit of -1 and as an offset of -1. */
  lemma MinusOneParameters()
    ensures LimitOf(Some("-1")) == Num(-1)
    ensures OffsetOf(Some("-1")) == Num(-1)
  {
    MinusOneParses();
  }

  /** The pages the slice gives for a limit or an offset of -1 over three runs. */
  lemma NegativeWindows(allRuns: seq<AuditRun>)
    requires |allRuns| == 3
    ensures var p := PaginateAsWritten(Num(-1), Num(0), allRuns);
      && |p.data| == 2 && p.data == allRuns[..2] && p.pagination.hasMore
    ensures var p := PaginateAsWritten(Num(20), Num(-1), allRuns);
      && p.data == allRuns[2..] && !p.pagination.hasMore
  {
  }

  /** A negative number read as 0. */
  function NonNegative(n: Num): (r: Num)
    ensures r.NaN? <==> n.NaN?
    ensures r.Num? ==> r.value >= 0 && (r.value == n.value || (n.value < 0 && r.value == 0))
  {
    match n
    case NaN => NaN
    case Num(x) => Num(if x < 0 then 0 else x)
  }

  /** The page with negative limits and offsets read as 0 (see Findings). */
  function Paginate(limit: Num, offset: Num, allRuns: seq<AuditRun>): AuditsResponse {
    PaginateAsWritten(NonNegative(limit), NonNegative(offset), allRuns)
  }

  /**
   * A page is the window of `limit` runs from `offset` on, cut at the end of the list; it never
   * holds more than `limit` runs, `total` counts the list, and `hasMore` holds exactly when runs
   * remain after the window.
   */
  lemma PageIsWindow(l: int, o: int, allRuns: seq<AuditRun>)
    requires l >= 0 && o >= 0
    ensures var p := Paginate(Num(l), Num(o), allRuns);
      var n := |allRuns|;
      && p.data == (if o < n then allRuns[o..if o + l < n then o + l else n] else [])
      && |p.data| <= l
      && p.pagination == Pagination(Num(l), Num(o), n, o + l < n)
  {
  }

  /** A NaN limit or offset gives an empty page with nothing more. */
  lemma PageOfNaN(limit: Num, offset: Num, allRuns: seq<AuditRun>)
    requires limit.NaN? || offset.NaN?
    ensures PaginateAsWritten(limit, offset, allRuns).data == []
    ensures !PaginateAsWritten(limit, offset, allRuns).pagination.hasMore
  {
  }

  // ── GET ──────────────────────────────────────────────────────────────────

  const FetchFailedMessage := "Failed to fetch audit data"

  /**
   * `GET /api/seo/audits?limit&offset`: `query` is what the BigQuery query returned or the
   * message it threw, `timeOf` reads a date text into a timestamp.
   */
  function Get(limitParam: Option<string>, offsetParam: Option<string>,
               query: Result<seq<SeoAuditRow>>, timeOf: string -> int): AuditsResponse
  {
    match query
    case Err(message) => FetchFailed(FetchFailedMessage, message)
    case Ok(rows) => PaginateAsWritten(LimitOf(limitParam), OffsetOf(offsetParam), AuditRuns(rows, timeOf))
  }

  /**
   * For parameters that read as non-negative numbers, GET answers the clamped page, the window
   * of `limit` runs from `offset` on that `PageIsWindow` describes.
   */
  lemma GetPageIsWindow(limitParam: Option<string>, offsetParam: Option<string>,
                        rows: seq<SeoAuditRow>, timeOf: string -> int)
    requires LimitOf(limitParam).Num? && LimitOf(limitParam).value >= 0
    requires OffsetOf(offsetParam).Num? && OffsetOf(offsetParam).value >= 0
    ensures Get(limitParam, offsetParam, Ok(rows), timeOf)
         == Paginate(LimitOf(limitParam), OffsetOf(offsetParam), AuditRuns(rows, timeOf))
  {
    var l, o := LimitOf(limitParam), OffsetOf(offsetParam);
    AsWrittenWhenNonNegative(l, o, AuditRuns(rows, timeOf));
  }

  /** Clamping changes nothing for non-negative numbers. */
  lemma AsWrittenWhenNonNegative(l: Num, o: Num, allRuns: seq<AuditRun>)
    requires l.Num? && l.value >= 0 && o.Num? && o.value >= 0
    ensures PaginateAsWritten(l, o, allRuns) == Paginate(l, o, allRuns)
  {
    assert NonNegative(l) == l && NonNegative(o) == o;
  }

  /** A failing query is answered with the error and its message. */
  lemma GetFailure(limitParam: Option<string>, offsetParam: Option<string>, message: string, timeOf: string -> int)
    ensures Get(limitParam, offsetParam, Err(message), timeOf) == FetchFailed(FetchFailedMessage, message)
  {
  }

  /** `total` counts audit runs (distinct audit ids), not rows. */
  lemma GetTotalCountsRuns(limitParam: Option<string>, offsetParam: Option<string>,
                           rows: seq<SeoAuditRow>, timeOf: string -> int)
    ensures Get(limitParam, offsetParam, Ok(rows), timeOf).RunsPage?
    ensures Get(limitParam, offsetParam, Ok(rows), timeOf).pagination.total == |Seqs.Dedup(AuditIds(rows))|
  {
    AuditRunsOnePerId(rows, timeOf);
  }

  /**
   * Pagination comes after grouping and sorting: a page is newest first, and no run on it is
   * older than a run of a later page.
   */
  lemma PagesNewestFirst(l: int, o: int, rows: seq<SeoAuditRow>, timeOf: string -> int)
    requires l >= 0 && o >= 0
    ensures var all := AuditRuns(rows, timeOf);
      var data := PaginateAsWritten(Num(l), Num(o), all).data;
      && (forall i, j | 0 <= i < j < |data| :: timeOf(data[i].date) >= timeOf(data[j].date))
      && (forall i, j | 0 <= i < |data| && o + l <= j < |all| :: timeOf(data[i].date) >= timeOf(all[j].date))
  {
    var all := AuditRuns(rows, timeOf);
    AuditRunsNewestFirst(rows, timeOf);
    AsWrittenWhenNonNegative(Num(l), Num(o), all);
    PageIsWindow(l, o, all);
    if o < |all| {
      SliceNewestFirst(all, o, if o + l < |all| then o + l else |all|, o + l, timeOf);
    }
  }

  /** A slice of a newest-first list is newest first and no older than what follows `bound`. */
  lemma SliceNewestFirst(all: seq<AuditRun>, o: nat, e: nat, bound: int, timeOf: string -> int)
    requires forall i, j | 0 <= i < j < |all| :: timeOf(all[i].date) >= timeOf(all[j].date)
    requires o <= e <= |all| && e <= bound
    ensures var data := all[o..e];
      && (forall i, j | 0 <= i < j < |data| :: timeOf(data[i].date) >= timeOf(data[j].date))
      && (forall i, j | 0 <= i < |data| && bound <= j < |all| :: timeOf(data[i].date) >= timeOf(all[j].date))
  {
    var data := all[o..e];
    forall i, j | 0 <= i < j < |data| ensures timeOf(data[i].date) >= timeOf(data[j].date) {
      assert data[i] == all[o + i] && data[j] == all[o + j];
    }
    forall i, j | 0 <= i < |data| && bound <= j < |all| ensures timeOf(data[i].date) >= timeOf(all[j].date) {
      assert data[i] == all[o + i];
    }
  }
}
