/**
 * The dashboard's formatting helpers (src/lib/utils.ts): durations as "1h 2m 3s", the colour
 * and dot of a health score, and the lookups from a severity, threat level, sentiment, trend,
 * region or platform to a CSS class or an emoji.
 */
module Utils {
  import opened Wrappers
  import opened JsString
  import opened Records
  import opened SeoMapper
  import Seqs

  // ── formatDuration ───────────────────────────────────────────────────────

  /** JavaScript's `a % d`: the remainder takes the sign of `a`. */
  function JsRem(a: int, d: int): (r: int)
    requires d > 0
    ensures a >= 0 ==> 0 <= r < d
    ensures a < 0 ==> -d < r <= 0
  {
    if a >= 0 then a % d else -((-a) % d)
  }

  datatype Duration = Duration(hours: int, minutes: int, secs: int)

  /**
   * The three fields of `formatDuration(seconds)`: `Math.floor(seconds / 3600)`,
   * `Math.floor((seconds % 3600) / 60)` and `Math.floor(seconds % 60)`.
   */
  function DurationOf(seconds: int): Duration {
    Duration(seconds / 3600, JsRem(seconds, 3600) / 60, JsRem(seconds, 60))
  }

  /** The number of seconds that a duration stands for. */
  function TotalSeconds(d: Duration): int {
    d.hours * 3600 + d.minutes * 60 + d.secs
  }

  predicate ValidDuration(d: Duration) {
    d.hours >= 0 && 0 <= d.minutes < 60 && 0 <= d.secs < 60
  }

  /** `formatDuration(seconds)`: hours only when there are any, minutes only when hours or minutes are. */
  function FormatDuration(seconds: int): string {
    DurationText(DurationOf(seconds))
  }

  /** The template of `formatDuration` filled with the three fields. */
  function DurationText(d: Duration): string {
    Template(d.hours > 0, d.minutes > 0, IntToString(d.hours), IntToString(d.minutes), IntToString(d.secs))
  }

  /** `${h}h ${m}m ${s}s`, `${m}m ${s}s` or `${s}s`. */
  function Template(showHours: bool, showMinutes: bool, h: string, m: string, s: string): string {
    var secs := s + "s";
    if showHours then h + ("h " + (m + ("m " + secs)))
    else if showMinutes then m + ("m " + secs)
    else secs
  }

  /** Division with a remainder in range is the only one. */
  lemma DivModUnique(x: int, d: int, q: int, t: int)
    requires d > 0 && x == d * q + t && 0 <= t < d
    ensures x / d == q && x % d == t
  {
    var q', t' := x / d, x % d;
    assert d * (q - q') == t' - t;
    MulSign(d, q - q');
  }

  /** A positive multiple of `d` is at least `d`, a negative one at most `-d`. */
  lemma MulSign(d: int, k: int)
    requires d > 0
    ensures k >= 1 ==> d * k >= d
    ensures k <= -1 ==> d * k <= -d
  {
    if k >= 1 {
      assert d * k == d * (k - 1) + d;
    } else if k <= -1 {
      assert d * k == d * (k + 1) - d;
    }
  }

  /** For a natural number of seconds the fields split it into hours, minutes under 60 and seconds under 60. */
  lemma DurationSplits(seconds: nat)
    ensures ValidDuration(DurationOf(seconds))
    ensures TotalSeconds(DurationOf(seconds)) == seconds
  {
    var h, r := seconds / 3600, seconds % 3600;
    var m, s := r / 60, r % 60;
    assert seconds == 60 * (60 * h + m) + s;
    DivModUnique(seconds, 60, 60 * h + m, s);
  }

  /** Every valid duration is the split of its total: the split and the total are inverses. */
  lemma DurationOfTotal(d: Duration)
    requires ValidDuration(d)
    ensures DurationOf(TotalSeconds(d)) == d
  {
    var x := TotalSeconds(d);
    var r := d.minutes * 60 + d.secs;
    assert 0 <= r < 3600;
    DivModUnique(x, 3600, d.hours, r);
    DivModUnique(r, 60, d.minutes, d.secs);
    assert x == 60 * (d.hours * 60 + d.minutes) + d.secs;
    DivModUnique(x, 60, d.hours * 60 + d.minutes, d.secs);
  }

  /** The three forms, in terms of the number of seconds. */
  lemma FormatDurationForms(seconds: nat)
    ensures seconds >= 3600 ==>
      FormatDuration(seconds) == IntToString(seconds / 3600) + ("h " + (IntToString(seconds % 3600 / 60) + ("m " + (IntToString(seconds % 60) + "s"))))
    ensures 60 <= seconds < 3600 ==>
      FormatDuration(seconds) == IntToString(seconds / 60) + ("m " + (IntToString(seconds % 60) + "s"))
    ensures seconds < 60 ==> FormatDuration(seconds) == IntToString(seconds) + "s"
  {
    DurationSplits(seconds);
    if seconds < 3600 {
      DivModUnique(seconds, 3600, 0, seconds);
    }
    if seconds < 60 {
      DivModUnique(seconds, 60, 0, seconds);
    }
  }

  /** A negative duration shows only its seconds, with the sign of JavaScript's remainder. */
  lemma NegativeDurationShowsSeconds(seconds: int)
    requires seconds < 0
    ensures FormatDuration(seconds) == IntToString(-((-seconds) % 60)) + "s"
  {
    var d := DurationOf(seconds);
    assert d.hours < 0;
    assert d.minutes <= 0;
  }

  // ── Reading a duration back ──────────────────────────────────────────────

  /** A natural number in decimal followed by `unit`: its value and what comes after the unit. */
  function ReadField(t: string, unit: string): Option<(nat, string)> {
    var digits := DigitPrefix(t);
    var rest := t[|digits|..];
    if digits != [] && unit <= rest then Some((DecimalValue(digits), rest[|unit|..])) else None
  }

  /** "Ss", the whole string. */
  function ParseSeconds(t: string): Option<nat> {
    match ReadField(t, "s")
    case Some((s, rest)) => if rest == [] then Some(s) else None
    case None => None
  }

  /** "Mm Ss" or "Ss". */
  function ParseMinutes(t: string): Option<nat> {
    match ReadField(t, "m ")
    case Some((m, rest)) => (match ParseSeconds(rest) case Some(s) => Some(m * 60 + s) case None => None)
    case None => ParseSeconds(t)
  }

  /** The inverse of `FormatDuration` on natural numbers: "Hh Mm Ss", "Mm Ss" or "Ss". */
  function ParseDuration(t: string): Option<nat> {
    match ReadField(t, "h ")
    case Some((h, rest)) => (match ParseMinutes(rest) case Some(s) => Some(h * 3600 + s) case None => None)
    case None => ParseMinutes(t)
  }

  /** `d` is a decimal numeral for `v`. */
  predicate Numeral(d: string, v: nat) {
    d != [] && (forall k | 0 <= k < |d| :: IsDigit(d[k])) && DecimalValue(d) == v
  }

  /** The rendering of a natural number is a numeral for it. */
  lemma NumeralOf(n: nat)
    ensures Numeral(IntToString(n), n)
  {
    assert IntToString(n) == NatToString(n);
    NatToStringValue(n);
  }

  /** A numeral followed by its unit is read as its value. */
  lemma ReadFieldOf(d: string, v: nat, unit: string, rest: string)
    requires Numeral(d, v) && unit != [] && !IsDigit(unit[0])
    ensures ReadField(d + (unit + rest), unit) == Some((v, rest))
  {
    var t := d + (unit + rest);
    DigitPrefixOf(d, unit + rest);
    assert t[|d|..] == unit + rest;
    assert (unit + rest)[|unit|..] == rest;
  }

  /** A numeral followed by another unit is not read as this one. */
  lemma ReadFieldOther(d: string, v: nat, unit: string, other: string, rest: string)
    requires Numeral(d, v) && unit != [] && other != [] && !IsDigit(other[0]) && unit[0] != other[0]
    ensures ReadField(d + (other + rest), unit) == None
  {
    var t := d + (other + rest);
    DigitPrefixOf(d, other + rest);
    assert t[|d|..] == other + rest;
    assert (other + rest)[0] == other[0];
  }

  lemma ParseMinutesStep(t: string, m: nat, rest: string, s: nat)
    requires ReadField(t, "m ") == Some((m, rest)) && ParseSeconds(rest) == Some(s)
    ensures ParseMinutes(t) == Some(m * 60 + s)
  {
  }

  lemma ParseMinutesSkip(t: string, s: nat)
    requires ReadField(t, "m ") == None && ParseSeconds(t) == Some(s)
    ensures ParseMinutes(t) == Some(s)
  {
  }

  lemma ParseDurationStep(t: string, h: nat, rest: string, s: nat)
    requires ReadField(t, "h ") == Some((h, rest)) && ParseMinutes(rest) == Some(s)
    ensures ParseDuration(t) == Some(h * 3600 + s)
  {
  }

  lemma ParseDurationSkip(t: string, s: nat)
    requires ReadField(t, "h ") == None && ParseMinutes(t) == Some(s)
    ensures ParseDuration(t) == Some(s)
  {
  }

  /** "Ss" is read as s, by each of the three readers. */
  lemma ParseSecondsForm(d: string, s: nat)
    requires Numeral(d, s)
    ensures ParseSeconds(d + "s") == Some(s)
    ensures ParseDuration(d + "s") == Some(s)
  {
    assert d + "s" == d + ("s" + "");
    ReadFieldOf(d, s, "s", "");
    ReadFieldOther(d, s, "m ", "s", "");
    ParseMinutesSkip(d + "s", s);
    ReadFieldOther(d, s, "h ", "s", "");
    ParseDurationSkip(d + "s", s);
  }

  /** "Mm " followed by readable seconds, by the minute and the duration readers. */
  lemma ParseMinutesForm(d: string, m: nat, tail: string, s: nat)
    requires Numeral(d, m) && ParseSeconds(tail) == Some(s)
    ensures ParseMinutes(d + ("m " + tail)) == Some(m * 60 + s)
    ensures ParseDuration(d + ("m " + tail)) == Some(m * 60 + s)
  {
    ReadFieldOf(d, m, "m ", tail);
    ParseMinutesStep(d + ("m " + tail), m, tail, s);
    ReadFieldOther(d, m, "h ", "m ", tail);
    ParseDurationSkip(d + ("m " + tail), m * 60 + s);
  }

  /** "Hh " followed by readable minutes and seconds. */
  lemma ParseHoursForm(d: string, h: nat, tail: string, v: nat)
    requires Numeral(d, h) && ParseMinutes(tail) == Some(v)
    ensures ParseDuration(d + ("h " + tail)) == Some(h * 3600 + v)
  {
    ReadFieldOf(d, h, "h ", tail);
    ParseDurationStep(d + ("h " + tail), h, tail, v);
  }

  /** Formatting a natural number of seconds and reading the text back gives the same number. */
  lemma FormatDurationRoundTrip(seconds: nat)
    ensures ParseDuration(FormatDuration(seconds)) == Some(seconds)
  {
    DurationSplits(seconds);
    DurationTextRoundTrip(DurationOf(seconds));
  }

  /** The text of a valid duration reads back as its total. */
  lemma DurationTextRoundTrip(d: Duration)
    requires ValidDuration(d)
    ensures ParseDuration(DurationText(d)) == Some(TotalSeconds(d))
  {
    var h: nat, m: nat, s: nat := d.hours, d.minutes, d.secs;
    NumeralOf(h);
    NumeralOf(m);
    NumeralOf(s);
    var text := Template(h > 0, m > 0, IntToString(h), IntToString(m), IntToString(s));
    assert DurationText(d) == text;
    assert (if h > 0 then h * 3600 + (m * 60 + s) else if m > 0 then m * 60 + s else s) == TotalSeconds(d);
    TemplateRoundTrip(h > 0, m > 0, IntToString(h), h, IntToString(m), m, IntToString(s), s);
  }

  /** The template filled with numerals reads back as the total of the fields it shows. */
  lemma TemplateRoundTrip(showHours: bool, showMinutes: bool,
                          dh: string, h: nat, dm: string, m: nat, ds: string, s: nat)
    requires Numeral(dh, h) && Numeral(dm, m) && Numeral(ds, s)
    ensures ParseDuration(Template(showHours, showMinutes, dh, dm, ds)) ==
      Some(if showHours then h * 3600 + (m * 60 + s) else if showMinutes then m * 60 + s else s)
  {
    ParseSecondsForm(ds, s);
    if showHours {
      ParseMinutesForm(dm, m, ds + "s", s);
      ParseHoursForm(dh, h, dm + ("m " + (ds + "s")), m * 60 + s);
    } else if showMinutes {
      ParseMinutesForm(dm, m, ds + "s", s);
    }
  }

  /** Different natural numbers of seconds are never shown the same way. */
  lemma FormatDurationInjective(a: nat, b: nat)
    ensures FormatDuration(a) == FormatDuration(b) <==> a == b
  {
    FormatDurationRoundTrip(a);
    FormatDurationRoundTrip(b);
  }

  // ── Health score colours and dots ────────────────────────────────────────

  /** The band of a health score: at least 90, at least 70, at least 50, or below. */
  function Band(score: real): (r: CategoryStatus)
    ensures r == Excellent <==> score >= 90.0
    ensures r == Good <==> 70.0 <= score < 90.0
    ensures r == NeedsImprovement <==> 50.0 <= score < 70.0
    ensures r == Poor <==> score < 50.0
  {
    if score >= 90.0 then Excellent
    else if score >= 70.0 then Good
    else if score >= 50.0 then NeedsImprovement
    else Poor
  }

  /** `getHealthScoreColor(score)`. */
  function HealthScoreColor(score: real): string {
    if score >= 90.0 then "text-green-500"
    else if score >= 70.0 then "text-yellow-500"
    else if score >= 50.0 then "text-orange-500"
    else "text-red-500"
  }

  /** `getHealthScoreBgColor(score)`. */
  function HealthScoreBgColor(score: real): string {
    if score >= 90.0 then "bg-green-500"
    else if score >= 70.0 then "bg-yellow-500"
    else if score >= 50.0 then "bg-orange-500"
    else "bg-red-500"
  }

  /** `getStatusDot(score)`: green, yellow, orange or red circle. */
  function StatusDot(score: real): string {
    if score >= 90.0 then "\U{1F7E2}"
    else if score >= 70.0 then "\U{1F7E1}"
    else if score >= 50.0 then "\U{1F7E0}"
    else "\U{1F534}"
  }

  /** The text class, background class and dot of each band. */
  function BandText(b: CategoryStatus): string {
    match b
    case Excellent => "text-green-500"
    case Good => "text-yellow-500"
    case NeedsImprovement => "text-orange-500"
    case Poor => "text-red-500"
  }

  function BandBg(b: CategoryStatus): string {
    match b
    case Excellent => "bg-green-500"
    case Good => "bg-yellow-500"
    case NeedsImprovement => "bg-orange-500"
    case Poor => "bg-red-500"
  }

  function BandDot(b: CategoryStatus): string {
    match b
    case Excellent => "\U{1F7E2}"
    case Good => "\U{1F7E1}"
    case NeedsImprovement => "\U{1F7E0}"
    case Poor => "\U{1F534}"
  }

  /** The text colour, the background colour and the dot are all functions of the same band. */
  lemma ScoreDisplaysFollowBand(score: real)
    ensures HealthScoreColor(score) == BandText(Band(score))
    ensures HealthScoreBgColor(score) == BandBg(Band(score))
    ensures StatusDot(score) == BandDot(Band(score))
  {
  }

  /** The band named by a colour, read from its first letter. */
  function BandOfHue(hue: string): CategoryStatus {
    if hue == [] then Poor
    else if hue[0] == 'g' then Excellent
    else if hue[0] == 'y' then Good
    else if hue[0] == 'o' then NeedsImprovement
    else Poor
  }

  /** The band shown by a dot. */
  function BandOfDot(dot: string): CategoryStatus {
    if dot == [] then Poor
    else if dot[0] == '\U{1F7E2}' then Excellent
    else if dot[0] == '\U{1F7E1}' then Good
    else if dot[0] == '\U{1F7E0}' then NeedsImprovement
    else Poor
  }

  /** Each class and each dot tells its band back. */
  lemma BandDisplaysDecode(a: CategoryStatus)
    ensures BandOfHue(BandText(a)[5..]) == a
    ensures BandOfHue(BandBg(a)[3..]) == a
    ensures BandOfDot(BandDot(a)) == a
  {
  }

  /** Distinct bands are shown differently by each of the three displays. */
  lemma BandDisplaysDistinct(a: CategoryStatus, b: CategoryStatus)
    ensures BandText(a) == BandText(b) <==> a == b
    ensures BandBg(a) == BandBg(b) <==> a == b
    ensures BandDot(a) == BandDot(b) <==> a == b
  {
    BandDisplaysDecode(a);
    BandDisplaysDecode(b);
  }

  /** An integer score falls in the same band as the category status the mapper gives it. */
  lemma BandIsCategoryStatus(score: int)
    ensures Band(score as real) == GetCategoryStatus(Some(score))
  {
  }

  /** A higher score never falls in a worse band. */
  lemma BandMonotone(a: real, b: real)
    requires a <= b
    ensures Rank(Band(a)) <= Rank(Band(b))
  {
  }

  // ── Severity, threat and sentiment colours ───────────────────────────────

  const Severities: seq<string> := ["critical", "high", "medium", "low", "info"]
  const ZincSeverity := "text-zinc-500 bg-zinc-500/10"

  /** `getSeverityColor(severity)`. */
  function SeverityColor(severity: string): string {
    match severity
    case "critical" => "text-red-600 bg-red-500/10"
    case "high" => "text-orange-500 bg-orange-500/10"
    case "medium" => "text-yellow-500 bg-yellow-500/10"
    case "low" => "text-green-500 bg-green-500/10"
    case "info" => "text-blue-500 bg-blue-500/10"
    case _ => ZincSeverity
  }

  /** The severity named by a class, read from the letter after "text-"; None for the zinc class. */
  function SeverityOfColor(c: string): Option<string> {
    if |c| <= 5 then None
    else if c[5] == 'r' then Some("critical")
    else if c[5] == 'o' then Some("high")
    else if c[5] == 'y' then Some("medium")
    else if c[5] == 'g' then Some("low")
    else if c[5] == 'b' then Some("info")
    else None
  }

  /** The class of a known severity tells the severity back; the class of any other string tells nothing. */
  lemma SeverityColorDecodes(severity: string)
    ensures SeverityOfColor(SeverityColor(severity)) == if severity in Severities then Some(severity) else None
  {
    if severity !in Severities {
      assert SeverityColor(severity) == ZincSeverity;
    }
  }

  /**
   * The five known severities have five distinct classes, and every other string gets the zinc
   * class, which none of them has.
   */
  lemma SeverityColorsDistinct(a: string, b: string)
    ensures a in Severities && b in Severities ==> (SeverityColor(a) == SeverityColor(b) <==> a == b)
    ensures SeverityColor(a) == ZincSeverity <==> a !in Severities
  {
    SeverityColorDecodes(a);
    SeverityColorDecodes(b);
    assert SeverityOfColor(ZincSeverity) == None;
  }

  /** `getThreatColor(level)`. */
  function ThreatColor(level: string): string {
    match level
    case "high" => "text-red-500"
    case "medium" => "text-orange-500"
    case "low" => "text-green-500"
    case _ => "text-zinc-500"
  }

  /** `getSentimentColor(sentiment)`. */
  function SentimentColor(sentiment: string): string {
    match sentiment
    case "positive" => "text-green-500"
    case "negative" => "text-red-500"
    case _ => "text-zinc-400"
  }

  /** Exactly the unknown threat levels and sentiments get the zinc fallback. */
  lemma ColorFallbacks(level: string, sentiment: string)
    ensures ThreatColor(level) == "text-zinc-500" <==> level !in ["high", "medium", "low"]
    ensures SentimentColor(sentiment) == "text-zinc-400" <==> sentiment !in ["positive", "negative"]
  {
    if level in ["high", "medium", "low"] {
      assert ThreatColor(level)[5] != 'z';
    }
    if sentiment in ["positive", "negative"] {
      assert SentimentColor(sentiment)[5] != 'z';
    }
  }

  // ── Trend ────────────────────────────────────────────────────────────────

  /** The sign of a number: 1, -1 or 0. */
  function Sign(x: real): (r: int)
    ensures r == 1 <==> x > 0.0
    ensures r == -1 <==> x < 0.0
    ensures r == 0 <==> x == 0.0
  {
    if x > 0.0 then 1 else if x < 0.0 then -1 else 0
  }

  /** `getTrendIcon(trend)`: up, down or right arrow. */
  function TrendIcon(trend: real): string {
    if trend > 0.0 then "\U{2191}" else if trend < 0.0 then "\U{2193}" else "\U{2192}"
  }

  /** `getTrendColor(trend)`. */
  function TrendColor(trend: real): string {
    if trend > 0.0 then "text-green-500" else if trend < 0.0 then "text-red-500" else "text-zinc-400"
  }

  /** The icon and the colour depend on the sign of the trend and on nothing else, and each tells the sign. */
  lemma TrendFollowsSign(a: real, b: real)
    ensures TrendIcon(a) == TrendIcon(b) <==> Sign(a) == Sign(b)
    ensures TrendColor(a) == TrendColor(b) <==> Sign(a) == Sign(b)
  {
    if Sign(a) != Sign(b) {
      assert TrendIcon(a)[0] != TrendIcon(b)[0];
      assert TrendColor(a)[5] != TrendColor(b)[5];
    }
  }

  // ── Region flags and platform icons ──────────────────────────────────────

  const Globe := "\U{1F30D}"
  const Robot := "\U{1F916}"

  /** The `flags` object of `getRegionFlag`. */
  const RegionFlags: Entries<string> := [
    ("us", "\U{1F1FA}\U{1F1F8}"), ("uk", "\U{1F1EC}\U{1F1E7}"), ("de", "\U{1F1E9}\U{1F1EA}"),
    ("fr", "\U{1F1EB}\U{1F1F7}"), ("es", "\U{1F1EA}\U{1F1F8}"), ("it", "\U{1F1EE}\U{1F1F9}"),
    ("ae", "\U{1F1E6}\U{1F1EA}"), ("in", "\U{1F1EE}\U{1F1F3}")]

  /** The `icons` object of `getPlatformIcon`. */
  const PlatformIcons: Entries<string> := [
    ("chatgpt", Robot), ("perplexity", "\U{1F50D}"), ("claude", "\U{1F9E0}"),
    ("gemini", "\U{264A}"), ("ai_overviews", "\U{1F310}"), ("copilot", "\U{1F4BB}")]

  /** `table[key] || fallback`. */
  function LookupOr(table: Entries<string>, key: string, fallback: string): string {
    var v := Lookup(table, key);
    if Truthy(v) then v.value else fallback
  }

  /** `getRegionFlag(region)`. */
  function RegionFlag(region: string): string {
    LookupOr(RegionFlags, region, Globe)
  }

  /** `getPlatformIcon(platform)`. */
  function PlatformIcon(platform: string): string {
    LookupOr(PlatformIcons, platform, Robot)
  }

  /** A table whose values are all non-empty gives the stored value for a key and the fallback otherwise. */
  lemma LookupOrCases(table: Entries<string>, key: string, fallback: string)
    requires forall i | 0 <= i < |table| :: table[i].1 != ""
    ensures !HasKey(table, key) ==> LookupOr(table, key, fallback) == fallback
    ensures HasKey(table, key) ==> (key, LookupOr(table, key, fallback)) in table
  {
    var v := Lookup(table, key);
    if v.Some? {
      var i :| 0 <= i < |table| && table[i] == (key, v.value);
      assert table[i].1 != "";
    }
  }

  /** A known region gets its flag, which is never the globe; every other region gets the globe. */
  lemma RegionFlagCases(region: string)
    ensures RegionFlag(region) == Globe <==> !HasKey(RegionFlags, region)
    ensures HasKey(RegionFlags, region) ==> (region, RegionFlag(region)) in RegionFlags
  {
    assert forall i | 0 <= i < |RegionFlags| :: |RegionFlags[i].1| == 2;
    LookupOrCases(RegionFlags, region, Globe);
  }

  /** A known platform gets its icon; every other platform gets the robot, which is also ChatGPT's. */
  lemma PlatformIconCases(platform: string)
    ensures !HasKey(PlatformIcons, platform) ==> PlatformIcon(platform) == Robot
    ensures HasKey(PlatformIcons, platform) ==> (platform, PlatformIcon(platform)) in PlatformIcons
    ensures PlatformIcon(platform) == Robot <==> platform == "chatgpt" || !HasKey(PlatformIcons, platform)
  {
    assert forall i | 0 <= i < |PlatformIcons| :: |PlatformIcons[i].1| == 1;
    assert forall i | 1 <= i < |PlatformIcons| :: PlatformIcons[i].1[0] != Robot[0];
    LookupOrCases(PlatformIcons, platform, Robot);
    assert HasKey(PlatformIcons, "chatgpt") by {
      assert PlatformIcons[0].0 == "chatgpt";
    }
  }
}
