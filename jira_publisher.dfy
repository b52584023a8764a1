/**
 * The Jira publisher (src/lib/agents/ticket-creation/jira-publisher.ts): the configuration read
 * from the environment, the ADF description, the CSV of affected URLs, `slugify`, team labels,
 * and the sequential publish loop over a Jira server that answers each HTTP call.
 */
module JiraPublisher {
  import opened Wrappers
  import opened JsString
  import opened TicketTypes
  import Seqs

  // ── Configuration ────────────────────────────────────────────────────────

  /** The parts of `getJiraConfig()` the calls use; the Basic auth header is built from email and key. */
  datatype JiraConfig = JiraConfig(baseUrl: string, email: string, apiKey: string, projectKey: string)

  const MissingJiraEnv: string := "Missing Jira environment variables. Required: JIRA_BASE_URL, JIRA_EMAIL, JIRA_API_KEY"

  /** `process.env[name]`: absent names are undefined. */
  function Env(env: map<string, string>, name: string): Option<string> {
    if name in env then Some(env[name]) else None
  }

  /** `getJiraConfig()`: the three credentials must be set and non-empty; the project key defaults to ENG. */
  function GetJiraConfig(env: map<string, string>): (r: Result<JiraConfig>)
    ensures r.Ok? <==> Truthy(Env(env, "JIRA_BASE_URL")) && Truthy(Env(env, "JIRA_EMAIL")) && Truthy(Env(env, "JIRA_API_KEY"))
    ensures r.Err? ==> r.error == MissingJiraEnv
    ensures r.Ok? ==>
      && r.value.baseUrl == env["JIRA_BASE_URL"] && r.value.email == env["JIRA_EMAIL"]
      && r.value.apiKey == env["JIRA_API_KEY"]
      && r.value.projectKey == (if "JIRA_PROJECT_KEY" in env then env["JIRA_PROJECT_KEY"] else "ENG")
  {
    var baseUrl := Env(env, "JIRA_BASE_URL");
    var email := Env(env, "JIRA_EMAIL");
    var apiKey := Env(env, "JIRA_API_KEY");
    var projectKey := OrElse(Env(env, "JIRA_PROJECT_KEY"), "ENG");
    if !Truthy(baseUrl) || !Truthy(email) || !Truthy(apiKey) then Err(MissingJiraEnv)
    else Ok(JiraConfig(baseUrl.value, email.value, apiKey.value, projectKey))
  }

  // ── ADF (Atlassian Document Format) ──────────────────────────────────────

  datatype AdfNode =
    | Doc(content: seq<AdfNode>)
    | Heading(level: int, content: seq<AdfNode>)
    | Paragraph(content: seq<AdfNode>)
    | Text(text: string, bold: bool)
    | Rule
    | BulletList(content: seq<AdfNode>)
    | ListItem(content: seq<AdfNode>)

  function AdfHeading(level: int, text: string): AdfNode {
    Heading(level, [Text(text, false)])
  }

  function AdfParagraph(text: string): AdfNode {
    Paragraph([Text(text, false)])
  }

  /** `urls.map((url) => adfParagraph(url))`. */
  function UrlParagraphs(urls: seq<string>): (r: seq<AdfNode>)
    ensures |r| == |urls| && forall i | 0 <= i < |urls| :: r[i] == AdfParagraph(urls[i])
  {
    seq(|urls|, i requires 0 <= i < |urls| => AdfParagraph(urls[i]))
  }

  /** The seven nodes every description starts with. */
  function DescriptionHead(ticket: DraftedTicket): seq<AdfNode> {
    [AdfHeading(2, "Objective"), AdfParagraph(ticket.objective),
     AdfHeading(2, "Summary"), AdfParagraph(ticket.summary),
     AdfHeading(2, "Proposed Solution"), AdfParagraph(ticket.proposedSolution),
     Rule]
  }

  /** `adfParagraph(`${urlCount} URLs affected — see attached CSV file for complete list.`)`. */
  function CountLine(urlCount: int): string {
    IntToString(urlCount) + " URLs affected \U{2014} see attached CSV file for complete list."
  }

  /** `urls.slice(0, 5)`. */
  function FirstFive(urls: seq<string>): (r: seq<string>)
    ensures r == if |urls| <= 5 then urls else urls[..5]
  {
    if |urls| <= 5 then urls else urls[..5]
  }

  /** `buildAdfDescription(ticket, urlCount, sampleUrls)`: the head, then the affected-URLs section. */
  function BuildAdfDescription(ticket: DraftedTicket, urlCount: int, sampleUrls: seq<string>): AdfNode {
    var content := DescriptionHead(ticket);
    if urlCount <= 5 then
      Doc(content + [AdfHeading(3, "Affected URLs (" + IntToString(urlCount) + ")")] + UrlParagraphs(sampleUrls))
    else
      Doc(content + [AdfHeading(3, "Affected URLs"), AdfParagraph(CountLine(urlCount)),
                     AdfHeading(4, "Sample (first 5):")] + UrlParagraphs(FirstFive(sampleUrls)))
  }

  /** The text of a one-text paragraph, as a list of zero or one texts. */
  function TextOf(node: AdfNode): seq<string> {
    if node.Paragraph? && |node.content| == 1 && node.content[0].Text? then [node.content[0].text] else []
  }

  /** The texts of a node list's paragraphs, in order. */
  function ParagraphTexts(nodes: seq<AdfNode>): seq<string>
    decreases |nodes|
  {
    if nodes == [] then [] else ParagraphTexts(nodes[..|nodes| - 1]) + TextOf(nodes[|nodes| - 1])
  }

  lemma ParagraphTextsStep(nodes: seq<AdfNode>, k: nat)
    requires k < |nodes|
    ensures ParagraphTexts(nodes[..k + 1]) == ParagraphTexts(nodes[..k]) + TextOf(nodes[k])
  {
    assert nodes[..k + 1][..k] == nodes[..k];
  }

  lemma {:induction false} ParagraphTextsConcat(a: seq<AdfNode>, b: seq<AdfNode>)
    ensures ParagraphTexts(a + b) == ParagraphTexts(a) + ParagraphTexts(b)
    decreases |b|
  {
    if b == [] {
      assert a + b == a;
    } else {
      assert (a + b)[..|a + b| - 1] == a + b[..|b| - 1];
      ParagraphTextsConcat(a, b[..|b| - 1]);
    }
  }

  lemma {:induction false} ParagraphTextsOfUrls(urls: seq<string>)
    ensures ParagraphTexts(UrlParagraphs(urls)) == urls
    decreases |urls|
  {
    if urls != [] {
      var front := urls[..|urls| - 1];
      assert UrlParagraphs(urls) == UrlParagraphs(front) + [AdfParagraph(urls[|urls| - 1])];
      ParagraphTextsConcat(UrlParagraphs(front), [AdfParagraph(urls[|urls| - 1])]);
      assert [AdfParagraph(urls[|urls| - 1])][..0] == [];
      ParagraphTextsOfUrls(front);
    }
  }

  /** The seven head nodes read back as the objective, the summary and the proposed solution, in order. */
  lemma DescriptionHeadTexts(ticket: DraftedTicket)
    ensures ParagraphTexts(DescriptionHead(ticket)) == [ticket.objective, ticket.summary, ticket.proposedSolution]
  {
    var s1 := [AdfHeading(2, "Objective"), AdfParagraph(ticket.objective)];
    var s2 := [AdfHeading(2, "Summary"), AdfParagraph(ticket.summary)];
    var s3 := [AdfHeading(2, "Proposed Solution"), AdfParagraph(ticket.proposedSolution)];
    assert DescriptionHead(ticket) == s1 + s2 + s3 + [Rule];
    SectionTexts("Objective", ticket.objective);
    SectionTexts("Summary", ticket.summary);
    SectionTexts("Proposed Solution", ticket.proposedSolution);
    ThreeSections(s1, s2, s3, ticket.objective, ticket.summary, ticket.proposedSolution);
  }

  /** Three sections of one text each, then the rule, read back as the three texts. */
  lemma ThreeSections(s1: seq<AdfNode>, s2: seq<AdfNode>, s3: seq<AdfNode>, x: string, y: string, z: string)
    requires ParagraphTexts(s1) == [x] && ParagraphTexts(s2) == [y] && ParagraphTexts(s3) == [z]
    ensures ParagraphTexts(s1 + s2 + s3 + [Rule]) == [x, y, z]
  {
    ParagraphTextsConcat(s1, s2);
    ParagraphTextsConcat(s1 + s2, s3);
    ParagraphTextsConcat(s1 + s2 + s3, [Rule]);
    RuleTexts();
  }

  lemma RuleTexts()
    ensures ParagraphTexts([Rule]) == []
  {
    ParagraphTextsStep([Rule], 0);
    assert [Rule][..1] == [Rule];
  }

  /** A heading followed by a paragraph reads back as the paragraph's text. */
  lemma SectionTexts(title: string, text: string)
    ensures ParagraphTexts([AdfHeading(2, title), AdfParagraph(text)]) == [text]
  {
    var s := [AdfHeading(2, title), AdfParagraph(text)];
    ParagraphTextsStep(s, 0);
    ParagraphTextsStep(s, 1);
    assert s[..2] == s;
  }

  /** Up to five URLs: an "Affected URLs (n)" heading, then one paragraph per URL, in order. */
  lemma FewUrlsLayout(ticket: DraftedTicket, urls: seq<string>)
    requires |urls| <= 5
    ensures var d := BuildAdfDescription(ticket, |urls|, urls);
      && d.Doc?
      && |d.content| == 8 + |urls|
      && d.content[..7] == DescriptionHead(ticket)
      && d.content[7] == AdfHeading(3, "Affected URLs (" + IntToString(|urls|) + ")")
      && ParagraphTexts(d.content[8..]) == urls
  {
    var d := BuildAdfDescription(ticket, |urls|, urls);
    assert d.content[8..] == UrlParagraphs(urls);
    ParagraphTextsOfUrls(urls);
  }

  /**
   * More than five URLs: an "Affected URLs" heading, the count line, a "Sample (first 5):"
   * heading and exactly the first five URLs; read back, the paragraphs are the count line and those URLs.
   */
  lemma ManyUrlsLayout(ticket: DraftedTicket, urls: seq<string>)
    requires |urls| > 5
    ensures var d := BuildAdfDescription(ticket, |urls|, urls);
      && d.Doc?
      && |d.content| == 15
      && d.content[..7] == DescriptionHead(ticket)
      && d.content[7] == AdfHeading(3, "Affected URLs")
      && d.content[9] == AdfHeading(4, "Sample (first 5):")
      && ParagraphTexts(d.content[8..]) == [CountLine(|urls|)] + urls[..5]
  {
    var d := BuildAdfDescription(ticket, |urls|, urls);
    var head := DescriptionHead(ticket);
    var line := CountLine(|urls|);
    var two := [AdfParagraph(line), AdfHeading(4, "Sample (first 5):")];
    var tail := UrlParagraphs(urls[..5]);
    assert d.content == head + [AdfHeading(3, "Affected URLs")] + two + tail;
    SplitLayout(head, AdfHeading(3, "Affected URLs"), two, tail);
    ParagraphTextsOfUrls(urls[..5]);
    HeadingAfterTexts(line, AdfHeading(4, "Sample (first 5):"));
    TextsThen(two, tail, [line], urls[..5]);
  }

  /** The parts of `head + [x] + mid + tail`, where they are. */
  lemma SplitLayout<T>(head: seq<T>, x: T, mid: seq<T>, tail: seq<T>)
    ensures var c := head + [x] + mid + tail;
      && |c| == |head| + 1 + |mid| + |tail|
      && c[..|head|] == head
      && c[|head|] == x
      && c[|head| + 1..] == mid + tail
      && forall k | 0 <= k < |mid| :: c[|head| + 1 + k] == mid[k]
  {
    var c := head + [x] + mid + tail;
    assert c[|head| + 1..] == mid + tail;
  }

  /** A paragraph followed by a heading reads back as the paragraph's text. */
  lemma HeadingAfterTexts(text: string, heading: AdfNode)
    requires heading.Heading?
    ensures ParagraphTexts([AdfParagraph(text), heading]) == [text]
  {
    var s := [AdfParagraph(text), heading];
    ParagraphTextsStep(s, 0);
    ParagraphTextsStep(s, 1);
    assert s[..2] == s;
  }

  lemma TextsThen(a: seq<AdfNode>, b: seq<AdfNode>, x: seq<string>, y: seq<string>)
    requires ParagraphTexts(a) == x && ParagraphTexts(b) == y
    ensures ParagraphTexts(a + b) == x + y
  {
    ParagraphTextsConcat(a, b);
  }

  // ── CSV ──────────────────────────────────────────────────────────────────

  /** `value.replace(/"/g, '""')`. */
  function DoubleQuotes(v: string): string
    decreases |v|
  {
    if v == "" then ""
    else (if v[0] == '"' then "\"\"" else [v[0]]) + DoubleQuotes(v[1..])
  }

  /** `csvEscape(value)`. */
  function CsvEscape(v: string): string {
    "\"" + DoubleQuotes(v) + "\""
  }

  /** The text of a quoted field after its opening quote: up to the first lone '"', with "" read as '"'. */
  function ParseQuotedBody(s: string): (r: Option<(string, string)>)
    ensures r.Some? ==> |r.value.1| < |s|
    decreases |s|
  {
    if s == "" then None
    else if s[0] == '"' then
      if |s| >= 2 && s[1] == '"' then
        match ParseQuotedBody(s[2..])
        case None => None
        case Some(vt) => Some(("\"" + vt.0, vt.1))
      else Some(("", s[1..]))
    else
      match ParseQuotedBody(s[1..])
      case None => None
      case Some(vt) => Some(([s[0]] + vt.0, vt.1))
  }

  /** A quoted CSV field at the start of `s`, and what follows it. */
  function ParseField(s: string): (r: Option<(string, string)>)
    ensures r.Some? ==> |r.value.1| < |s|
  {
    if s != "" && s[0] == '"' then ParseQuotedBody(s[1..]) else None
  }

  lemma {:induction false} QuotedBodyRoundTrip(v: string, t: string)
    requires t == "" || t[0] != '"'
    ensures ParseQuotedBody(DoubleQuotes(v) + "\"" + t) == Some((v, t))
    decreases |v|
  {
    if v != "" {
      QuotedBodyRoundTrip(v[1..], t);
      if v[0] == '"' {
        assert DoubleQuotes(v) + "\"" + t == "\"\"" + (DoubleQuotes(v[1..]) + "\"" + t);
      } else {
        assert DoubleQuotes(v) + "\"" + t == [v[0]] + (DoubleQuotes(v[1..]) + "\"" + t);
      }
      assert [v[0]] + v[1..] == v;
    }
  }

  /** Un-escaping an escaped field gives back the value, and the text after it is untouched. */
  lemma CsvEscapeRoundTrip(v: string, t: string)
    requires t == "" || t[0] != '"'
    ensures ParseField(CsvEscape(v) + t) == Some((v, t))
  {
    QuotedBodyRoundTrip(v, t);
    assert (CsvEscape(v) + t)[1..] == DoubleQuotes(v) + "\"" + t;
  }

  /** `fields.map(csvEscape)`. */
  function EscapeAll(fields: seq<string>): (r: seq<string>)
    ensures |r| == |fields| && forall i | 0 <= i < |fields| :: r[i] == CsvEscape(fields[i])
  {
    seq(|fields|, i requires 0 <= i < |fields| => CsvEscape(fields[i]))
  }

  /** `fields.map(csvEscape).join(',')`. */
  function CsvLine(fields: seq<string>): string {
    Join(EscapeAll(fields), ",")
  }

  /** A record of comma-separated quoted fields at the start of `s`, and what follows it. */
  function ParseRecord(s: string): (r: Option<(seq<string>, string)>)
    ensures r.Some? ==> |r.value.1| < |s|
    decreases |s|
  {
    match ParseField(s)
    case None => None
    case Some(ft) =>
      if ft.1 != "" && ft.1[0] == ',' then
        match ParseRecord(ft.1[1..])
        case None => None
        case Some(rt) => Some(([ft.0] + rt.0, rt.1))
      else Some(([ft.0], ft.1))
  }

  lemma {:induction false} RecordRoundTrip(fields: seq<string>, t: string)
    requires fields != []
    requires t == "" || (t[0] != ',' && t[0] != '"')
    ensures ParseRecord(CsvLine(fields) + t) == Some((fields, t))
    decreases |fields|
  {
    var es := EscapeAll(fields);
    if |fields| == 1 {
      assert CsvLine(fields) == CsvEscape(fields[0]);
      CsvEscapeRoundTrip(fields[0], t);
      assert fields == [fields[0]];
    } else {
      var rest := CsvLine(fields[1..]);
      assert es[1..] == EscapeAll(fields[1..]);
      assert CsvLine(fields) + t == CsvEscape(fields[0]) + ("," + rest + t);
      CsvEscapeRoundTrip(fields[0], "," + rest + t);
      assert ("," + rest + t)[1..] == rest + t;
      RecordRoundTrip(fields[1..], t);
      assert [fields[0]] + fields[1..] == fields;
    }
  }

  /** Newline-separated records, at least one, with nothing after the last. */
  function ParseRecords(s: string): Option<seq<seq<string>>>
    decreases |s|
  {
    match ParseRecord(s)
    case None => None
    case Some(rt) =>
      if rt.1 == "" then Some([rt.0])
      else if rt.1[0] == '\n' then
        match ParseRecords(rt.1[1..])
        case None => None
        case Some(rs) => Some([rt.0] + rs)
      else None
  }

  /** The body after the header: no records when empty. */
  function ParseCsvBody(s: string): Option<seq<seq<string>>> {
    if s == "" then Some([]) else ParseRecords(s)
  }

  /** `rows.join('\n')` for the escaped rows. */
  function CsvLines(rows: seq<seq<string>>): (r: seq<string>)
    ensures |r| == |rows| && forall i | 0 <= i < |rows| :: r[i] == CsvLine(rows[i])
  {
    seq(|rows|, i requires 0 <= i < |rows| => CsvLine(rows[i]))
  }

  lemma {:induction false} RecordsRoundTrip(rows: seq<seq<string>>)
    requires rows != [] && forall i | 0 <= i < |rows| :: rows[i] != []
    ensures ParseRecords(Join(CsvLines(rows), "\n")) == Some(rows)
    decreases |rows|
  {
    var ls := CsvLines(rows);
    if |rows| == 1 {
      RecordRoundTrip(rows[0], "");
      assert CsvLine(rows[0]) + "" == CsvLine(rows[0]);
      assert Join(ls, "\n") == CsvLine(rows[0]);
      assert rows == [rows[0]];
    } else {
      var rest := Join(CsvLines(rows[1..]), "\n");
      assert ls[1..] == CsvLines(rows[1..]);
      assert Join(ls, "\n") == CsvLine(rows[0]) + ("\n" + rest);
      RecordRoundTrip(rows[0], "\n" + rest);
      RecordsRoundTrip(rows[1..]);
      RecordsCons(CsvLine(rows[0]), rows[0], rows[1..], rest);
      assert [rows[0]] + rows[1..] == rows;
    }
  }

  /** A record, a newline and more records read back as the record then the others. */
  lemma RecordsCons(line: string, first: seq<string>, others: seq<seq<string>>, rest: string)
    requires ParseRecord(line + ("\n" + rest)) == Some((first, "\n" + rest))
    requires ParseRecords(rest) == Some(others)
    ensures ParseRecords(line + ("\n" + rest)) == Some([first] + others)
  {
    assert ("\n" + rest)[1..] == rest;
  }

  const CsvHeader: string := "url,issue_type,severity,category,current_value,expected_value\n"

  /** The six fields of one URL's row; the example's values only on rows of the example's URL. */
  function CsvFields(g: IssueGroupForTicket, url: string): seq<string> {
    var isExample := url == g.exampleIssue.url;
    [url, g.issueType, g.severity, g.category,
     if isExample then OrElse(g.exampleIssue.currentValue, "") else "",
     if isExample then OrElse(g.exampleIssue.expectedValue, "") else ""]
  }

  /** One row per entry of `allUrls`, in order. */
  function CsvRows(g: IssueGroupForTicket): (r: seq<seq<string>>)
    ensures |r| == |g.allUrls| && forall i | 0 <= i < |r| :: r[i] == CsvFields(g, g.allUrls[i])
  {
    seq(|g.allUrls|, i requires 0 <= i < |g.allUrls| => CsvFields(g, g.allUrls[i]))
  }

  /** `generateAffectedUrlsCsv(issueGroup)`. */
  function GenerateAffectedUrlsCsv(g: IssueGroupForTicket): string {
    CsvHeader + Join(CsvLines(CsvRows(g)), "\n")
  }

  /**
   * The CSV is the header followed by exactly one six-field record per URL, in order, with no
   * trailing newline: read back with a quoted-field CSV reader, the body gives the rows' fields.
   * Current and expected values appear on the rows of the example's URL only.
   */
  lemma CsvRoundTrip(g: IssueGroupForTicket)
    ensures var csv := GenerateAffectedUrlsCsv(g);
      csv[..|CsvHeader|] == CsvHeader && ParseCsvBody(csv[|CsvHeader|..]) == Some(CsvRows(g))
    ensures forall i | 0 <= i < |g.allUrls| ::
      var f := CsvRows(g)[i];
      |f| == 6 && f[0] == g.allUrls[i]
      && (g.allUrls[i] == g.exampleIssue.url ==>
            f[4] == OrElse(g.exampleIssue.currentValue, "") && f[5] == OrElse(g.exampleIssue.expectedValue, ""))
      && (g.allUrls[i] != g.exampleIssue.url ==> f[4] == "" && f[5] == "")
  {
    var csv := GenerateAffectedUrlsCsv(g);
    var body := Join(CsvLines(CsvRows(g)), "\n");
    assert csv[|CsvHeader|..] == body;
    if g.allUrls != [] {
      RecordsRoundTrip(CsvRows(g));
      assert body != "" by {
        var rows := CsvRows(g);
        assert rows[0] != [];
        JoinNonEmpty(CsvLines(rows));
      }
    }
  }

  /** Each line starts with a quote, so a non-empty list joins to a non-empty text. */
  lemma JoinNonEmpty(lines: seq<string>)
    requires lines != [] && lines[0] != ""
    ensures Join(lines, "\n") != ""
  {
    if |lines| > 1 {
      assert Join(lines, "\n")[0] == lines[0][0];
    }
  }

  // ── slugify and labels ───────────────────────────────────────────────────

  predicate IsSlugChar(c: char) {
    ('a' <= c <= 'z') || ('0' <= c <= '9')
  }

  /** Drops the leading characters outside [a-z0-9]. */
  function SkipNonSlug(s: string): (r: string)
    ensures |r| <= |s| && r == s[|s| - |r|..]
    ensures r == "" || IsSlugChar(r[0])
    decreases |s|
  {
    if s == "" || IsSlugChar(s[0]) then s else SkipNonSlug(s[1..])
  }

  /** `.replace(/[^a-z0-9]+/g, '-')`: each maximal run outside [a-z0-9] becomes one '-'. */
  function CollapseRuns(s: string): (r: string)
    ensures forall k | 0 <= k < |r| :: IsSlugChar(r[k]) || r[k] == '-'
    ensures forall k | 0 <= k < |r| - 1 :: !(r[k] == '-' && r[k + 1] == '-')
    decreases |s|
  {
    if s == "" then ""
    else if IsSlugChar(s[0]) then [s[0]] + CollapseRuns(s[1..])
    else "-" + CollapseRuns(SkipNonSlug(s[1..]))
  }

  /** `.replace(/^-|-$/g, '')`: one leading and one trailing '-' removed. */
  function StripEdgeDashes(s: string): string {
    var a := if s != "" && s[0] == '-' then s[1..] else s;
    if a != "" && a[|a| - 1] == '-' then a[..|a| - 1] else a
  }

  /** `slugify(text)`. */
  function Slugify(text: string): string {
    StripEdgeDashes(CollapseRuns(Lower(text)))
  }

  /** A slug: only [a-z0-9-], no "--", and no '-' at either end. */
  predicate IsSlug(s: string) {
    && (forall k | 0 <= k < |s| :: IsSlugChar(s[k]) || s[k] == '-')
    && (forall k | 0 <= k < |s| - 1 :: !(s[k] == '-' && s[k + 1] == '-'))
    && (s == "" || (s[0] != '-' && s[|s| - 1] != '-'))
  }

  lemma SlugifyIsSlug(text: string)
    ensures IsSlug(Slugify(text))
  {
    StripMakesSlug(CollapseRuns(Lower(text)));
  }

  /** Made of slug characters and dashes, with no two dashes in a row. */
  predicate Collapsed(c: string) {
    && (forall k | 0 <= k < |c| :: IsSlugChar(c[k]) || c[k] == '-')
    && (forall k | 0 <= k < |c| - 1 :: !(c[k] == '-' && c[k + 1] == '-'))
  }

  /** Removing the edge dashes of a collapsed text leaves a slug. */
  lemma StripMakesSlug(c: string)
    requires forall k | 0 <= k < |c| :: IsSlugChar(c[k]) || c[k] == '-'
    requires forall k | 0 <= k < |c| - 1 :: !(c[k] == '-' && c[k + 1] == '-')
    ensures IsSlug(StripEdgeDashes(c))
  {
    var a := if c != "" && c[0] == '-' then c[1..] else c;
    DropLeadingDash(c);
    DropTrailingDash(a);
  }

  lemma DropLeadingDash(c: string)
    requires Collapsed(c)
    ensures var a := if c != "" && c[0] == '-' then c[1..] else c;
      Collapsed(a) && (a == "" || a[0] != '-')
  {
    if c != "" && c[0] == '-' {
      var a := c[1..];
      assert forall k | 0 <= k < |a| :: a[k] == c[k + 1];
      if a != "" { assert c[1] == a[0]; }
    }
  }

  lemma DropTrailingDash(a: string)
    requires Collapsed(a) && (a == "" || a[0] != '-')
    ensures IsSlug(if a != "" && a[|a| - 1] == '-' then a[..|a| - 1] else a)
  {
    if a != "" && a[|a| - 1] == '-' {
      var b := a[..|a| - 1];
      assert forall k | 0 <= k < |b| :: b[k] == a[k];
      if b != "" { assert a[|a| - 2] == b[|b| - 1]; }
    }
  }

  /** A text already made of [a-z0-9] runs joined by single dashes comes out of the collapse unchanged. */
  lemma {:induction false} CollapseKeepsSlug(s: string)
    requires forall k | 0 <= k < |s| :: IsSlugChar(s[k]) || s[k] == '-'
    requires forall k | 0 <= k < |s| - 1 :: !(s[k] == '-' && s[k + 1] == '-')
    ensures CollapseRuns(s) == s
    decreases |s|
  {
    if s != "" {
      if IsSlugChar(s[0]) {
        CollapseKeepsSlug(s[1..]);
      } else {
        assert s[1..] == "" || IsSlugChar(s[1]);
        assert SkipNonSlug(s[1..]) == s[1..];
        CollapseKeepsSlug(s[1..]);
      }
      assert [s[0]] + s[1..] == s;
    }
  }

  /** Slugifying a slug changes nothing, so `slugify` is idempotent. */
  lemma SlugifyIdempotent(text: string)
    ensures Slugify(Slugify(text)) == Slugify(text)
  {
    var s := Slugify(text);
    SlugifyIsSlug(text);
    assert Lower(s) == s;
    CollapseKeepsSlug(s);
  }

  /** `teamToLabel(team)`. */
  function TeamToLabel(team: string): (r: string)
    ensures r in ["Tech-Team", "Data-Team"]
    ensures r == "Tech-Team" <==> team == "Tech Team"
  {
    if team == "Tech Team" then "Tech-Team" else "Data-Team"
  }

  // ── Jira REST calls ──────────────────────────────────────────────────────

  const AssigneeAccountId: string := "70121:0205e0a0-7507-4a40-9a91-3167116851d0"

  /** The `fields` of the create-issue request. */
  datatype CreateIssueBody = CreateIssueBody(
    projectKey: string,
    summary: string,
    description: AdfNode,
    issueTypeName: string,
    labels: seq<string>,
    assigneeAccountId: string,
    priority: string)

  /** One HTTP request to Jira: the URL and what it carries (the auth headers are left out). */
  datatype JiraCall =
    | CreateIssue(url: string, body: CreateIssueBody)
    | AttachCsv(url: string, fileName: string, csv: string)

  /** What `fetch` gave: a response (with the key parsed from a created issue's JSON) or a rejection. */
  datatype HttpResponse =
    | Response(ok: bool, status: int, text: string, issueKey: string)
    | NetworkError(message: string)

  /** Jira: it answers each call, given the calls it received before it. */
  class JiraServer {
    var calls: seq<JiraCall>
    const answer: (seq<JiraCall>, JiraCall) -> HttpResponse

    constructor(answer: (seq<JiraCall>, JiraCall) -> HttpResponse)
      ensures calls == [] && this.answer == answer
    {
      calls := [];
      this.answer := answer;
    }

    /** One `fetch`: the call is recorded and answered. */
    method Send(call: JiraCall) returns (resp: HttpResponse)
      modifies this
      ensures calls == old(calls) + [call]
      ensures resp == answer(old(calls), call)
    {
      resp := answer(calls, call);
      calls := calls + [call];
    }
  }

  /** The request `createJiraIssue` sends for a ticket. */
  function CreateCall(ticket: DraftedTicket, config: JiraConfig): JiraCall {
    var g := ticket.issueGroup;
    CreateIssue(config.baseUrl + "/rest/api/3/issue",
      CreateIssueBody(config.projectKey, ticket.objective, BuildAdfDescription(ticket, |g.allUrls|, g.allUrls),
        "Task", ["SEO", TeamToLabel(ticket.team)], AssigneeAccountId, ticket.priority))
  }

  /** `affected-urls-${slugify(issueGroup.issue_type)}.csv`. */
  function CsvFileName(g: IssueGroupForTicket): string {
    "affected-urls-" + Slugify(g.issueType) + ".csv"
  }

  /** The request `attachCsvToJiraIssue` sends. */
  function AttachCall(issueKey: string, g: IssueGroupForTicket, config: JiraConfig): JiraCall {
    AttachCsv(config.baseUrl + "/rest/api/3/issue/" + issueKey + "/attachments", CsvFileName(g), GenerateAffectedUrlsCsv(g))
  }

  /** What `createJiraIssue` does with the answer: the new issue's key, or the error it throws. */
  function CreateOutcome(resp: HttpResponse): (r: Result<string>)
    ensures r.Ok? <==> resp.Response? && resp.ok
    ensures resp.Response? && !resp.ok ==>
      r.error == "Jira issue creation failed (" + IntToString(resp.status) + "): " + Prefix(resp.text, 500)
  {
    match resp
    case NetworkError(message) => Err(message)
    case Response(ok, status, text, issueKey) =>
      if !ok then Err("Jira issue creation failed (" + IntToString(status) + "): " + Prefix(text, 500))
      else Ok(issueKey)
  }

  /** What `attachCsvToJiraIssue` does with the answer: nothing, or the error it throws. */
  function AttachOutcome(issueKey: string, resp: HttpResponse): (r: Result<()>)
    ensures r.Ok? <==> resp.Response? && resp.ok
    ensures resp.Response? && !resp.ok ==>
      r.error == "Jira attachment failed for " + issueKey + " (" + IntToString(resp.status) + "): " + Prefix(resp.text, 300)
  {
    match resp
    case NetworkError(message) => Err(message)
    case Response(ok, status, text, _) =>
      if !ok then Err("Jira attachment failed for " + issueKey + " (" + IntToString(status) + "): " + Prefix(text, 300))
      else Ok(())
  }

  /** `PublishResult`: success with the created ticket, or failure with the error's message. */
  datatype PublishResult = Published(ticket: JiraTicketResult) | PublishFailed(error: string)

  /** The body of the loop for one ticket, given the calls made so far: its result and the calls after it. */
  function PublishOne(ticket: DraftedTicket, config: JiraConfig, answer: (seq<JiraCall>, JiraCall) -> HttpResponse,
                      log: seq<JiraCall>): (PublishResult, seq<JiraCall>)
  {
    var g := ticket.issueGroup;
    var create := CreateCall(ticket, config);
    var log1 := log + [create];
    match CreateOutcome(answer(log, create))
    case Err(e) => (PublishFailed(e), log1)
    case Ok(issueKey) =>
      var jiraUrl := config.baseUrl + "/browse/" + issueKey;
      if |g.allUrls| > 5 then
        var attach := AttachCall(issueKey, g, config);
        var log2 := log1 + [attach];
        match AttachOutcome(issueKey, answer(log1, attach))
        case Err(e) => (PublishFailed(e), log2)
        case Ok(_) => (Published(JiraTicketResult(issueKey, jiraUrl, g.issueType, ticket.team, true)), log2)
      else (Published(JiraTicketResult(issueKey, jiraUrl, g.issueType, ticket.team, false)), log1)
  }

  /** The whole loop: results in ticket order, and the calls after the last ticket. */
  function PublishAll(tickets: seq<DraftedTicket>, config: JiraConfig, answer: (seq<JiraCall>, JiraCall) -> HttpResponse,
                      log: seq<JiraCall>): (seq<PublishResult>, seq<JiraCall>)
    decreases |tickets|
  {
    if tickets == [] then ([], log)
    else
      var before := PublishAll(tickets[..|tickets| - 1], config, answer, log);
      var one := PublishOne(tickets[|tickets| - 1], config, answer, before.1);
      (before.0 + [one.0], one.1)
  }

  /** `createJiraIssue(ticket, config)`. */
  method CreateJiraIssue(ticket: DraftedTicket, config: JiraConfig, server: JiraServer) returns (r: Result<string>)
    modifies server
    ensures server.calls == old(server.calls) + [CreateCall(ticket, config)]
    ensures r == CreateOutcome(server.answer(old(server.calls), CreateCall(ticket, config)))
  {
    var resp := server.Send(CreateCall(ticket, config));
    r := CreateOutcome(resp);
  }

  /** `attachCsvToJiraIssue(issueKey, issueGroup, config)`. */
  method AttachCsvToJiraIssue(issueKey: string, g: IssueGroupForTicket, config: JiraConfig, server: JiraServer)
    returns (r: Result<()>)
    modifies server
    ensures server.calls == old(server.calls) + [AttachCall(issueKey, g, config)]
    ensures r == AttachOutcome(issueKey, server.answer(old(server.calls), AttachCall(issueKey, g, config)))
  {
    var resp := server.Send(AttachCall(issueKey, g, config));
    r := AttachOutcome(issueKey, resp);
  }

  /** One pass of the loop: the `try` block and its `catch`. */
  method PublishTicket(ticket: DraftedTicket, config: JiraConfig, server: JiraServer) returns (r: PublishResult)
    modifies server
    ensures (r, server.calls) == PublishOne(ticket, config, server.answer, old(server.calls))
  {
    var created := CreateJiraIssue(ticket, config, server);
    if created.Err? {
      return PublishFailed(created.error);
    }
    var issueKey := created.value;
    var jiraUrl := config.baseUrl + "/browse/" + issueKey;
    var attachmentCreated := false;
    if |ticket.issueGroup.allUrls| > 5 {
      var attached := AttachCsvToJiraIssue(issueKey, ticket.issueGroup, config, server);
      if attached.Err? {
        return PublishFailed(attached.error);
      }
      attachmentCreated := true;
    }
    r := Published(JiraTicketResult(issueKey, jiraUrl, ticket.issueGroup.issueType, ticket.team, attachmentCreated));
  }

  /**
   * `publishTicketsToJira(draftedTickets)`: the configuration error rejects before any call;
   * otherwise the tickets are published one after another and every ticket gets a result.
   */
  method PublishTicketsToJira(env: map<string, string>, tickets: seq<DraftedTicket>, server: JiraServer)
    returns (r: Result<seq<PublishResult>>)
    modifies server
    ensures GetJiraConfig(env).Err? ==> r == Err(MissingJiraEnv) && server.calls == old(server.calls)
    ensures GetJiraConfig(env).Ok? ==>
      var all := PublishAll(tickets, GetJiraConfig(env).value, server.answer, old(server.calls));
      r == Ok(all.0) && server.calls == all.1
  {
    var config := GetJiraConfig(env);
    if config.Err? {
      return Err(config.error);
    }
    var results: seq<PublishResult> := [];
    for i := 0 to |tickets|
      invariant (results, server.calls) == PublishAll(tickets[..i], config.value, server.answer, old(server.calls))
    {
      assert tickets[..i + 1][..i] == tickets[..i];
      var one := PublishTicket(tickets[i], config.value, server);
      results := results + [one];
    }
    assert tickets[..|tickets|] == tickets;
    r := Ok(results);
  }

  // ── what the loop promises ───────────────────────────────────────────────

  /**
   * One ticket: exactly one create call carrying the ticket's text, labels, assignee and priority,
   * then an attachment call exactly when the issue was created and it has more than five URLs.
   * It succeeds exactly when every call it made succeeded; a success links to the issue and says
   * whether the CSV was attached, which is whether there were more than five URLs.
   */
  lemma PublishOneSpec(ticket: DraftedTicket, config: JiraConfig, answer: (seq<JiraCall>, JiraCall) -> HttpResponse,
                       log: seq<JiraCall>)
    ensures var g := ticket.issueGroup;
      var create := CreateCall(ticket, config);
      var resp := answer(log, create);
      var created := resp.Response? && resp.ok;
      var attaches := created && |g.allUrls| > 5;
      var out := PublishOne(ticket, config, answer, log);
      && create.body.summary == ticket.objective
      && create.body.labels == ["SEO", TeamToLabel(ticket.team)]
      && create.body.priority == ticket.priority
      && create.body.projectKey == config.projectKey
      && out.1 == log + [create] + (if attaches then [AttachCall(resp.issueKey, g, config)] else [])
      && (out.0.Published? <==>
            created && (|g.allUrls| <= 5 || AttachOutcome(resp.issueKey, answer(log + [create], AttachCall(resp.issueKey, g, config))).Ok?))
      && (out.0.Published? ==>
            && out.0.ticket.issueKey == resp.issueKey
            && out.0.ticket.jiraUrl == config.baseUrl + "/browse/" + resp.issueKey
            && out.0.ticket.issueType == g.issueType
            && out.0.ticket.team == ticket.team
            && out.0.ticket.attachmentCreated == (|g.allUrls| > 5))
  {
  }

  /** The create-issue bodies among some calls, in order. */
  function CreateBodies(calls: seq<JiraCall>): seq<CreateIssueBody>
    decreases |calls|
  {
    if calls == [] then []
    else CreateBodies(calls[..|calls| - 1]) + (if calls[|calls| - 1].CreateIssue? then [calls[|calls| - 1].body] else [])
  }

  lemma {:induction false} CreateBodiesConcat(a: seq<JiraCall>, b: seq<JiraCall>)
    ensures CreateBodies(a + b) == CreateBodies(a) + CreateBodies(b)
    decreases |b|
  {
    if b == [] {
      assert a + b == a;
    } else {
      assert (a + b)[..|a + b| - 1] == a + b[..|b| - 1];
      CreateBodiesConcat(a, b[..|b| - 1]);
    }
  }

  /** The bodies one create call per ticket would carry. */
  function BodiesOf(tickets: seq<DraftedTicket>, config: JiraConfig): (r: seq<CreateIssueBody>)
    ensures |r| == |tickets| && forall i | 0 <= i < |tickets| :: r[i] == CreateCall(tickets[i], config).body
  {
    seq(|tickets|, i requires 0 <= i < |tickets| => CreateCall(tickets[i], config).body)
  }

  lemma BodiesOfSnoc(tickets: seq<DraftedTicket>, config: JiraConfig)
    requires tickets != []
    ensures BodiesOf(tickets, config)
      == BodiesOf(tickets[..|tickets| - 1], config) + [CreateCall(tickets[|tickets| - 1], config).body]
  {
  }

  /** One pass adds exactly its own create call to the create calls Jira has received. */
  lemma PublishOneCreates(ticket: DraftedTicket, config: JiraConfig, answer: (seq<JiraCall>, JiraCall) -> HttpResponse,
                          log: seq<JiraCall>)
    ensures var out := PublishOne(ticket, config, answer, log);
      log <= out.1 && CreateBodies(out.1) == CreateBodies(log) + [CreateCall(ticket, config).body]
  {
    var out := PublishOne(ticket, config, answer, log);
    PublishOneSpec(ticket, config, answer, log);
    var create := CreateCall(ticket, config);
    var delta := out.1[|log|..];
    assert out.1 == log + delta;
    CreateBodiesConcat(log, delta);
    var resp := answer(log, create);
    if resp.Response? && resp.ok && |ticket.issueGroup.allUrls| > 5 {
      assert delta == [create, AttachCall(resp.issueKey, ticket.issueGroup, config)];
      assert delta[..1] == [create];
    } else {
      assert delta == [create];
    }
    assert [create][..0] == [];
  }

  /**
   * The loop gives one result per ticket and Jira receives exactly one create call per ticket,
   * in ticket order, after the calls made before.
   */
  lemma {:induction false} PublishAllCreates(tickets: seq<DraftedTicket>, config: JiraConfig,
                                             answer: (seq<JiraCall>, JiraCall) -> HttpResponse, log: seq<JiraCall>)
    ensures var all := PublishAll(tickets, config, answer, log);
      && |all.0| == |tickets|
      && log <= all.1
      && CreateBodies(all.1) == CreateBodies(log) + BodiesOf(tickets, config)
    decreases |tickets|
  {
    if tickets != [] {
      var front := tickets[..|tickets| - 1];
      var last := tickets[|tickets| - 1];
      PublishAllCreates(front, config, answer, log);
      var before := PublishAll(front, config, answer, log);
      var one := PublishOne(last, config, answer, before.1);
      assert PublishAll(tickets, config, answer, log) == (before.0 + [one.0], one.1);
      PublishOneCreates(last, config, answer, before.1);
      BodiesOfSnoc(tickets, config);
      CreatesChain(log, before.1, one.1, BodiesOf(front, config), CreateCall(last, config).body);
    }
  }

  /** Create calls made before a pass and in it add up. */
  lemma CreatesChain(log: seq<JiraCall>, mid: seq<JiraCall>, out: seq<JiraCall>, bodies: seq<CreateIssueBody>, b: CreateIssueBody)
    requires log <= mid && CreateBodies(mid) == CreateBodies(log) + bodies
    requires mid <= out && CreateBodies(out) == CreateBodies(mid) + [b]
    ensures log <= out && CreateBodies(out) == CreateBodies(log) + (bodies + [b])
  {
    assert out[..|log|] == mid[..|log|];
  }

  /**
   * Each ticket's result is what its own pass gives after the earlier tickets' calls, so a
   * failing ticket does not stop the loop or change how the later ones are published.
   */
  lemma {:induction false} PublishAllPerTicket(tickets: seq<DraftedTicket>, config: JiraConfig,
                                               answer: (seq<JiraCall>, JiraCall) -> HttpResponse, log: seq<JiraCall>)
    ensures var all := PublishAll(tickets, config, answer, log);
      && |all.0| == |tickets|
      && forall i | 0 <= i < |tickets| ::
           all.0[i] == PublishOne(tickets[i], config, answer, PublishAll(tickets[..i], config, answer, log).1).0
  {
    var f := PublishStep(config, answer);
    PublishAllThreads(tickets, config, answer, log);
    forall i | 0 <= i < |tickets|
      ensures PublishAll(tickets, config, answer, log).0[i]
        == PublishOne(tickets[i], config, answer, PublishAll(tickets[..i], config, answer, log).1).0
    {
      PublishAllThreads(tickets[..i], config, answer, log);
      Seqs.ThreadAt(f, tickets, log, i);
    }
  }

  /** One pass of the loop as a state step: the calls made so far are the state. */
  function PublishStep(config: JiraConfig, answer: (seq<JiraCall>, JiraCall) -> HttpResponse)
    : (DraftedTicket, seq<JiraCall>) -> (PublishResult, seq<JiraCall>)
  {
    (t, l) => PublishOne(t, config, answer, l)
  }

  lemma {:induction false} PublishAllThreads(tickets: seq<DraftedTicket>, config: JiraConfig,
                                            answer: (seq<JiraCall>, JiraCall) -> HttpResponse, log: seq<JiraCall>)
    ensures PublishAll(tickets, config, answer, log) == Seqs.Thread(PublishStep(config, answer), tickets, log)
    decreases |tickets|
  {
    if tickets != [] {
      PublishAllThreads(tickets[..|tickets| - 1], config, answer, log);
    }
  }
}
