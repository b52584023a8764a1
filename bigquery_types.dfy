/**
 * Rows of the `seo_audit_results` table as the BigQuery client returns them
 * (src/types/bigquery.ts).
 */
module BigQueryTypes {
  import opened Wrappers

  /** A date column: `{ value }`, a string, or null/undefined. */
  datatype DateValue = DateObject(value: string) | DateText(text: string) | NoDate

  /**
   * One row per audited domain of an audit run. Numeric columns are nullable; they are
   * modelled as integers.
   */
  datatype SeoAuditRow = SeoAuditRow(
    auditId: string,
    domain: string,
    auditDate: DateValue,
    healthScore: Option<int>,
    totalIssues: Option<int>,
    criticalCount: Option<int>,
    highCount: Option<int>,
    mediumCount: Option<int>,
    lowCount: Option<int>,
    reportGcsPath: Option<string>)

  /** `n || 0`: null (and 0) read as 0. */
  function OrZero(n: Option<int>): int {
    match n
    case Some(v) => v
    case None => 0
  }
}
