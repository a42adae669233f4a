/**
 * The "Key Points" part of the upload handler: company name, period ending
 * and key financial statements, all inside one outer error handler. The
 * entity recogniser's organisation names and the table detector's output
 * are inputs.
 */
module KeyPoints {
  import opened Strings
  import opened CompanyName
  import opened PeriodExtractor
  import opened TableLocator
  import opened TableLabels

  /** The phrases whose presence marks a table as a key financial statement. */
  const ReportKeywords: seq<string> := [
    "Earnings before provision for taxes", "total current assets", "total current liabilities",
    "net cash provided by operating activities", "net cash used in investing activities"
  ]

  /** What the "Period Ending" line shows. */
  datatype PeriodLine =
    | PeriodEnding(period: string)
      /** "No specific dates found in the document." */
    | NoDatesFound

  /** The period line for a reported period: the empty group 1 reads as "no dates". */
  function PeriodLineOf(p: string): (l: PeriodLine)
    ensures l.NoDatesFound? <==> p == ""
    ensures l.PeriodEnding? ==> l.period == p
  {
    if p == "" then NoDatesFound else PeriodEnding(p)
  }

  /**
   * What the handler shows for one upload. `tableError` is whether the table
   * step showed its own error message (lines 98 and 102) inside the tables
   * section, above the tables section's contents.
   */
  datatype Screen =
    | KeyPointsShown(company: CompanyLine, period: PeriodLine, tableError: bool, tables: TablesView)
      /** The company line, then the outer handler's error message; nothing after it. */
    | AbortedAfterCompany(company: CompanyLine)

  /** Lines 142-175 and 200-201 of the script, for the given recogniser and detector outputs. */
  function AnalyseUpload(names: seq<string>, text: string, saved: bool, detection: Detection): (r: Screen)
    ensures r.company == ReportCompany(names)
    ensures r.AbortedAfterCompany? <==> ExtractSpecificDates(text).NoColumnZero?
    ensures r.KeyPointsShown? ==> r.period == PeriodLineOf(ExtractSpecificDates(text).value)
    ensures r.KeyPointsShown? ==> r.tableError == KeyTables(saved, detection, ReportKeywords).errorShown
    ensures r.KeyPointsShown? && r.tableError ==> r.tables == NoTablesMessage
    ensures r.KeyPointsShown? ==> r.tables == DisplayTables(KeyTables(saved, detection, ReportKeywords).grids)
  {
    var company := ReportCompany(names);
    match ExtractSpecificDates(text)
    case NoColumnZero => AbortedAfterCompany(company)
    case Period(p) =>
      var outcome := KeyTables(saved, detection, ReportKeywords);
      KeyPointsShown(company, PeriodLineOf(p), outcome.errorShown, DisplayTables(outcome.grids))
  }

  /**
   * Text without a period statement makes the extractor raise; the outer
   * handler catches it, so the tables section is never reached.
   */
  lemma NoPeriodHidesTables(names: seq<string>, text: string, saved: bool, detection: Detection)
    requires forall k | 0 <= k <= |text| :: MatchAt(Lower(text), k).None?
    ensures AnalyseUpload(names, text, saved, detection) == AbortedAfterCompany(ReportCompany(names))
  {
  }

  /**
   * A leftmost fiscal-year statement reports no date, yet the tables are
   * still shown.
   */
  lemma FiscalYearShowsNoDate(names: seq<string>, text: string, saved: bool, detection: Detection,
                              k: nat, s: nat, w: nat, d: nat, j: nat)
    requires k <= |text| && YearParse(Lower(text), k, s, w, d, j)
    requires forall k' | 0 <= k' < k :: MatchAt(Lower(text), k').None?
    ensures var outcome := KeyTables(saved, detection, ReportKeywords);
      AnalyseUpload(names, text, saved, detection) ==
      KeyPointsShown(ReportCompany(names), NoDatesFound, outcome.errorShown, DisplayTables(outcome.grids))
  {
    FiscalYearGivesEmpty(text, k, s, w, d, j);
  }

  /**
   * A failing table step is contained: the tables section shows the error
   * and then the "no tables" message, and the company and period lines are
   * those of the same text with any other table outcome (`saved'`,
   * `detection'`).
   */
  lemma TableFailureIsContained(names: seq<string>, text: string, saved: bool, detection: Detection,
                                saved': bool, detection': Detection)
    requires ExtractSpecificDates(text).Period?
    requires !saved || detection.DetectionFailed? || SomeClipFailed(detection.tables) || detection.tables == []
    ensures var r := AnalyseUpload(names, text, saved, detection);
      && r.KeyPointsShown?
      && r.tableError
      && r.tables == NoTablesMessage
      && r.company == ReportCompany(names)
      && r.period == PeriodLineOf(ExtractSpecificDates(text).value)
    ensures var r := AnalyseUpload(names, text, saved, detection);
      var r' := AnalyseUpload(names, text, saved', detection');
      r'.KeyPointsShown? && r.company == r'.company && r.period == r'.period
  {
    FailuresSoftFail(saved, detection, ReportKeywords);
  }
}
