# Financial statement analysis: the selection and matching core

This project models, in Dafny, the deterministic core of a Streamlit script
that analyses quarterly and annual filings (Form 10-Q and 10-K): the parts
that decide which company name, which reporting period and which tables are
shown for an uploaded PDF. The foreign collaborators (PyMuPDF text
extraction and clipping, camelot table detection, spaCy entity recognition)
are replaced by their outputs, taken as inputs:

- `TextExtractor` joins the page texts in page order (`extract_text_from_pdf`).
- `Keywords` is the case-insensitive "some keyword is a substring" test
  (`contains_keywords`).
- `TableLocator` is the loop of `extract_key_tables_from_pdf`, a method
  proved against the specification function `KeyTables`. It keeps, in
  detection order, the grid of every detected table whose bounding-box text
  passes the keyword test, and every error path soft-fails to the empty list
  with an error message.
- `PeriodExtractor` is `extract_specific_dates`. It hand-matches the
  two-alternative regular expression over the lower-cased text, with the
  backtracking order of Python's `re`, and finds the leftmost match as
  `re.findall` does. The result is group 1 of that match, title-cased.
- `CompanyName` is the company-name selection in `main`. It keeps the
  organisation names whose lower-cased form matches
  `company|inc.|ltd|enterprise|corporation` (a regular expression, so `.`
  is a wildcard), takes the first, or "Unknown", and title-cases it.
- `TableLabels` shows at most three kept tables, labelled by position.
- `KeyPoints` composes these as `main` does inside its outer `try`.
- `Strings` holds the ASCII versions of `str.lower`, `str.title`, `in`,
  and the regex classes `\w`, `\s` and `\d`.

Behaviour of the script a reader might not expect:

- A text without a period statement makes `extract_specific_dates` raise.
  The frame built from no matches has no column 0, so indexing it fails
  (lines 110-111). The outer handler catches the error, so the tables
  section is never reached (lines 154, 160-175 and 200-201).
- The company marker `inc.` needs a character after "inc" (any but a line
  break), because `.` is a regular-expression wildcard (line 147). A name
  ending in "Inc" does not match it, and "Princeton" does.
- Only `dataframes[:3]` are shown (line 170). Tables beyond the third are
  not shown at all, so the `f"Table {i+1}"` label of line 171 is never used.
- With no table detected, `doc` is never bound, so `doc.close()` at line 94
  raises. The handler then shows an error message and returns the empty
  list (lines 97-99).
- If clipping any one table raises (line 89), the same handler runs, and
  every table kept so far is discarded.

## Model

| member | source | states |
|---|---|---|
| Strings.Lower | HPE_GenAI_Project_LokeshSubmission.py:107 | `str.lower` on ASCII: the same length, each upper-case letter mapped to its lower-case letter and every other character kept. |
| Strings.Title | HPE_GenAI_Project_LokeshSubmission.py:111 | `str.title` keeps the length and changes only the case of letters: each character lower-cases to the input's character. |
| Strings.Contains | HPE_GenAI_Project_LokeshSubmission.py:71 | Python's `p in t`: true exactly when `p` occurs in `t` at some index (the empty string always does). |
| Strings.TitleAll | HPE_GenAI_Project_LokeshSubmission.py:111 | `str.title` per character: a letter is upper-cased when the character before it is not a letter and lower-cased otherwise; other characters are kept. |
| Strings.TitleIdempotent | HPE_GenAI_Project_LokeshSubmission.py:111 | Title-casing twice equals title-casing once. |
| Strings.LowerOfTitle | HPE_GenAI_Project_LokeshSubmission.py:111 | Lower-casing a title-cased string gives the lower-cased original. |
| Strings.RunEndUnique | HPE_GenAI_Project_LokeshSubmission.py:106 | A run of `\w`, `\s` or `\d` characters followed by a character outside the class ends exactly where the greedy quantifier stops. |
| Keywords.ContainsKeywords | HPE_GenAI_Project_LokeshSubmission.py:70-71 | True iff some keyword, lower-cased, is a substring of the lower-cased text; false for an empty keyword list. |
| Keywords.ContainsKeywordsAppend | HPE_GenAI_Project_LokeshSubmission.py:71 | The test on a concatenated keyword list is the disjunction of the tests on its parts. |
| Keywords.ContainsKeywordsIgnoresCase | HPE_GenAI_Project_LokeshSubmission.py:71 | The test gives the same answer on the lower-cased text. |
| TableLocator.Kept | HPE_GenAI_Project_LokeshSubmission.py:82-92 | The kept list has one grid per relevant table, and never more grids than tables. |
| TableLocator.KeyTables | HPE_GenAI_Project_LokeshSubmission.py:73-103 | An error is shown exactly when the file was not saved, detection raised, no table was detected or a clip raised; then the list is empty. Otherwise no error is shown. Never more grids than detected tables. |
| TableLocator.KeptIndices | HPE_GenAI_Project_LokeshSubmission.py:82-92 | The indices of the kept tables are in range and strictly increasing, and an index is among them iff that table's clipped text contains a keyword. |
| TableLocator.KeptIsRelevantSubsequence | HPE_GenAI_Project_LokeshSubmission.py:82-92 | The k-th kept grid is the grid of the table at the k-th relevant index: the kept grids are the relevant tables' grids in detection order, with no reordering and no duplicates. |
| TableLocator.NothingRelevantKeepsNothing | HPE_GenAI_Project_LokeshSubmission.py:91-92 | When no table's clipped text contains a keyword, nothing is kept. |
| TableLocator.NoKeywordsKeepsNothing | HPE_GenAI_Project_LokeshSubmission.py:71 | With an empty keyword list, nothing is kept. |
| TableLocator.KeptAppend | HPE_GenAI_Project_LokeshSubmission.py:82-92 | Each table is judged on its own: filtering a concatenation is concatenating the filtered parts. |
| TableLocator.FailuresSoftFail | HPE_GenAI_Project_LokeshSubmission.py:78-103 | An unsaved file, a failed detection, no table detected (the unbound `doc` at line 94) or a failed clip gives the empty list and an error message, never a propagated error. |
| TableLocator.KeyTablesOnSuccess | HPE_GenAI_Project_LokeshSubmission.py:81-95 | Without errors, no message is shown and the result is exactly the relevant tables' grids in detection order. |
| TableLocator.ExtractKeyTables | HPE_GenAI_Project_LokeshSubmission.py:73-103 | The loop returns KeyTables: the kept grids, or the empty list with an error message on a failure or when no table was detected. |
| PeriodExtractor.DateEnd | HPE_GenAI_Project_LokeshSubmission.py:106 | A date `\w+\s\d{1,2},\s\d{4}` reported by the matcher lies inside the text, is at least nine characters long, and has the comma and a space character where the four year digits start. |
| PeriodExtractor.MatchAt | HPE_GenAI_Project_LokeshSubmission.py:106 | A match ends after its start, within the text. Exactly one of group 1 and group 4 took part, and the matched text is that group. |
| PeriodExtractor.DateEndSound | HPE_GenAI_Project_LokeshSubmission.py:106 | An end reported for `\w+\s\d{1,2},\s\d{4}` is the end of a real match of that sub-pattern. |
| PeriodExtractor.DateEndComplete | HPE_GenAI_Project_LokeshSubmission.py:106 | Every way the date sub-pattern can match at a position ends where the matcher says, so its end is unique. |
| PeriodExtractor.MatchAtCompletePeriod | HPE_GenAI_Project_LokeshSubmission.py:106 | Any parse by "for the quarterly period ended:" or "for the fiscal period ended:" is the match reported, with group 1 the whole statement, group 2 the kind and group 3 the date. |
| PeriodExtractor.MatchAtCompleteYear | HPE_GenAI_Project_LokeshSubmission.py:106 | Any parse by "for the  fiscal year ended:" (double space) is the match reported, with groups 1 to 3 empty. |
| PeriodExtractor.MatchAtSound | HPE_GenAI_Project_LokeshSubmission.py:106 | Every reported match comes from a parse by one of the two alternatives, with the groups that parse gives. |
| PeriodExtractor.FirstMatchFrom | HPE_GenAI_Project_LokeshSubmission.py:107 | Returns the leftmost position where the pattern matches: nothing matches before it, and it is absent only when no position matches. |
| PeriodExtractor.ExtractSpecificDates | HPE_GenAI_Project_LokeshSubmission.py:107-111 | Fails (no column 0) exactly when the lower-cased text has no match anywhere. |
| PeriodExtractor.PeriodOfLeftmost | HPE_GenAI_Project_LokeshSubmission.py:107-111 | The result is group 1 of the leftmost match, title-cased. |
| PeriodExtractor.FiscalYearGivesEmpty | HPE_GenAI_Project_LokeshSubmission.py:106-111 | When the leftmost match is the fiscal-year alternative, the result is the empty string. |
| PeriodExtractor.PeriodStatementGivesTitled | HPE_GenAI_Project_LokeshSubmission.py:106-111 | When the leftmost match is a period statement, the result is that whole statement of the lower-cased text, title-cased. |
| PeriodExtractor.PeriodIsTitled | HPE_GenAI_Project_LokeshSubmission.py:111 | A reported period is unchanged by title-casing. |
| PeriodExtractor.ReExtractionIsStable | HPE_GenAI_Project_LokeshSubmission.py:105-112 | Extracting the period from a non-empty reported period gives that same period back. |
| CompanyName.MarkerAt | HPE_GenAI_Project_LokeshSubmission.py:147 | A marker match lies inside the name and starts with the first letter of one of the alternatives (`c`, `i`, `l` or `e`). |
| CompanyName.SearchMarkerFrom | HPE_GenAI_Project_LokeshSubmission.py:147 | The regex search succeeds iff some alternative of the marker pattern matches at some position. |
| CompanyName.HasCompanyMarker | HPE_GenAI_Project_LokeshSubmission.py:147 | `str.contains` on the lower-cased name: true iff a marker matches somewhere in it. |
| CompanyName.FilterCompanyNames | HPE_GenAI_Project_LokeshSubmission.py:147-148 | The filter keeps only marked names taken from the input, never more than there were, and is empty iff no name is marked, which is when "Unknown" is chosen. |
| CompanyName.FilterHeadIsFirstMarked | HPE_GenAI_Project_LokeshSubmission.py:147-148 | When name i is the first marked one in extraction order, the filtered list is non-empty and its first element is name i. |
| CompanyName.ReportCompany | HPE_GenAI_Project_LokeshSubmission.py:145-151 | "No company names" is shown exactly when the recogniser found no organisation. |
| CompanyName.ReportCompanyChoosesFirstMarked | HPE_GenAI_Project_LokeshSubmission.py:147-149 | The reported company is the first marked name, title-cased. |
| CompanyName.ReportCompanyUnknown | HPE_GenAI_Project_LokeshSubmission.py:148-149 | With names but none marked, "Unknown" is reported, unchanged by title-casing. |
| CompanyName.TrailingIncIsNoMarker | HPE_GenAI_Project_LokeshSubmission.py:147 | "Acme Inc" is not marked: the wildcard after "inc" needs a character. |
| CompanyName.CorporationIsMarked | HPE_GenAI_Project_LokeshSubmission.py:147 | "XYZ Corporation" is marked. |
| TableLabels.DisplayTables | HPE_GenAI_Project_LokeshSubmission.py:168-175 | The "no tables" message appears iff nothing was kept. Otherwise at most three grids are shown in order, the i-th under the i-th canonical label, so the "Table n" fallback is never used. |
| TableLabels.TwoKeptTables | HPE_GenAI_Project_LokeshSubmission.py:168-171 | Of three detected tables with the first and third relevant, those two are shown as earnings and balance sheets, in detection order. |
| TextExtractor.Concat | HPE_GenAI_Project_LokeshSubmission.py:56-62 | The document text begins with the first page's text. |
| TextExtractor.ConcatLength | HPE_GenAI_Project_LokeshSubmission.py:56-62 | The text is exactly as long as the pages together. |
| TextExtractor.ConcatPrefix | HPE_GenAI_Project_LokeshSubmission.py:58-60 | The text of the first pages is a prefix of the whole text, so more pages never give a shorter text. |
| TextExtractor.ExtractText | HPE_GenAI_Project_LokeshSubmission.py:56-62 | The loop's text is the page texts concatenated in page order. |
| KeyPoints.AnalyseUpload | HPE_GenAI_Project_LokeshSubmission.py:137-201 | The company line is always the one `ReportCompany` chooses. The run aborts after it exactly when the period extraction raises. Otherwise the period line is the extracted period, with "no dates" for an empty one. The table-error line appears exactly when the table step reported an error, and then the "no tables" message follows. When the run reaches the tables section, it shows what `DisplayTables` makes of the grids the table step returned: on success, the relevant tables under their labels. |
| KeyPoints.NoPeriodHidesTables | HPE_GenAI_Project_LokeshSubmission.py:153-201 | Text with no period statement shows the company line and then the outer error, and no tables. |
| KeyPoints.FiscalYearShowsNoDate | HPE_GenAI_Project_LokeshSubmission.py:153-158 | A leftmost fiscal-year statement shows "no specific dates" and the tables section still appears. |
| KeyPoints.TableFailureIsContained | HPE_GenAI_Project_LokeshSubmission.py:160-175 | A failure of the table step (an unsaved file, a raised detection, no table detected or a raised clip; its error line is shown by lines 98 and 102) still shows the screen: the table error line and then the "no tables" message. The company and period lines are the extracted ones, and they are the same as with any other table outcome. |

## Left out

- Entity recognition (spaCy, lines 64-68): a black-box model. Its organisation names are an input sequence.
- Table detection (camelot) and the reopening and clipping of pages (PyMuPDF, lines 80 and 88-89): foreign layout code. Each table comes as a record of page, bounding box, grid and clipped text. A raised clip is an absent text.
- The per-table `fitz.open` with a single `doc.close()`: resource plumbing with no effect on results.
- Opening the PDF for `extract_text_from_pdf`, and its failure on malformed bytes: foreign code. The model starts from the page texts.
- The retrieval index, chunking and question answering (lines 41-54 and 177-198): LangChain, embeddings and OpenAI are foreign or network services.
- Temporary files, the API-key environment variable, and all Streamlit output other than which lines appear: I/O and presentation.
- Full Unicode: `\w`, `\s`, `\d`, `str.lower` and `str.title` are modelled on ASCII only (`\s` includes the ASCII separators 0x1C-0x1F that Python counts as whitespace).
- Determinism of the period extractor is not stated as a lemma: every member here is a function of its inputs.
