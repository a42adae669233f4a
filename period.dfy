/**
 * `extract_specific_dates`: the reporting-period statement of a filing. The
 * text is lower-cased and searched for the leftmost match of
 *
 *   (for the (quarterly|fiscal) period ended:\s*(\w+\s\d{1,2},\s\d{4}))
 *   |(for the  fiscal year ended:\s*(\w+\s\d{1,2},\s\d{4}))
 *
 * and group 1 of that match, title-cased, is the result. The pattern is
 * matched by hand below, with the backtracking order Python's `re` uses.
 */
module PeriodExtractor {
  import opened Common
  import opened Strings

  /** The literal start of the first alternative, for a period kind. */
  function PeriodHead(kind: string): string {
    "for the " + kind + " period ended:"
  }

  /** The literal start of the second alternative, with its double space. */
  const YearHead: string := "for the  fiscal year ended:"

  /**
   * One row of `re.findall`: the five groups, an unmatched group being "".
   * Group 1 is the whole first alternative, group 2 its period kind, group 3
   * its date; group 4 is the whole second alternative and group 5 its date.
   */
  datatype Groups = Groups(period: string, kind: string, periodDate: string, year: string, yearDate: string)

  /** A match of the whole pattern: where it ends and what it captured. */
  datatype Match = Match(end: nat, groups: Groups)

  /** The leftmost match: where it starts, and the match. */
  datatype Hit = Hit(start: nat, m: Match)

  /**
   * `\w+\s\d{1,2},\s\d{4}` spans `t[i..j]`, with the word ending at `w` and
   * `d` digits for the day.
   */
  ghost predicate DateShape(t: string, i: nat, w: nat, d: nat, j: nat) {
    && i < w && AllOf(t, i, w, Word) && w < |t| && IsSpace(t[w])
    && 1 <= d <= 2 && j == w + d + 7 && j <= |t|
    && AllOf(t, w + 1, w + 1 + d, Digit) && t[w + 1 + d] == ','
    && IsSpace(t[w + 2 + d]) && AllOf(t, w + 3 + d, j, Digit)
  }

  /** `\d{1,2},` at `p`: greedy, two digits are tried before one; 0 means no match. */
  function DayDigits(t: string, p: nat): (d: nat)
    ensures d <= 2
  {
    if p + 2 < |t| && IsDigit(t[p]) && IsDigit(t[p + 1]) && t[p + 2] == ',' then 2
    else if p + 1 < |t| && IsDigit(t[p]) && t[p + 1] == ',' then 1
    else 0
  }

  /**
   * Where `\w+\s\d{1,2},\s\d{4}` ends when matched at `i`. Backtracking
   * never helps: a shorter `\w+` is followed by a word character, not `\s`,
   * and a shorter `\d{1,2}` by a digit, not a comma.
   */
  function DateEnd(t: string, i: nat): (r: Option<nat>)
    requires i <= |t|
    ensures r.Some? ==> i + 9 <= r.value <= |t|
    ensures r.Some? ==> t[r.value - 6] == ',' && IsSpace(t[r.value - 5])
  {
    var w := RunEnd(t, i, Word);
    if w == i || w == |t| || !IsSpace(t[w]) then None
    else
      var d := DayDigits(t, w + 1);
      if d == 0 || w + d + 7 > |t| then None
      else if IsSpace(t[w + 2 + d]) && AllOf(t, w + 3 + d, w + d + 7, Digit) then Some(w + d + 7)
      else None
  }

  /** Every end DateEnd reports is the end of a date. */
  lemma DateEndSound(t: string, i: nat)
    requires i <= |t| && DateEnd(t, i).Some?
    ensures DateShape(t, i, RunEnd(t, i, Word), DayDigits(t, RunEnd(t, i, Word) + 1), DateEnd(t, i).value)
  {
  }

  /** Every way the date pattern can match at `i` ends where DateEnd says. */
  lemma DateEndComplete(t: string, i: nat, w: nat, d: nat, j: nat)
    requires DateShape(t, i, w, d, j)
    ensures DateEnd(t, i) == Some(j)
  {
    RunEndUnique(t, i, w, Word);
    assert DayDigits(t, w + 1) == d;
  }

  /** The first alternative for one period kind, matched at `i`. */
  function PeriodAlternative(t: string, i: nat, kind: string): (r: Option<Match>)
    requires i <= |t|
    ensures r.Some? ==> i < r.value.end <= |t|
  {
    var h := PeriodHead(kind);
    if !OccursAt(h, t, i) then None
    else
      var s := RunEnd(t, i + |h|, Space);
      match DateEnd(t, s)
      case None => None
      case Some(j) => Some(Match(j, Groups(t[i..j], kind, t[s..j], "", "")))
  }

  /** The second alternative, matched at `i`. */
  function YearAlternative(t: string, i: nat): (r: Option<Match>)
    requires i <= |t|
    ensures r.Some? ==> i < r.value.end <= |t|
  {
    if !OccursAt(YearHead, t, i) then None
    else
      var s := RunEnd(t, i + |YearHead|, Space);
      match DateEnd(t, s)
      case None => None
      case Some(j) => Some(Match(j, Groups("", "", "", t[i..j], t[s..j])))
  }

  /** The whole pattern at `i`, alternatives tried in the order `re` tries them. */
  function MatchAt(t: string, i: nat): (r: Option<Match>)
    requires i <= |t|
    ensures r.Some? ==> i < r.value.end <= |t|
    ensures r.Some? ==> (r.value.groups.period == "" <==> r.value.groups.year != "")
    ensures r.Some? ==> t[i..r.value.end] == r.value.groups.period + r.value.groups.year
  {
    var q := PeriodAlternative(t, i, "quarterly");
    if q.Some? then q
    else
      var f := PeriodAlternative(t, i, "fiscal");
      if f.Some? then f else YearAlternative(t, i)
  }

  /** A parse of `t[i..j]` by the first alternative. */
  ghost predicate PeriodParse(t: string, i: nat, kind: string, s: nat, w: nat, d: nat, j: nat) {
    && (kind == "quarterly" || kind == "fiscal")
    && OccursAt(PeriodHead(kind), t, i)
    && AllOf(t, i + |PeriodHead(kind)|, s, Space)
    && DateShape(t, s, w, d, j)
  }

  /** A parse of `t[i..j]` by the second alternative. */
  ghost predicate YearParse(t: string, i: nat, s: nat, w: nat, d: nat, j: nat) {
    && OccursAt(YearHead, t, i)
    && AllOf(t, i + |YearHead|, s, Space)
    && DateShape(t, s, w, d, j)
  }

  /** The three literal heads differ at index 8, so at most one occurs at a position. */
  lemma HeadsExclusive(t: string, i: nat)
    ensures OccursAt(PeriodHead("quarterly"), t, i) ==> t[i + 8] == 'q'
    ensures OccursAt(PeriodHead("fiscal"), t, i) ==> t[i + 8] == 'f'
    ensures OccursAt(YearHead, t, i) ==> t[i + 8] == ' '
  {
    if OccursAt(PeriodHead("quarterly"), t, i) {
      assert t[i + 8] == t[i..i + |PeriodHead("quarterly")|][8];
    }
    if OccursAt(PeriodHead("fiscal"), t, i) {
      assert t[i + 8] == t[i..i + |PeriodHead("fiscal")|][8];
    }
    if OccursAt(YearHead, t, i) {
      assert t[i + 8] == t[i..i + |YearHead|][8];
    }
  }

  /** Whitespace before a date is consumed in full by the greedy `\s*`. */
  lemma SpacesEndAtDate(t: string, a: nat, s: nat, w: nat, d: nat, j: nat)
    requires AllOf(t, a, s, Space) && DateShape(t, s, w, d, j)
    ensures RunEnd(t, a, Space) == s
  {
    assert IsWordChar(t[s]);
    RunEndUnique(t, a, s, Space);
  }

  /** A parse by the first alternative for `kind` is what that alternative's matcher reports. */
  lemma PeriodAlternativeComplete(t: string, i: nat, kind: string, s: nat, w: nat, d: nat, j: nat)
    requires i <= |t| && PeriodParse(t, i, kind, s, w, d, j)
    ensures PeriodAlternative(t, i, kind) == Some(Match(j, Groups(t[i..j], kind, t[s..j], "", "")))
  {
    AlternativeComplete(t, i, PeriodHead(kind), s, w, d, j);
  }

  /** After a literal head at `i`, the greedy `\s*` and the date end where the parse says. */
  lemma AlternativeComplete(t: string, i: nat, h: string, s: nat, w: nat, d: nat, j: nat)
    requires OccursAt(h, t, i) && AllOf(t, i + |h|, s, Space) && DateShape(t, s, w, d, j)
    ensures RunEnd(t, i + |h|, Space) == s && DateEnd(t, s) == Some(j)
  {
    SpacesEndAtDate(t, i + |h|, s, w, d, j);
    DateEndComplete(t, s, w, d, j);
  }

  /** Any parse by the first alternative is the match MatchAt reports, groups included. */
  lemma MatchAtCompletePeriod(t: string, i: nat, kind: string, s: nat, w: nat, d: nat, j: nat)
    requires i <= |t| && PeriodParse(t, i, kind, s, w, d, j)
    ensures MatchAt(t, i) == Some(Match(j, Groups(t[i..j], kind, t[s..j], "", "")))
  {
    PeriodAlternativeComplete(t, i, kind, s, w, d, j);
    if kind == "fiscal" {
      HeadsExclusive(t, i);
      assert PeriodAlternative(t, i, "quarterly") == None;
    }
  }

  /** Any parse by the second alternative is the match MatchAt reports: group 1 is empty. */
  lemma MatchAtCompleteYear(t: string, i: nat, s: nat, w: nat, d: nat, j: nat)
    requires i <= |t| && YearParse(t, i, s, w, d, j)
    ensures MatchAt(t, i) == Some(Match(j, Groups("", "", "", t[i..j], t[s..j])))
  {
    AlternativeComplete(t, i, YearHead, s, w, d, j);
    HeadsExclusive(t, i);
    assert !OccursAt(PeriodHead("quarterly"), t, i) && !OccursAt(PeriodHead("fiscal"), t, i);
    assert PeriodAlternative(t, i, "quarterly") == None && PeriodAlternative(t, i, "fiscal") == None;
  }

  /** A match of the first alternative comes from a parse, with the spaces skipped in full. */
  lemma PeriodAlternativeSound(t: string, i: nat, kind: string)
    requires i <= |t| && (kind == "quarterly" || kind == "fiscal")
    requires PeriodAlternative(t, i, kind).Some?
    ensures var m := PeriodAlternative(t, i, kind).value;
      var s := RunEnd(t, i + |PeriodHead(kind)|, Space);
      var w := RunEnd(t, s, Word);
      && PeriodParse(t, i, kind, s, w, DayDigits(t, w + 1), m.end)
      && m.groups == Groups(t[i..m.end], kind, t[s..m.end], "", "")
  {
    DateEndSound(t, RunEnd(t, i + |PeriodHead(kind)|, Space));
  }

  /** A match of the second alternative comes from a parse, with the spaces skipped in full. */
  lemma YearAlternativeSound(t: string, i: nat)
    requires i <= |t| && YearAlternative(t, i).Some?
    ensures var m := YearAlternative(t, i).value;
      var s := RunEnd(t, i + |YearHead|, Space);
      var w := RunEnd(t, s, Word);
      && YearParse(t, i, s, w, DayDigits(t, w + 1), m.end)
      && m.groups == Groups("", "", "", t[i..m.end], t[s..m.end])
  {
    DateEndSound(t, RunEnd(t, i + |YearHead|, Space));
  }

  /** Every match MatchAt reports comes from a parse by one of the alternatives. */
  lemma MatchAtSound(t: string, i: nat)
    requires i <= |t| && MatchAt(t, i).Some?
    ensures var m := MatchAt(t, i).value;
      || (exists kind: string, s: nat, w: nat, d: nat :: PeriodParse(t, i, kind, s, w, d, m.end)
            && m.groups == Groups(t[i..m.end], kind, t[s..m.end], "", ""))
      || (exists s: nat, w: nat, d: nat :: YearParse(t, i, s, w, d, m.end)
            && m.groups == Groups("", "", "", t[i..m.end], t[s..m.end]))
  {
    if PeriodAlternative(t, i, "quarterly").Some? {
      PeriodAlternativeSound(t, i, "quarterly");
    } else if PeriodAlternative(t, i, "fiscal").Some? {
      PeriodAlternativeSound(t, i, "fiscal");
    } else {
      YearAlternativeSound(t, i);
    }
  }

  /**
   * The leftmost match at or after `i`, as `re.findall` finds its first row:
   * no position before it matches, and None only when no position does.
   */
  function FirstMatchFrom(t: string, i: nat): (r: Option<Hit>)
    requires i <= |t|
    ensures r.Some? ==> i <= r.value.start <= |t| && MatchAt(t, r.value.start) == Some(r.value.m)
    ensures r.Some? ==> forall k | i <= k < r.value.start :: MatchAt(t, k).None?
    ensures r.None? ==> forall k | i <= k <= |t| :: MatchAt(t, k).None?
    decreases |t| - i
  {
    var m := MatchAt(t, i);
    if m.Some? then Some(Hit(i, m.value))
    else if i == |t| then None
    else
      var r := FirstMatchFrom(t, i + 1);
      assert forall k | i <= k <= i :: MatchAt(t, k) == m;
      r
  }

  /** The outcome of `extract_specific_dates`. */
  datatype PeriodResult =
    | Period(value: string)
      /** The frame built from no matches has no column 0: indexing it raises. */
    | NoColumnZero

  /** `extract_specific_dates(text)`. */
  function ExtractSpecificDates(text: string): (r: PeriodResult)
    ensures r.NoColumnZero? <==> forall k | 0 <= k <= |text| :: MatchAt(Lower(text), k).None?
  {
    match FirstMatchFrom(Lower(text), 0)
    case None => NoColumnZero
    case Some(hit) => Period(Title(hit.m.groups.period))
  }

  /** No match before `k` in `t`, and one at `k`. */
  ghost predicate LeftmostAt(t: string, k: nat) {
    k <= |t| && MatchAt(t, k).Some? && forall k' | 0 <= k' < k :: MatchAt(t, k').None?
  }

  /** The result is group 1 of the leftmost match, title-cased. */
  lemma PeriodOfLeftmost(text: string, k: nat)
    requires LeftmostAt(Lower(text), k)
    ensures ExtractSpecificDates(text) == Period(Title(MatchAt(Lower(text), k).value.groups.period))
  {
    var hit := FirstMatchFrom(Lower(text), 0);
    assert hit.Some?;
    assert hit.value.start == k;
  }

  /**
   * When the leftmost match is "for the  fiscal year ended: ...", group 1 did
   * not take part, so the result is "" and the caller reports no date.
   */
  lemma FiscalYearGivesEmpty(text: string, k: nat, s: nat, w: nat, d: nat, j: nat)
    requires k <= |text| && YearParse(Lower(text), k, s, w, d, j)
    requires forall k' | 0 <= k' < k :: MatchAt(Lower(text), k').None?
    ensures ExtractSpecificDates(text) == Period("")
  {
    MatchAtCompleteYear(Lower(text), k, s, w, d, j);
    PeriodOfLeftmost(text, k);
  }

  /**
   * When the leftmost match is a quarterly or fiscal period statement, the
   * result is the whole statement, title-cased.
   */
  lemma PeriodStatementGivesTitled(text: string, k: nat, kind: string, s: nat, w: nat, d: nat, j: nat)
    requires k <= |text| && PeriodParse(Lower(text), k, kind, s, w, d, j)
    requires forall k' | 0 <= k' < k :: MatchAt(Lower(text), k').None?
    ensures ExtractSpecificDates(text) == Period(Title(Lower(text)[k..j]))
  {
    MatchAtCompletePeriod(Lower(text), k, kind, s, w, d, j);
    PeriodOfLeftmost(text, k);
  }

  /** A reported period is already title-cased. */
  lemma PeriodIsTitled(text: string)
    requires ExtractSpecificDates(text).Period?
    ensures Title(ExtractSpecificDates(text).value) == ExtractSpecificDates(text).value
  {
    var hit := FirstMatchFrom(Lower(text), 0);
    TitleIdempotent(hit.value.m.groups.period);
  }

  /** A run of a class inside `t[k..j]` is a run in the slice too. */
  lemma AllOfSlice(t: string, k: nat, j: nat, a: nat, b: nat, cls: CharClass)
    requires k <= a && AllOf(t, a, b, cls) && b <= j <= |t|
    ensures AllOf(t[k..j], a - k, b - k, cls)
  {
    assert forall x | a - k <= x < b - k :: t[k..j][x] == t[x + k];
  }

  /** A parse by the first alternative of `t[k..j]` is a parse of the slice on its own. */
  lemma PeriodParseOfSlice(t: string, k: nat, kind: string, s: nat, w: nat, d: nat, j: nat)
    requires PeriodParse(t, k, kind, s, w, d, j)
    ensures PeriodParse(t[k..j], 0, kind, s - k, w - k, d, j - k)
  {
    var u, h := t[k..j], PeriodHead(kind);
    assert u[0..|h|] == t[k..k + |h|];
    AllOfSlice(t, k, j, k + |h|, s, Space);
    AllOfSlice(t, k, j, s, w, Word);
    AllOfSlice(t, k, j, w + 1, w + 1 + d, Digit);
    AllOfSlice(t, k, j, w + 3 + d, j, Digit);
    assert u[w - k] == t[w] && u[w + 1 + d - k] == t[w + 1 + d] && u[w + 2 + d - k] == t[w + 2 + d];
  }

  /**
   * Extracting the period from a reported period gives it back: the result
   * is itself a period statement, matched in full at its start.
   */
  lemma ReExtractionIsStable(text: string)
    requires ExtractSpecificDates(text).Period? && ExtractSpecificDates(text).value != ""
    ensures ExtractSpecificDates(ExtractSpecificDates(text).value) == ExtractSpecificDates(text)
  {
    var t := Lower(text);
    var hit := FirstMatchFrom(t, 0).value;
    var k, m := hit.start, hit.m;
    assert ExtractSpecificDates(text).value == Title(m.groups.period);
    assert m.groups.period != "";
    NonEmptyPeriodIsPeriodParse(t, k);
    var kind: string, s: nat, w: nat, d: nat :| PeriodParse(t, k, kind, s, w, d, m.end)
      && m.groups == Groups(t[k..m.end], kind, t[s..m.end], "", "");
    StableFromParse(t, k, kind, s, w, d, m.end);
  }

  /** A match whose group 1 took part comes from a parse by the first alternative. */
  lemma NonEmptyPeriodIsPeriodParse(t: string, i: nat)
    requires i <= |t| && MatchAt(t, i).Some? && MatchAt(t, i).value.groups.period != ""
    ensures var m := MatchAt(t, i).value;
      exists kind: string, s: nat, w: nat, d: nat :: PeriodParse(t, i, kind, s, w, d, m.end)
        && m.groups == Groups(t[i..m.end], kind, t[s..m.end], "", "")
  {
    MatchAtSound(t, i);
  }

  /** The core of ReExtractionIsStable, for a statement parsed at `k` of lower-cased `t`. */
  lemma StableFromParse(t: string, k: nat, kind: string, s: nat, w: nat, d: nat, j: nat)
    requires IsLowered(t) && PeriodParse(t, k, kind, s, w, d, j)
    ensures ExtractSpecificDates(Title(t[k..j])) == Period(Title(t[k..j]))
  {
    PeriodParseOfSlice(t, k, kind, s, w, d, j);
    assert IsLowered(t[k..j]) by {
      forall x | 0 <= x < j - k ensures !IsUpper(t[k..j][x]) {
        assert t[k..j][x] == t[k + x];
      }
    }
    StatementIsStable(t[k..j], kind, s - k, w - k, d);
  }

  /** A lower-cased period statement, title-cased, extracts to itself. */
  lemma StatementIsStable(g: string, kind: string, s: nat, w: nat, d: nat)
    requires IsLowered(g) && PeriodParse(g, 0, kind, s, w, d, |g|)
    ensures ExtractSpecificDates(Title(g)) == Period(Title(g))
  {
    WholeStatementMatches(g, kind, s, w, d);
    TitleOfLoweredIsUndone(g);
    PeriodOfLeftmost(Title(g), 0);
  }

  /** A period statement spanning all of `g` is matched at 0 with group 1 the whole of `g`. */
  lemma WholeStatementMatches(g: string, kind: string, s: nat, w: nat, d: nat)
    requires PeriodParse(g, 0, kind, s, w, d, |g|)
    ensures MatchAt(g, 0).Some? && MatchAt(g, 0).value.groups.period == g
  {
    MatchAtCompletePeriod(g, 0, kind, s, w, d, |g|);
    assert g[0..|g|] == g;
  }

  /** Lower-casing undoes title-casing on a lower-cased string. */
  lemma TitleOfLoweredIsUndone(g: string)
    requires IsLowered(g)
    ensures Lower(Title(g)) == g
  {
    LoweredIsFixed(g);
    LowerOfTitle(g);
  }
}
