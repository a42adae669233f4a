/**
 * The company name shown for a filing: of the organisation names the entity
 * recogniser found, in extraction order, the first whose lower-cased form
 * matches `company|inc.|ltd|enterprise|corporation` somewhere, title-cased;
 * "Unknown" when none does. The recogniser itself is not modelled: its
 * organisation names are the input.
 */
module CompanyName {
  import opened Strings

  /**
   * One alternative of `company|inc.|ltd|enterprise|corporation` matches at
   * `k` of `u`. The `.` after `inc` is a regular-expression wildcard: any
   * character except a line break, and there must be one.
   */
  predicate MarkerAt(u: string, k: int): (r: bool)
    ensures r ==> 0 <= k && k + 3 <= |u| && u[k] in "cile"
  {
    || OccursAt("company", u, k)
    || (OccursAt("inc", u, k) && k + 3 < |u| && u[k + 3] != '\n')
    || OccursAt("ltd", u, k)
    || OccursAt("enterprise", u, k)
    || OccursAt("corporation", u, k)
  }

  /** `re.search` of the marker pattern from position `i` on. */
  function SearchMarkerFrom(u: string, i: nat): (r: bool)
    requires i <= |u|
    ensures r <==> exists k :: i <= k && MarkerAt(u, k)
    decreases |u| - i
  {
    MarkerAt(u, i) || (i < |u| && SearchMarkerFrom(u, i + 1))
  }

  /** `name.lower()` contains a match of the marker pattern (`str.contains`). */
  function HasCompanyMarker(name: string): (r: bool)
    ensures r <==> exists k :: MarkerAt(Lower(name), k)
  {
    SearchMarkerFrom(Lower(name), 0)
  }

  /** The data-frame filter: the names with a marker, in extraction order. */
  function FilterCompanyNames(names: seq<string>): (r: seq<string>)
    ensures |r| <= |names|
    ensures forall n | n in r :: n in names && HasCompanyMarker(n)
    ensures r == [] <==> forall j | 0 <= j < |names| :: !HasCompanyMarker(names[j])
  {
    if names == [] then []
    else
      assert forall j | 1 <= j < |names| :: names[j] == names[1..][j - 1];
      (if HasCompanyMarker(names[0]) then [names[0]] else []) + FilterCompanyNames(names[1..])
  }

  /** The head of the filtered list is the name at the first marked index. */
  lemma {:induction false} FilterHeadIsFirstMarked(names: seq<string>, i: nat)
    requires i < |names| && HasCompanyMarker(names[i])
    requires forall j | 0 <= j < i :: !HasCompanyMarker(names[j])
    ensures FilterCompanyNames(names) != [] && FilterCompanyNames(names)[0] == names[i]
  {
    if i > 0 {
      var rest := names[1..];
      assert rest[i - 1] == names[i];
      assert forall j | 0 <= j < i - 1 :: rest[j] == names[j + 1];
      FilterHeadIsFirstMarked(rest, i - 1);
      assert FilterCompanyNames(names) == FilterCompanyNames(rest);
    }
  }

  /** What the "Company Name" line shows. */
  datatype CompanyLine =
    | CompanyNameLine(name: string)
      /** The recogniser found no organisation at all. */
    | NoCompanyNames

  /** Lines 145-151 of the script: filter, take the first or "Unknown", title-case. */
  function ReportCompany(names: seq<string>): (r: CompanyLine)
    ensures r.NoCompanyNames? <==> names == []
  {
    if names == [] then NoCompanyNames
    else
      var filtered := FilterCompanyNames(names);
      CompanyNameLine(Title(if filtered == [] then "Unknown" else filtered[0]))
  }

  /**
   * The reported company is the first marked name in extraction order,
   * title-cased; with names but none marked it is "Unknown", which
   * title-casing leaves as it is.
   */
  lemma ReportCompanyChoosesFirstMarked(names: seq<string>, i: nat)
    requires i < |names| && HasCompanyMarker(names[i])
    requires forall j | 0 <= j < i :: !HasCompanyMarker(names[j])
    ensures ReportCompany(names) == CompanyNameLine(Title(names[i]))
  {
    FilterHeadIsFirstMarked(names, i);
  }

  lemma ReportCompanyUnknown(names: seq<string>)
    requires names != [] && forall j | 0 <= j < |names| :: !HasCompanyMarker(names[j])
    ensures ReportCompany(names) == CompanyNameLine("Unknown")
  {
    UnknownIsTitled();
  }

  /** "Unknown" is already title-cased. */
  lemma UnknownIsTitled()
    ensures Title("Unknown") == "Unknown"
  {
    TitleAll("Unknown");
  }

  /** The first two characters of an occurrence. */
  lemma OccursAtStart(p: string, u: string, k: int)
    requires |p| >= 2 && OccursAt(p, u, k)
    ensures u[k] == p[0] && u[k + 1] == p[1]
  {
    assert u[k..k + |p|][0] == u[k] && u[k..k + |p|][1] == u[k + 1];
  }

  /** A bare "Inc" at the end of a name does not match `inc.`: the wildcard needs a character. */
  lemma TrailingIncIsNoMarker()
    ensures !HasCompanyMarker("Acme Inc")
  {
    assert Lower("Acme Inc") == "acme inc";
    NoMarkerInAcmeInc("acme inc");
  }

  lemma NoMarkerInAcmeInc(u: string)
    requires u == "acme inc"
    ensures forall k :: !MarkerAt(u, k)
  {
    assert u[0] == 'a' && u[1] == 'c' && u[2] == 'm' && u[3] == 'e';
    assert u[4] == ' ' && u[5] == 'i' && u[6] == 'n' && u[7] == 'c';
    forall k | 0 <= k < |u| - 1 ensures !MarkerAt(u, k) {
      if OccursAt("company", u, k) { OccursAtStart("company", u, k); }
      if OccursAt("inc", u, k) { OccursAtStart("inc", u, k); }
      if OccursAt("ltd", u, k) { OccursAtStart("ltd", u, k); }
      if OccursAt("enterprise", u, k) { OccursAtStart("enterprise", u, k); }
      if OccursAt("corporation", u, k) { OccursAtStart("corporation", u, k); }
    }
  }

  /** "XYZ Corporation" carries a marker ("corporation" at index 4 of its lower-cased form). */
  lemma CorporationIsMarked()
    ensures HasCompanyMarker("XYZ Corporation")
  {
    var u := Lower("XYZ Corporation");
    assert u == "xyz corporation";
    assert u[4..15] == "corporation";
    assert MarkerAt(u, 4);
  }
}
