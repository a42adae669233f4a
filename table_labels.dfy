/**
 * How the kept tables are shown: only the first three, each under a label
 * chosen by its position alone.
 */
module TableLabels {
  import opened TableLocator

  /** The labels by position: earnings, balance sheets, cash flows. */
  const CanonicalLabels: seq<string> :=
    ["Consolidated Statements of Earnings", "Consolidated Balance Sheets", "Consolidated Statements of Cash Flows"]

  /** How many tables are shown at most (the slice `dataframes[:3]`). */
  const ShownLimit: nat := 3

  /** The decimal digits of `n`, as an f-string writes them. */
  function NatToString(n: nat): (r: string)
    ensures |r| > 0
    decreases n
  {
    var digit := ["0", "1", "2", "3", "4", "5", "6", "7", "8", "9"][n % 10];
    if n < 10 then digit else NatToString(n / 10) + digit
  }

  /** The label of the table at index `i`, with the generic fallback. */
  function TableLabel(i: nat): string {
    if i < |CanonicalLabels| then CanonicalLabels[i] else "Table " + NatToString(i + 1)
  }

  /** One table as shown: a subheader and the grid under it. */
  datatype LabelledTable = LabelledTable(heading: string, grid: Grid)

  /** The "Key Financial Statements" section. */
  datatype TablesView =
    | Shown(tables: seq<LabelledTable>)
      /** "No tables matching the specified keywords extracted." */
    | NoTablesMessage

  function Min(a: nat, b: nat): nat { if a < b then a else b }

  /**
   * Lines 168-175 of the script. The message appears exactly when nothing was
   * kept; otherwise the first three grids at most are shown, in order, each
   * under the canonical label of its position, so the "Table n" fallback is
   * never reached.
   */
  function DisplayTables(grids: seq<Grid>): (v: TablesView)
    ensures v.NoTablesMessage? <==> grids == []
    ensures v.Shown? ==>
      && |v.tables| == Min(ShownLimit, |grids|)
      && forall i | 0 <= i < |v.tables| :: v.tables[i] == LabelledTable(CanonicalLabels[i], grids[i])
  {
    if grids == [] then NoTablesMessage
    else
      var shown := grids[..Min(ShownLimit, |grids|)];
      Shown(seq(|shown|, i requires 0 <= i < |shown| => LabelledTable(TableLabel(i), shown[i])))
  }

  /**
   * With two kept tables, they appear as the statements of earnings and the
   * balance sheets, in detection order, whatever they hold.
   */
  lemma TwoKeptTables(a: DetectedTable, b: DetectedTable, c: DetectedTable, keywords: seq<string>)
    requires Relevant(a, keywords) && !Relevant(b, keywords) && Relevant(c, keywords)
    ensures DisplayTables(Kept([a, b, c], keywords)) ==
      Shown([LabelledTable("Consolidated Statements of Earnings", a.grid),
             LabelledTable("Consolidated Balance Sheets", c.grid)])
  {
    assert [a, b, c][..2] == [a, b];
    assert [a, b][..1] == [a];
    assert [a][..0] == [];
    assert Kept([a], keywords) == [a.grid];
    assert Kept([a, b], keywords) == [a.grid];
    assert Kept([a, b, c], keywords) == [a.grid, c.grid];
  }
}
