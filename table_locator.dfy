/**
 * `extract_key_tables_from_pdf`: keep, in detection order, the grid of every
 * detected table whose bounding-box text contains a keyword. Table detection
 * and clipping are done by foreign libraries, so their results are inputs.
 */
module TableLocator {
  import opened Common
  import opened Keywords

  /** A table's cells: rows of string cells, the header row not distinguished. */
  type Grid = seq<seq<string>>

  /** A bounding box in page coordinates. */
  datatype BBox = BBox(x1: real, y1: real, x2: real, y2: real)

  /**
   * One detected table: its 1-based page, its bounding box, its grid, and the
   * page text clipped to the bounding box, or None when reopening the
   * document or clipping that page raised.
   */
  datatype DetectedTable = DetectedTable(page: nat, bbox: BBox, grid: Grid, clip: Option<string>)

  /** What table detection produced: the tables in detection order, or a raised error. */
  datatype Detection = Detected(tables: seq<DetectedTable>) | DetectionFailed

  /** The returned grids, and whether an error message was shown on the way. */
  datatype TableOutcome = TableOutcome(grids: seq<Grid>, errorShown: bool)

  /** A table the filter keeps: its clipped text passes the keyword test. */
  predicate Relevant(t: DetectedTable, keywords: seq<string>) {
    t.clip.Some? && ContainsKeywords(t.clip.value, keywords)
  }

  /** How many of the tables are relevant. */
  function RelevantCount(tables: seq<DetectedTable>, keywords: seq<string>): nat
  {
    if tables == [] then 0
    else RelevantCount(tables[..|tables| - 1], keywords) + (if Relevant(tables[|tables| - 1], keywords) then 1 else 0)
  }

  /** The grids of the relevant tables, in detection order: one grid per relevant table. */
  function Kept(tables: seq<DetectedTable>, keywords: seq<string>): (r: seq<Grid>)
    ensures |r| <= |tables|
    ensures |r| == RelevantCount(tables, keywords)
  {
    if tables == [] then []
    else
      var last := tables[|tables| - 1];
      Kept(tables[..|tables| - 1], keywords) + (if Relevant(last, keywords) then [last.grid] else [])
  }

  /**
   * The detection indices of the relevant tables: strictly increasing (nothing
   * reordered or duplicated), and holding an index if and only if the table
   * there is relevant.
   */
  function KeptIndices(tables: seq<DetectedTable>, keywords: seq<string>): (idx: seq<nat>)
    ensures |idx| == RelevantCount(tables, keywords)
    ensures forall k | 0 <= k < |idx| :: idx[k] < |tables|
    ensures forall k, l | 0 <= k < l < |idx| :: idx[k] < idx[l]
    ensures forall j | 0 <= j < |tables| :: Relevant(tables[j], keywords) <==> j in idx
  {
    if tables == [] then []
    else
      var n := |tables| - 1;
      var init := tables[..n];
      assert forall j | 0 <= j < n :: init[j] == tables[j];
      KeptIndices(init, keywords) + (if Relevant(tables[n], keywords) then [n] else [])
  }

  /**
   * The filter's result is exactly the subsequence of relevant tables: the
   * k-th kept grid is the grid of the table at the k-th relevant index.
   */
  lemma {:induction false} KeptIsRelevantSubsequence(tables: seq<DetectedTable>, keywords: seq<string>)
    ensures |Kept(tables, keywords)| == |KeptIndices(tables, keywords)|
    ensures forall k | 0 <= k < |KeptIndices(tables, keywords)| ::
      Kept(tables, keywords)[k] == tables[KeptIndices(tables, keywords)[k]].grid
  {
    if tables != [] {
      var n := |tables| - 1;
      var init := tables[..n];
      KeptIsRelevantSubsequence(init, keywords);
      var idx0, kept0 := KeptIndices(init, keywords), Kept(init, keywords);
      var extra := if Relevant(tables[n], keywords) then [n] else [];
      var idx, kept := KeptIndices(tables, keywords), Kept(tables, keywords);
      assert idx == idx0 + extra;
      assert kept == kept0 + (if Relevant(tables[n], keywords) then [tables[n].grid] else []);
      forall k | 0 <= k < |idx|
        ensures kept[k] == tables[idx[k]].grid
      {
        if k < |idx0| {
          assert kept[k] == kept0[k] && idx[k] == idx0[k];
          assert init[idx0[k]] == tables[idx0[k]];
        }
      }
    }
  }

  /** With no relevant table, nothing is kept. */
  lemma {:induction false} NothingRelevantKeepsNothing(tables: seq<DetectedTable>, keywords: seq<string>)
    requires forall j | 0 <= j < |tables| :: !Relevant(tables[j], keywords)
    ensures Kept(tables, keywords) == []
  {
    if tables != [] {
      NothingRelevantKeepsNothing(tables[..|tables| - 1], keywords);
    }
  }

  /** Each table is judged on its own: filtering two runs of tables is filtering each. */
  lemma {:induction false} KeptAppend(a: seq<DetectedTable>, b: seq<DetectedTable>, keywords: seq<string>)
    ensures Kept(a + b, keywords) == Kept(a, keywords) + Kept(b, keywords)
    decreases |b|
  {
    if b == [] {
      assert a + b == a;
    } else {
      var n := |b| - 1;
      assert (a + b)[..|a + b| - 1] == a + b[..n];
      KeptAppend(a, b[..n], keywords);
    }
  }

  /** No table passes the test of an empty keyword list. */
  lemma NoKeywordsKeepsNothing(tables: seq<DetectedTable>)
    ensures Kept(tables, []) == []
  {
    NothingRelevantKeepsNothing(tables, []);
  }

  /** Some table's clipping raised. */
  predicate SomeClipFailed(tables: seq<DetectedTable>) {
    exists j | 0 <= j < |tables| :: tables[j].clip.None?
  }

  /**
   * What `extract_key_tables_from_pdf` returns. `saved` is whether the
   * temporary file got a path. Any error inside the try block (detection, or
   * clipping one table) discards everything kept so far and returns [] with an
   * error message; with no tables detected, `doc` is never bound, so closing it
   * raises and lands in the same handler.
   */
  function KeyTables(saved: bool, detection: Detection, keywords: seq<string>): (r: TableOutcome)
    ensures r.errorShown ==> r.grids == []
    ensures !r.errorShown <==>
      saved && detection.Detected? && detection.tables != [] && !SomeClipFailed(detection.tables)
    ensures |r.grids| <= if detection.Detected? then |detection.tables| else 0
  {
    if !saved || detection.DetectionFailed? then TableOutcome([], true)
    else if SomeClipFailed(detection.tables) || detection.tables == [] then TableOutcome([], true)
    else TableOutcome(Kept(detection.tables, keywords), false)
  }

  /** Every failure path yields the empty list and an error message, never a propagated error. */
  lemma FailuresSoftFail(saved: bool, detection: Detection, keywords: seq<string>)
    requires !saved || detection.DetectionFailed? || SomeClipFailed(detection.tables) || detection.tables == []
    ensures KeyTables(saved, detection, keywords) == TableOutcome([], true)
  {
  }

  /**
   * The table locator's invariant: on success no error is shown and the
   * k-th returned grid is the grid of the k-th relevant table in detection
   * order, so a table's grid is returned if and only if its clipped text
   * contains a keyword.
   */
  lemma KeyTablesOnSuccess(detection: Detection, keywords: seq<string>)
    requires detection.Detected? && detection.tables != [] && !SomeClipFailed(detection.tables)
    ensures var r := KeyTables(true, detection, keywords);
      var idx := KeptIndices(detection.tables, keywords);
      && !r.errorShown
      && |r.grids| == |idx|
      && forall k | 0 <= k < |idx| :: r.grids[k] == detection.tables[idx[k]].grid
  {
    KeptIsRelevantSubsequence(detection.tables, keywords);
  }

  /** The loop of `extract_key_tables_from_pdf`, appending to the kept list. */
  method ExtractKeyTables(saved: bool, detection: Detection, keywords: seq<string>) returns (out: TableOutcome)
    ensures out == KeyTables(saved, detection, keywords)
  {
    if !saved || detection.DetectionFailed? {
      return TableOutcome([], true);
    }
    var tables := detection.tables;
    var kept: seq<Grid> := [];
    var i := 0;
    while i < |tables|
      invariant 0 <= i <= |tables|
      invariant forall j | 0 <= j < i :: tables[j].clip.Some?
      invariant kept == Kept(tables[..i], keywords)
    {
      var table := tables[i];
      if table.clip.None? {
        return TableOutcome([], true);
      }
      if ContainsKeywords(table.clip.value, keywords) {
        kept := kept + [table.grid];
      }
      assert tables[..i + 1][..i] == tables[..i];
      i := i + 1;
    }
    assert tables[..i] == tables;
    if tables == [] {
      return TableOutcome([], true);
    }
    return TableOutcome(kept, false);
  }
}
