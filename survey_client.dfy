/**
 * The two loops of the survey client: the missing-value pass that rewrites a
 * converted frame in place, and the bulk download that collects one frame per id.
 * The foreign calls they make are inputs here.
 */
module SurveyClient {
  import opened Wrappers
  import opened Frames
  import opened NAReconciliation
  import opened BulkFetch

  /**
   * The Python half of a single download: converts the R data frame that the survey
   * package returned and replaces its R missing values with the host markers.
   */
  method DownloadSurveyData(surveyData: seq<RColumn>) returns (pandasDf: DataFrame)
    requires Rectangular(surveyData)
    ensures fresh(pandasDf) && pandasDf.Valid()
    ensures pandasDf.names == FirstNames(surveyData) && pandasDf.rows == RowCount(surveyData)
    ensures pandasDf.columns == Reconcile(ConvertedColumns(surveyData), surveyData)
  {
    pandasDf := new DataFrame.FromR(surveyData);
    ConversionFits(surveyData);
    pandasDf := ReplaceRNAWithPandasNA(pandasDf, surveyData);
  }

  /**
   * Replaces, in `df`, the R missing values that `r` reports with the host markers,
   * and returns the same frame. Nothing raises: a cell whose test raises is skipped.
   */
  method ReplaceRNAWithPandasNA(df: DataFrame, r: seq<RColumn>) returns (out: DataFrame)
    requires df.Valid() && Fits(df.columns, r)
    modifies df
    ensures out == df && df.Valid()
    ensures df.names == old(df.names) && df.rows == old(df.rows)
    ensures df.columns == Reconcile(old(df.columns), r)
  {
    var i := 0;
    while i < |r|
      invariant 0 <= i <= |r|
      invariant df.Valid() && df.names == old(df.names) && df.rows == old(df.rows)
      invariant Fits(df.columns, r[i..])
      invariant Reconcile(df.columns, r[i..]) == Reconcile(old(df.columns), r)
    {
      var column := r[i];
      var vecType := column.rclass;
      ghost var before := df.columns;
      ReconcileStep(before, r, i);
      if vecType == "numeric" || vecType == "integer" {
        ReplaceInColumn(df, column, NumpyNaN);
      } else if vecType == "character" {
        ReplaceInColumn(df, column, PandasNA);
      } else if vecType == "logical" {
        ReplaceInColumn(df, column, PandasNA);
      } else if vecType == "factor" {
        ReplaceInColumn(df, column, PandasNA);
      } else {
        // no branch for this class: the column is left as it is
        UnhandledColumnNoop(before, column);
      }
      i := i + 1;
    }
    out := df;
  }

  /** The inner loop of one handled branch: walks the cells of `column` and writes `marker`. */
  method ReplaceInColumn(df: DataFrame, column: RColumn, marker: HostValue)
    requires df.Valid() && column.name in df.columns && |column.cells| <= df.rows
    requires Handled(column.rclass) && marker == Marker(column.rclass)
    modifies df
    ensures df.Valid() && df.names == old(df.names) && df.rows == old(df.rows)
    ensures df.columns == ReconcileColumn(old(df.columns), column)
  {
    ghost var start := old(df.columns);
    var j := 0;
    assert MarkColumn(column.rclass, column.cells[..0], start[column.name]) == start[column.name];
    assert start[column.name := start[column.name]] == start;
    while j < |column.cells|
      invariant 0 <= j <= |column.cells|
      invariant df.Valid() && df.names == old(df.names) && df.rows == old(df.rows)
      invariant df.columns == start[column.name := MarkColumn(column.rclass, column.cells[..j], start[column.name])]
    {
      ghost var col := df.columns[column.name];
      if Check(column.rclass, column.cells[j]) == Missing {
        df.SetCell(j, column.name, marker);
      }
      // a test that raised: the client logs the error and moves on to the next cell
      assert MarkColumn(column.rclass, column.cells[..j + 1], start[column.name])
          == if Check(column.rclass, column.cells[j]) == Missing then col[j := marker] else col;
      j := j + 1;
    }
    assert column.cells[..j] == column.cells;
  }

  /**
   * Downloads each id in turn; the i-th download had outcome `outcomes[i]`. The
   * result never raises: a failed download is recorded as `None` for its id.
   */
  method DownloadMultipleSurveys(ids: seq<SurveyId>, outcomes: seq<FetchOutcome>)
    returns (surveyData: map<SurveyId, Option<DataFrame>>)
    requires |outcomes| == |ids|
    ensures surveyData == Collected(ids, outcomes)
    ensures surveyData.Keys == set k | 0 <= k < |ids| :: ids[k]
    ensures forall k: nat :: LastOccurrence(ids, k) ==> surveyData[ids[k]] == Entry(outcomes[k])
    ensures Distinct(ids) ==> |surveyData| == |ids|
  {
    surveyData := map[];
    var i := 0;
    while i < |ids|
      invariant 0 <= i <= |ids|
      invariant surveyData == Collected(ids[..i], outcomes[..i])
    {
      var surveyId := ids[i];
      match outcomes[i] {
        case Fetched(df) =>
          surveyData := surveyData[surveyId := Some(df)];
        case FetchRaised =>
          surveyData := surveyData[surveyId := None];
      }
      assert ids[..i + 1][..i] == ids[..i] && outcomes[..i + 1][..i] == outcomes[..i];
      i := i + 1;
    }
    assert ids[..i] == ids && outcomes[..i] == outcomes;
    CollectedKeys(ids, outcomes);
    forall k: nat | LastOccurrence(ids, k)
      ensures surveyData[ids[k]] == Entry(outcomes[k])
    {
      CollectedLastWins(ids, outcomes, k);
    }
    if Distinct(ids) {
      CollectedSize(ids, outcomes);
    }
  }
}
