/**
 * What the missing-value pass of the survey client does to a converted frame,
 * stated as functions on values, and the properties it has.
 *
 * The pass walks the R columns in order. For a column of a handled class it walks
 * the cells and overwrites, in the pandas column with the same label, each cell that
 * counts as missing for that class with the class's host marker. A cell whose test
 * raises is skipped. Columns of any other class are not looked at.
 */
module NAReconciliation {
  import opened Wrappers
  import opened Frames

  /** The result of the per-cell test of one branch. */
  datatype Verdict =
    | Missing     // the test says "missing": the cell is overwritten
    | Present     // the test says "not missing": the cell stays
    | Raised      // the read or the test raised: logged and skipped
    | Unchecked   // the column's class has no branch: no test is made

  predicate IsNumericClass(rclass: string)
  {
    rclass == "numeric" || rclass == "integer"
  }

  /** The five classes the pass has a branch for. */
  predicate Handled(rclass: string)
  {
    IsNumericClass(rclass) || rclass == "character" || rclass == "logical" || rclass == "factor"
  }

  /**
   * The factor branch's test `value <= 0`. A code is compared with zero. rpy2 keeps
   * NA_Integer and NA_Logical as Python integers holding R's NA_INTEGER, the most
   * negative 32-bit integer, so they compare as at most zero; NA_Real is a NaN, which
   * compares as false; comparing a string or NA_Character with zero raises. rpy2 reads a
   * factor's cells as codes or NA_Integer only, so the verdict given for an ordinary value
   * (taken to be text) is never reached from a real factor column.
   */
  function FactorTest(v: RValue): (verdict: Verdict)
    ensures verdict != Unchecked
    ensures v.Code? ==> (verdict == Missing <==> v.level <= 0)
  {
    match v
    case Code(k) => if k <= 0 then Missing else Present
    case NAInteger => Missing
    case NALogical => Missing
    case NAReal => Present
    case NACharacter => Raised
    case Ordinary(_) => Raised
    case Raising => Raised
  }

  /** The per-cell test of the branch that `rclass` selects. */
  function Check(rclass: string, v: RValue): (verdict: Verdict)
    ensures verdict == Unchecked <==> !Handled(rclass)
    ensures Handled(rclass) && v.Raising? ==> verdict == Raised
    ensures IsNumericClass(rclass) ==> (verdict == Missing <==> v.NAReal? || v.NAInteger?)
    ensures rclass == "character" ==> (verdict == Missing <==> v.NACharacter?)
    ensures rclass == "logical" ==> (verdict == Missing <==> v.NALogical?)
  {
    if !Handled(rclass) then Unchecked
    else if v.Raising? then Raised
    else if IsNumericClass(rclass) then
      (if v.NAReal? || v.NAInteger? then Missing else Present)
    else if rclass == "character" then
      (if v.NACharacter? then Missing else Present)
    else if rclass == "logical" then
      (if v.NALogical? then Missing else Present)
    else
      FactorTest(v)
  }

  /** The host marker a branch writes: `np.nan` for numbers, `pd.NA` otherwise. */
  function Marker(rclass: string): (marker: HostValue)
    ensures marker.NumpyNaN? || marker.PandasNA?
    ensures marker == NumpyNaN <==> IsNumericClass(rclass)
  {
    if IsNumericClass(rclass) then NumpyNaN else PandasNA
  }

  /**
   * The pandas column `col` after the cells of one R column of class `rclass`
   * have been walked; rows beyond the R column are not visited.
   */
  function MarkColumn(rclass: string, cells: seq<RValue>, col: seq<HostValue>): (marked: seq<HostValue>)
    requires |cells| <= |col|
    ensures |marked| == |col|
  {
    seq(|col|, j requires 0 <= j < |col| =>
      if j < |cells| && Check(rclass, cells[j]) == Missing then Marker(rclass) else col[j])
  }

  /** The frame's columns after one R column has been walked. */
  function ReconcileColumn(cols: Columns, c: RColumn): (out: Columns)
    requires c.name in cols && |c.cells| <= |cols[c.name]|
    ensures out.Keys == cols.Keys
    ensures forall n :: n in cols ==> |out[n]| == |cols[n]|
    ensures forall n :: n in cols && n != c.name ==> out[n] == cols[n]
  {
    cols[c.name := MarkColumn(c.rclass, c.cells, cols[c.name])]
  }

  /**
   * The R frame fits the pandas frame: each R column's name is a label of it and
   * the R column has no more cells than the pandas column has rows, so no `loc`
   * assignment enlarges the frame.
   */
  ghost predicate Fits(cols: Columns, r: seq<RColumn>)
  {
    forall k :: 0 <= k < |r| ==> r[k].name in cols && |r[k].cells| <= |cols[r[k].name]|
  }

  ghost predicate DistinctNames(r: seq<RColumn>)
  {
    forall a, b :: 0 <= a < b < |r| ==> r[a].name != r[b].name
  }

  /** The frame's columns after the whole pass: the R columns walked front to back. */
  function Reconcile(cols: Columns, r: seq<RColumn>): (out: Columns)
    requires Fits(cols, r)
    ensures out.Keys == cols.Keys
    ensures forall n :: n in cols ==> |out[n]| == |cols[n]|
    decreases |r|
  {
    if r == [] then cols else Reconcile(ReconcileColumn(cols, r[0]), r[1..])
  }

  /** One step of the walk: handling R column i and then walking the rest is walking from i. */
  lemma ReconcileStep(cols: Columns, r: seq<RColumn>, i: nat)
    requires i < |r| && Fits(cols, r[i..])
    ensures r[i].name in cols && |r[i].cells| <= |cols[r[i].name]|
    ensures Fits(ReconcileColumn(cols, r[i]), r[i + 1..])
    ensures Reconcile(cols, r[i..]) == Reconcile(ReconcileColumn(cols, r[i]), r[i + 1..])
  {
    assert r[i..][0] == r[i];
    assert r[i..][1..] == r[i + 1..];
  }

  /** A column of a class without a branch is not written. */
  lemma UnhandledColumnNoop(cols: Columns, c: RColumn)
    requires c.name in cols && |c.cells| <= |cols[c.name]| && !Handled(c.rclass)
    ensures ReconcileColumn(cols, c) == cols
  {
    assert MarkColumn(c.rclass, c.cells, cols[c.name]) == cols[c.name];
  }

  /** A column that no R column names is left as it was. */
  lemma {:induction false} ReconcileElsewhere(cols: Columns, r: seq<RColumn>, n: string)
    requires Fits(cols, r) && n in cols
    requires forall k :: 0 <= k < |r| ==> r[k].name != n
    ensures Reconcile(cols, r)[n] == cols[n]
  {
    if r != [] {
      ReconcileElsewhere(ReconcileColumn(cols, r[0]), r[1..], n);
    }
  }

  /** With distinct R names, the pandas column of R column i is marked from that column alone. */
  lemma {:induction false} ReconcileAt(cols: Columns, r: seq<RColumn>, i: nat)
    requires Fits(cols, r) && DistinctNames(r) && i < |r|
    ensures Reconcile(cols, r)[r[i].name] == MarkColumn(r[i].rclass, r[i].cells, cols[r[i].name])
  {
    var next := ReconcileColumn(cols, r[0]);
    if i == 0 {
      ReconcileElsewhere(next, r[1..], r[0].name);
    } else {
      assert r[1..][i - 1] == r[i];
      ReconcileAt(next, r[1..], i - 1);
    }
  }

  /**
   * The pass, cell by cell: a visited cell whose test says "missing" holds the
   * class's marker; every other cell keeps its value.
   */
  lemma ReconcileCell(cols: Columns, r: seq<RColumn>, i: nat, j: nat)
    requires Fits(cols, r) && DistinctNames(r) && i < |r| && j < |cols[r[i].name]|
    ensures Reconcile(cols, r)[r[i].name][j] ==
      if j < |r[i].cells| && Check(r[i].rclass, r[i].cells[j]) == Missing
      then Marker(r[i].rclass) else cols[r[i].name][j]
  {
    ReconcileAt(cols, r, i);
  }

  /**
   * In a "numeric" or an "integer" column, NA_Real and NA_Integer cells both become
   * `np.nan`, whichever of the two classes the column has; every other cell stays.
   */
  lemma NumericNAsBecomeNaN(cols: Columns, r: seq<RColumn>, i: nat, j: nat)
    requires Fits(cols, r) && DistinctNames(r) && i < |r| && j < |r[i].cells|
    requires IsNumericClass(r[i].rclass)
    ensures Reconcile(cols, r)[r[i].name][j] ==
      if r[i].cells[j].NAReal? || r[i].cells[j].NAInteger? then NumpyNaN else cols[r[i].name][j]
  {
    ReconcileCell(cols, r, i, j);
  }

  /** In a "character" column exactly the NA_Character cells become `pd.NA`. */
  lemma CharacterNAsBecomePandasNA(cols: Columns, r: seq<RColumn>, i: nat, j: nat)
    requires Fits(cols, r) && DistinctNames(r) && i < |r| && j < |r[i].cells|
    requires r[i].rclass == "character"
    ensures Reconcile(cols, r)[r[i].name][j] ==
      if r[i].cells[j].NACharacter? then PandasNA else cols[r[i].name][j]
  {
    ReconcileCell(cols, r, i, j);
  }

  /** In a "logical" column exactly the NA_Logical cells become `pd.NA`. */
  lemma LogicalNAsBecomePandasNA(cols: Columns, r: seq<RColumn>, i: nat, j: nat)
    requires Fits(cols, r) && DistinctNames(r) && i < |r| && j < |r[i].cells|
    requires r[i].rclass == "logical"
    ensures Reconcile(cols, r)[r[i].name][j] ==
      if r[i].cells[j].NALogical? then PandasNA else cols[r[i].name][j]
  {
    ReconcileCell(cols, r, i, j);
  }

  /**
   * In a "factor" column a code becomes `pd.NA` exactly when it is at most zero;
   * a missing factor entry, which rpy2 reads as NA_Integer, becomes `pd.NA` as well.
   */
  lemma FactorCodesAtMostZeroBecomePandasNA(cols: Columns, r: seq<RColumn>, i: nat, j: nat)
    requires Fits(cols, r) && DistinctNames(r) && i < |r| && j < |r[i].cells|
    requires r[i].rclass == "factor"
    ensures r[i].cells[j].Code? ==>
      Reconcile(cols, r)[r[i].name][j] ==
        if r[i].cells[j].level <= 0 then PandasNA else cols[r[i].name][j]
    ensures r[i].cells[j].NAInteger? ==> Reconcile(cols, r)[r[i].name][j] == PandasNA
  {
    ReconcileCell(cols, r, i, j);
  }

  /** A column whose class has no branch ("ordered", "Date", "list", ...) is returned untouched. */
  lemma UnhandledColumnUntouched(cols: Columns, r: seq<RColumn>, i: nat)
    requires Fits(cols, r) && DistinctNames(r) && i < |r|
    requires !Handled(r[i].rclass)
    ensures Reconcile(cols, r)[r[i].name] == cols[r[i].name]
  {
    ReconcileAt(cols, r, i);
  }

  /** A cell whose read raises keeps its value, whatever the column's class. */
  lemma RaisingCellUntouched(cols: Columns, r: seq<RColumn>, i: nat, j: nat)
    requires Fits(cols, r) && DistinctNames(r) && i < |r| && j < |r[i].cells|
    requires r[i].cells[j].Raising?
    ensures Reconcile(cols, r)[r[i].name][j] == cols[r[i].name][j]
  {
    ReconcileCell(cols, r, i, j);
  }

  /**
   * The marker that the pass leaves in cell j of the pandas column labelled n, if any:
   * the marker of the last R column named n that flags its cell j as missing.
   */
  function LastMark(r: seq<RColumn>, n: string, j: nat): Option<HostValue>
    decreases |r|
  {
    if r == [] then None
    else
      var later := LastMark(r[1..], n, j);
      if later.Some? then later
      else if r[0].name == n && j < |r[0].cells| && Check(r[0].rclass, r[0].cells[j]) == Missing
      then Some(Marker(r[0].rclass))
      else None
  }

  /**
   * The pass cell by cell, repeated R names included: a cell holds the marker of the
   * last R column with its label that flags it, and otherwise keeps its value.
   */
  lemma {:induction false} ReconcileCellAnyNames(cols: Columns, r: seq<RColumn>, n: string, j: nat)
    requires Fits(cols, r) && n in cols && j < |cols[n]|
    ensures Reconcile(cols, r)[n][j] == match LastMark(r, n, j) case Some(m) => m case None => cols[n][j]
  {
    if r != [] {
      ReconcileCellAnyNames(ReconcileColumn(cols, r[0]), r[1..], n, j);
    }
  }

  /**
   * An R frame with a repeated name: a character column "q" holding NA_Character,
   * then a numeric column "q" holding 5.
   */
  const RepeatedQ: seq<RColumn> :=
    [RColumn("q", "character", [NACharacter]), RColumn("q", "numeric", [Ordinary("5")])]

  /** The conversion keeps only the later vector: label "q" holds the converted 5. */
  lemma RepeatedNameConversion()
    ensures ConvertedColumns(RepeatedQ) == map["q" := [Converted(Ordinary("5"))]]
  {
    var r := RepeatedQ;
    assert r[..1] == [r[0]] && r[..1][..0] == [];
    assert ConvertCells([NACharacter]) == [Converted(NACharacter)];
    assert ConvertCells([Ordinary("5")]) == [Converted(Ordinary("5"))];
  }

  /** The character column's walk marks the converted 5, which sits under the same label. */
  lemma RepeatedNameFirstColumn()
    ensures RepeatedQ[0].name in ConvertedColumns(RepeatedQ)
    ensures ReconcileColumn(ConvertedColumns(RepeatedQ), RepeatedQ[0]) == map["q" := [PandasNA]]
  {
    RepeatedNameConversion();
    assert MarkColumn("character", [NACharacter], [Converted(Ordinary("5"))]) == [PandasNA];
  }

  /**
   * With a repeated name the pass marks a cell of a vector it did not test: the NA_Character
   * of the shadowed character column makes the pass overwrite the present 5 with `pd.NA`.
   */
  lemma RepeatedNameMarksShadowingColumn()
    ensures Fits(ConvertedColumns(RepeatedQ), RepeatedQ)
    ensures Reconcile(ConvertedColumns(RepeatedQ), RepeatedQ) == map["q" := [PandasNA]]
  {
    var r := RepeatedQ;
    RepeatedNameConversion();
    RepeatedNameFirstColumn();
    var afterFirst := map["q" := [PandasNA]];
    assert MarkColumn("numeric", [Ordinary("5")], [PandasNA]) == [PandasNA];
    assert ReconcileColumn(afterFirst, r[1]) == afterFirst;
    assert r[1..][1..] == [];
  }

  /** The frame the conversion builds always fits the R frame it came from. */
  lemma ConversionFits(r: seq<RColumn>)
    requires Rectangular(r)
    ensures Fits(ConvertedColumns(r), r)
  {
    var cols := ConvertedColumns(r);
    forall k | 0 <= k < |r|
      ensures r[k].name in cols && |r[k].cells| <= |cols[r[k].name]|
    {
      assert Names(r)[k] == r[k].name;
    }
  }

  /** Running the pass a second time changes nothing, repeated R names included. */
  lemma ReconcileIdempotent(cols: Columns, r: seq<RColumn>)
    requires Fits(cols, r)
    ensures Fits(Reconcile(cols, r), r)
    ensures Reconcile(Reconcile(cols, r), r) == Reconcile(cols, r)
  {
    var once := Reconcile(cols, r);
    var twice := Reconcile(once, r);
    forall n | n in once
      ensures twice[n] == once[n]
    {
      forall j | 0 <= j < |once[n]|
        ensures twice[n][j] == once[n][j]
      {
        ReconcileCellAnyNames(once, r, n, j);
        ReconcileCellAnyNames(cols, r, n, j);
      }
    }
  }
}
