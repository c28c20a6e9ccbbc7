/**
 * The two sides of the R-to-pandas conversion: the cells of an R vector as rpy2 hands
 * them to Python, and the pandas data frame that the client rewrites in place.
 */
module Frames {

  /** One element of an R vector, as read with `r_vector[j]`. */
  datatype RValue =
    | NAReal                  // rpy2's NA_Real, R's missing double
    | NAInteger               // rpy2's NA_Integer, R's missing integer
    | NACharacter             // rpy2's NA_Character, R's missing string
    | NALogical               // rpy2's NA_Logical, R's missing boolean
    | Ordinary(text: string)  // a present value that is not a factor code (a number, a string, a
                              // boolean), shown by its text; rpy2 never yields one from a factor
    | Code(level: int)        // a factor's integer code; R's levels are numbered from 1
    | Raising                 // a cell whose read raises an exception

  /**
   * One column of an R data frame: its name, the first entry of its R class
   * vector (`rclass[0]`: "numeric", "integer", "character", "logical", "factor",
   * "ordered", "Date", ...) and its cells.
   */
  datatype RColumn = RColumn(name: string, rclass: string, cells: seq<RValue>)

  /**
   * One cell of the pandas frame: whatever the conversion produced from an R value,
   * or one of the two host missing markers, `np.nan` and `pd.NA`. Both markers are
   * opaque here; nothing depends on the floating-point meaning of `np.nan`.
   */
  datatype HostValue = Converted(source: RValue) | NumpyNaN | PandasNA

  /** The columns of a pandas frame, by label. */
  type Columns = map<string, seq<HostValue>>

  /**
   * A rectangular frame: the labels are distinct and are exactly the keys of
   * `columns`, and every column has one cell per row of the index 0 .. rows-1.
   */
  ghost predicate Shaped(names: seq<string>, columns: Columns, rows: nat)
  {
    && (forall n :: n in columns <==> n in names)
    && (forall a, b :: 0 <= a < b < |names| ==> names[a] != names[b])
    && (forall n :: n in columns ==> |columns[n]| == rows)
  }

  /** The names of the R columns, in order. */
  function Names(r: seq<RColumn>): (names: seq<string>)
    ensures |names| == |r|
    ensures forall k :: 0 <= k < |r| ==> names[k] == r[k].name
  {
    seq(|r|, k requires 0 <= k < |r| => r[k].name)
  }

  /** An R data frame: every column has the same number of cells. */
  ghost predicate Rectangular(r: seq<RColumn>)
  {
    forall a, b :: 0 <= a < |r| && 0 <= b < |r| ==> |r[a].cells| == |r[b].cells|
  }

  /** The number of rows of a rectangular R frame; a frame without columns has none. */
  function RowCount(r: seq<RColumn>): nat
  {
    if r == [] then 0 else |r[0].cells|
  }

  /** One R vector as the pandas column the conversion makes of it. */
  function ConvertCells(cells: seq<RValue>): (col: seq<HostValue>)
    ensures |col| == |cells|
    ensures forall j :: 0 <= j < |cells| ==> col[j] == Converted(cells[j])
  {
    seq(|cells|, j requires 0 <= j < |cells| => Converted(cells[j]))
  }

  /** The keys of `dict(zip(names, vectors))`, in dictionary order: each name at its first occurrence. */
  function FirstNames(r: seq<RColumn>): (names: seq<string>)
    ensures forall x :: x in names <==> x in Names(r)
    ensures forall a, b :: 0 <= a < b < |names| ==> names[a] != names[b]
    decreases |r|
  {
    if r == [] then []
    else
      var n := |r| - 1;
      assert Names(r) == Names(r[..n]) + [r[n].name];
      var prior := FirstNames(r[..n]);
      if r[n].name in prior then prior else prior + [r[n].name]
  }

  /** The values of `dict(zip(names, vectors))`: a later vector with a repeated name replaces an earlier one. */
  function ConvertedColumns(r: seq<RColumn>): (cols: Columns)
    ensures forall x :: x in cols <==> x in Names(r)
    ensures Rectangular(r) ==> forall x :: x in cols ==> |cols[x]| == RowCount(r)
    decreases |r|
  {
    if r == [] then map[]
    else
      var n := |r| - 1;
      assert Names(r) == Names(r[..n]) + [r[n].name];
      ConvertedColumns(r[..n])[r[n].name := ConvertCells(r[n].cells)]
  }

  /** Each label holds the converted cells of the last R column with that name. */
  lemma {:induction false} ConvertedLastWins(r: seq<RColumn>, k: nat)
    requires k < |r| && forall l :: k < l < |r| ==> r[l].name != r[k].name
    ensures r[k].name in ConvertedColumns(r)
    ensures ConvertedColumns(r)[r[k].name] == ConvertCells(r[k].cells)
  {
    var n := |r| - 1;
    if k < n {
      assert r[..n][k] == r[k];
      ConvertedLastWins(r[..n], k);
    }
  }

  /** A pandas DataFrame, mutated in place through label-based `loc` assignment. */
  class DataFrame {
    var names: seq<string>
    var columns: Columns
    var rows: nat

    ghost predicate Valid()
      reads this
    {
      Shaped(names, columns, rows)
    }

    /**
     * The frame `pd.DataFrame(dict(zip(r.names, list(r))))` builds from an R data frame:
     * one label per distinct R name, in order of first occurrence, holding the converted
     * cells of the last R column with that name.
     */
    constructor FromR(r: seq<RColumn>)
      requires Rectangular(r)
      ensures Valid()
      ensures names == FirstNames(r) && columns == ConvertedColumns(r) && rows == RowCount(r)
    {
      names := FirstNames(r);
      columns := ConvertedColumns(r);
      rows := RowCount(r);
    }

    /** `df.loc[j, name] = v` on an existing label and row: exactly one cell changes. */
    method SetCell(j: nat, name: string, v: HostValue)
      requires Valid() && name in columns && j < rows
      modifies this
      ensures Valid()
      ensures names == old(names) && rows == old(rows)
      ensures columns == old(columns)[name := old(columns)[name][j := v]]
    {
      columns := columns[name := columns[name][j := v]];
    }
  }
}
