/**
 * `data_dist`: validate the table, select the features, reject an empty selection,
 * lay the features out on a grid of subplot cells and delete the cells left over.
 * A cell stands for one subplot axes; its histogram, title and density curve are
 * not modelled, only which feature it shows.
 */
module Render {
  import opened Errors
  import opened Tables
  import opened Validation
  import opened Selection
  import opened Grid
  import opened Seqs

  /** A subplot cell: freshly created, showing a feature, or deleted from the figure. */
  datatype Cell = Blank | Drawn(feature: string) | Removed

  /** The figure: a grid of `rows * cols` cells, row by row. */
  datatype Figure = Figure(rows: nat, cols: nat, cells: seq<Cell>)

  /** The cell in row `r`, column `c`. */
  function At(fig: Figure, r: nat, c: nat): Cell
    requires r * fig.cols + c < |fig.cells|
  {
    fig.cells[r * fig.cols + c]
  }

  /** The figure `data_dist` builds for a non-empty feature list. */
  function Layout(features: seq<string>): Figure
    requires features != []
  {
    var n := |features|;
    var rows, cols := GridRows(n), GridCols(n);
    Figure(rows, cols,
           seq(rows * cols, i requires 0 <= i < rows * cols =>
             if i < n then Drawn(features[i]) else Removed))
  }

  /**
   * The grid arithmetic and the two cell loops of `data_dist`: subplots start blank,
   * feature i is drawn into cell i, and every cell past the last feature is deleted.
   */
  method PlaceFeatures(features: seq<string>) returns (fig: Figure)
    requires features != []
    ensures fig == Layout(features)
  {
    var n := |features|;
    var cols := GridCols(n);
    var rows := GridRows(n);
    var axes := new Cell[rows * cols](_ => Blank);
    for i := 0 to n
      invariant forall k :: 0 <= k < i ==> axes[k] == Drawn(features[k])
      invariant forall k :: i <= k < axes.Length ==> axes[k] == Blank
    {
      axes[i] := Drawn(features[i]);
    }
    for j := n to rows * cols
      invariant forall k :: 0 <= k < n ==> axes[k] == Drawn(features[k])
      invariant forall k :: n <= k < j ==> axes[k] == Removed
    {
      axes[j] := Removed;
    }
    fig := Figure(rows, cols, axes[..]);
  }

  /** What a call of `data_dist` produces: an error, or the laid-out figure. */
  function Render(data: Data, includes: Param, excludes: Param, excludeBinary: bool): Result<Figure>
  {
    match ValidateData(data)
    case Fail(e) => Err(e)
    case Pass =>
      match ExcludedFeatures(data.table, includes, excludes, excludeBinary)
      case Err(e) => Err(e)
      case Ok(features) =>
        if features == [] then Err(NoFeaturesAfterFiltering) else Ok(Layout(features))
  }

  /** `data_dist(data, exclude=..., include=..., exclude_binary=...)` */
  method DataDist(data: Data, includes: Param, excludes: Param, excludeBinary: bool)
    returns (r: Result<Figure>)
    ensures r == Render(data, includes, excludes, excludeBinary)
    ensures ValidateData(data).Fail? ==> r == Err(ValidateData(data).error)
    ensures data.DataFrameValue? ==>
      var s := ExcludedFeatures(data.table, includes, excludes, excludeBinary);
      && (s.Err? ==> r == Err(s.error))
      && (s.Ok? ==> (r == Err(NoFeaturesAfterFiltering) <==> s.value == []))
      && (s.Ok? && s.value != [] ==> r == Ok(Layout(s.value)))
  {
    var valid := ValidateData(data);
    if valid.Fail? {
      return Err(valid.error);
    }
    var selected := ExcludedFeatures(data.table, includes, excludes, excludeBinary);
    if selected.Err? {
      return Err(selected.error);
    }
    var features := selected.value;
    if features == [] {
      return Err(NoFeaturesAfterFiltering);
    }
    var fig := PlaceFeatures(features);
    return Ok(fig);
  }

  /**
   * The laid-out figure has `rows * cols` cells; feature i is in cell i, every later
   * cell is deleted and no blank cell is left.
   */
  lemma LayoutCells(features: seq<string>)
    requires features != []
    ensures var fig, n := Layout(features), |features|;
      && |fig.cells| == fig.rows * fig.cols
      && n <= |fig.cells| < n + fig.cols
      && fig.rows <= fig.cols
      && (forall i :: 0 <= i < n ==> fig.cells[i] == Drawn(features[i]))
      && (forall i :: n <= i < |fig.cells| ==> fig.cells[i] == Removed)
      && (forall i :: 0 <= i < |fig.cells| ==> !fig.cells[i].Blank?)
  {
    GridShape(|features|);
  }

  /** No row of the laid-out figure is left empty: its first cell shows a feature. */
  lemma LayoutRows(features: seq<string>)
    requires features != []
    ensures var fig := Layout(features);
      forall r :: 0 <= r < fig.rows ==> r * fig.cols < |fig.cells| && At(fig, r, 0).Drawn?
  {
    var fig, n := Layout(features), |features|;
    forall r | 0 <= r < fig.rows
      ensures r * fig.cols < n
    {
      MulLeft(r, fig.rows - 1, fig.cols);
    }
    LayoutCells(features);
  }

  lemma MulLeft(a: nat, b: nat, c: nat)
    requires a <= b
    ensures a * c <= b * c
  {
  }

  /**
   * `data_dist` fails exactly when validation fails, when selection fails (each with
   * its own error, unchanged), or when nothing is selected.
   */
  lemma RenderErrors(data: Data, includes: Param, excludes: Param, excludeBinary: bool)
    ensures var r := Render(data, includes, excludes, excludeBinary);
      && (ValidateData(data).Fail? ==> r == Err(ValidateData(data).error))
      && (data.DataFrameValue? ==>
            var s := ExcludedFeatures(data.table, includes, excludes, excludeBinary);
            && (s.Err? ==> r == Err(s.error))
            && (s.Ok? ==> (r == Err(NoFeaturesAfterFiltering) <==> s.value == [])))
      && (r.Ok? <==>
            && data.DataFrameValue?
            && ExcludedFeatures(data.table, includes, excludes, excludeBinary).Ok?
            && ExcludedFeatures(data.table, includes, excludes, excludeBinary).value != [])
  {
  }

  /** Every cell of a rendered figure that shows a feature shows a numeric column. */
  lemma {:induction false} RenderDrawsNumeric(data: Data, includes: Param, excludes: Param, excludeBinary: bool)
    requires Render(data, includes, excludes, excludeBinary).Ok?
    ensures var fig := Render(data, includes, excludes, excludeBinary).value;
      forall i :: 0 <= i < |fig.cells| && fig.cells[i].Drawn? ==>
        fig.cells[i].feature in Names(data.table) && IsNumeric(data.table, fig.cells[i].feature)
  {
    var features := ExcludedFeatures(data.table, includes, excludes, excludeBinary).value;
    LayoutCells(features);
  }

  /**
   * A table without numeric columns, plotted with no `include`, always fails with
   * the empty-selection error once the other parameters are acceptable.
   */
  lemma NoNumericColumnsFails(t: Table, excludes: Param, excludeBinary: bool)
    requires forall c :: c in t ==> !c.isNumeric
    requires ParamOk(t, excludes)
    ensures Render(DataFrameValue(t), Absent, excludes, excludeBinary) == Err(NoFeaturesAfterFiltering)
  {
    var s := ExcludedFeatures(t, Absent, excludes, excludeBinary);
    SelectionFailsIff(t, Absent, excludes, excludeBinary);
    assert forall f :: !IsNumeric(t, f);
    NoMembers(s.value);
  }
}
