/**
 * The `--sortby` and `--descending` arguments of `handle_popt_args`: the
 * column name chosen on the command line becomes the sort column of the
 * result list, an unknown name draws a warning and falls back to sorting
 * by name, and `--descending` picks the order.
 */
module SortBy {
  import opened Wrappers

  /** The result-list columns a sort can be set on. */
  datatype Column = ColumnName | ColumnPath | ColumnSize | ColumnType | ColumnDate

  datatype SortOrder = Ascending | Descending

  /** What the arguments set on the result model. */
  datatype SortSetting = SortSetting(
    column: Column,
    order: SortOrder,
    /** Whether the invalid-option warning was logged. */
    warned: bool)

  /** The names the command line uses for the columns. */
  const ValidNames: set<string> := {"name", "folder", "size", "type", "date"}

  /** The command-line name of each column. */
  function ArgumentName(c: Column): (name: string)
    ensures name in ValidNames
  {
    match c
    case ColumnName => "name"
    case ColumnPath => "folder"
    case ColumnSize => "size"
    case ColumnType => "type"
    case ColumnDate => "date"
  }

  /**
   * The `strcmp` chain: a known name selects its column; anything else
   * warns and selects the name column.
   */
  function SortColumn(arg: string): (r: (Column, bool))
    ensures !r.1 <==> arg in ValidNames
    ensures !r.1 ==> ArgumentName(r.0) == arg
    ensures r.1 ==> r.0 == ColumnName
  {
    if arg == "name" then (ColumnName, false)
    else if arg == "folder" then (ColumnPath, false)
    else if arg == "size" then (ColumnSize, false)
    else if arg == "type" then (ColumnType, false)
    else if arg == "date" then (ColumnDate, false)
    else (ColumnName, true)
  }

  /**
   * The sortby branch of `handle_popt_args`: without `--sortby` the model's
   * sort is left alone, and `--descending` alone does nothing.
   */
  function HandleSortby(sortby: Option<string>, descending: bool): (r: Option<SortSetting>)
    ensures r.Some? <==> sortby.Some?
    ensures r.Some? ==> (r.value.order == Descending <==> descending)
    ensures r.Some? ==> (r.value.warned <==> sortby.value !in ValidNames)
    ensures r.Some? && !r.value.warned ==> ArgumentName(r.value.column) == sortby.value
    ensures r.Some? && r.value.warned ==> r.value.column == ColumnName
  {
    if sortby.None? then None
    else
      var (column, warned) := SortColumn(sortby.value);
      Some(SortSetting(column, if descending then Descending else Ascending, warned))
  }

  /** Every column is reached by its own name, without a warning. */
  lemma ColumnRoundTrip(c: Column)
    ensures SortColumn(ArgumentName(c)) == (c, false)
  {
  }

  /** Distinct columns have distinct names. */
  lemma ArgumentNameInjective(c: Column, d: Column)
    requires ArgumentName(c) == ArgumentName(d)
    ensures c == d
  {
  }
}
