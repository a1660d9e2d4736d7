/**
 * The records the editor, the query builder, the request assembly and the
 * response formatters share: the panel target, its where entries, select-box
 * items and the columns and rows a TQL request returns.
 */
module Records {

  import opened Wrappers
  import opened Js

  /** A select-box choice `{text, value}` (the container box). */
  datatype Selection = Selection(text: string, value: string)

  /** The value of the container box while no container is chosen. */
  const SelectContainerValue := "select-container"

  /** A segment-format item `{text, value, fake}`: a column choice; the
      time-column box holds one. */
  datatype SegmentItem = SegmentItem(text: string, value: string, fake: bool)

  /** One entry of `target.griddbWheres`; a field never set is `None`. */
  datatype WhereEntry = WhereEntry(
    condition: Option<string>,
    key: Option<string>,
    operator: Option<string>,
    value: Option<string>)

  /** `{value, text}` of the view-column box's current choice. */
  datatype ViewColCurrent = ViewColCurrent(value: seq<string>, text: string)

  /** The panel target: every field of `this.target` the core reads or writes.
      `limit` and `offset` are `None` when null, undefined or not numeric. */
  datatype Target = Target(
    hide: bool,
    rawQuery: bool,
    query: string,
    container: Selection,
    selectedContainerType: string,
    timeColumn: Option<SegmentItem>,
    wheres: seq<WhereEntry>,
    limit: Option<int>,
    offset: Option<int>,
    isTimeSampling: bool,
    format: string,
    alias: string,
    selectedViewCols: seq<string>,
    viewColCurrent: ViewColCurrent,
    columns: seq<SegmentItem>,
    tableViewCols: seq<string>,
    timeSeriesViewCols: seq<string>,
    timeCols: seq<SegmentItem>,
    notTimeCols: seq<string>,
    griddbTQL: string,
    notSpecifiedContainerAndColumn: bool)

  /** A column of a TQL result or of a container schema `{name, type}`. */
  datatype Column = Column(name: string, colType: string)

  type Row = seq<Cell>

  /** One TQL result: `{columns, results}`. */
  datatype QueryResult = QueryResult(columns: seq<Column>, results: seq<Row>)

  function ColumnNames(cols: seq<Column>): (names: seq<string>)
    ensures |names| == |cols|
    ensures forall i :: 0 <= i < |cols| ==> names[i] == cols[i].name
  {
    if cols == [] then [] else [cols[0].name] + ColumnNames(cols[1..])
  }
}
