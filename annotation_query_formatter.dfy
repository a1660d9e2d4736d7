/**
 * Annotation events from the rows of one TQL result
 * (src/datasource_process/res_formatter/annotation_query_formatter.ts):
 * one event per row in normal mode, a start and an end event per row whose
 * start is before its end in regions mode.
 */
module AnnotationQueryFormatter {

  import opened Wrappers
  import opened Strings
  import opened Js
  import opened Records

  /** The annotation settings the formatter reads; a setting left blank in
      the editor is `None`. */
  datatype AnnotationConfig = AnnotationConfig(
    timeColumn: Option<string>,
    startTimeColumn: Option<string>,
    endTimeColumn: Option<string>,
    textColumn: Option<string>,
    tagsColumn: Option<string>)

  /** An event handed to Grafana (the `annotation` back-reference each
      start or point event carries is left out). */
  datatype AnnotationEvent =
    | Point(time: Number, tags: seq<string>, text: string)
    | RegionStart(time: Number, regionId: string, tags: seq<string>, text: string)
    | RegionEnd(time: Number, regionId: string)

  /** The column indices the formatter records: `None` is the initial `''`,
      which reads `undefined` from every row. */
  datatype ColumnIndices = ColumnIndices(
    time: Option<nat>, start: Option<nat>, end: Option<nat>, text: Option<nat>, tags: seq<nat>)

  /** `row[index]` for an index kept as text. */
  function CellAt(row: Row, index: Option<nat>): Cell {
    match index
    case None => Undefined
    case Some(i) => At(row, i)
  }

  /** The last column with the given name; `None` when no name is set or no
      column has it. */
  function LastIndexOf(cols: seq<Column>, name: Option<string>): (r: Option<nat>)
    ensures r.Some? ==> r.value < |cols| && Some(cols[r.value].name) == name
    ensures r.Some? ==> forall i :: r.value < i < |cols| ==> Some(cols[i].name) != name
    ensures r.None? ==> forall i :: 0 <= i < |cols| ==> Some(cols[i].name) != name
  {
    if cols == [] then None
    else if Some(cols[|cols| - 1].name) == name then Some(|cols| - 1)
    else LastIndexOf(cols[..|cols| - 1], name)
  }

  /** The tag column names: `tagsColumn` without its spaces, split on
      commas. */
  function TagNames(config: AnnotationConfig): seq<string> {
    var tags := match config.tagsColumn case None => "" case Some(t) => t;
    Split(Join(Split(tags, " "), ""), ",")
  }

  /** Spaces are dropped before the split. */
  lemma TagNamesWithoutSpaces(config: AnnotationConfig)
    ensures TagNames(config) ==
      Split(ReplaceAll(match config.tagsColumn case None => "" case Some(t) => t, " ", ""), ",")
  {
    ReplaceAllIsSplitJoin(match config.tagsColumn case None => "" case Some(t) => t, " ", "");
  }

  /** The indices of the columns named in `tags`, in column order. */
  function TagIndices(cols: seq<Column>, tags: seq<string>): (r: seq<nat>)
    ensures forall k :: 0 <= k < |r| ==> r[k] < |cols| && cols[r[k]].name in tags
    ensures forall i :: 0 <= i < |cols| && cols[i].name in tags ==> i in r
    ensures forall k, l :: 0 <= k < l < |r| ==> r[k] < r[l]
  {
    if cols == [] then []
    else
      TagIndices(cols[..|cols| - 1], tags)
        + (if cols[|cols| - 1].name in tags then [|cols| - 1] else [])
  }

  /** The indices the column loop ends with. */
  function IndicesOf(cols: seq<Column>, config: AnnotationConfig): ColumnIndices {
    ColumnIndices(
      LastIndexOf(cols, config.timeColumn),
      LastIndexOf(cols, config.startTimeColumn),
      LastIndexOf(cols, config.endTimeColumn),
      LastIndexOf(cols, config.textColumn),
      TagIndices(cols, TagNames(config)))
  }

  /** The indices after one more column: each index that names it moves to
      it, and a tag column is appended. */
  lemma IndicesSnoc(cols: seq<Column>, i: nat, config: AnnotationConfig)
    requires i < |cols|
    ensures var prev := IndicesOf(cols[..i], config);
      var name := Some(cols[i].name);
      IndicesOf(cols[..i + 1], config) == ColumnIndices(
        if name == config.timeColumn then Some(i) else prev.time,
        if name == config.startTimeColumn then Some(i) else prev.start,
        if name == config.endTimeColumn then Some(i) else prev.end,
        if name == config.textColumn then Some(i) else prev.text,
        prev.tags + if cols[i].name in TagNames(config) then [i] else [])
  {
    assert cols[..i + 1][..i] == cols[..i];
  }

  /** The tags of a row: its truthy tag cells, as text. */
  function RowTags(row: Row, tagIndices: seq<nat>): (r: seq<string>)
    ensures |r| <= |tagIndices|
  {
    if tagIndices == [] then []
    else
      var last := tagIndices[|tagIndices| - 1];
      RowTags(row, tagIndices[..|tagIndices| - 1])
        + (if Truthy(At(row, last)) then [CellToString(At(row, last))] else [])
  }

  /** Every tag is the text of a truthy cell of a tag column. */
  lemma {:induction false} RowTagsAreTaggedCells(row: Row, tagIndices: seq<nat>)
    ensures forall s :: s in RowTags(row, tagIndices) ==>
      exists k :: 0 <= k < |tagIndices| && Truthy(At(row, tagIndices[k])) && s == CellToString(At(row, tagIndices[k]))
    decreases |tagIndices|
  {
    if tagIndices != [] {
      var init := tagIndices[..|tagIndices| - 1];
      RowTagsAreTaggedCells(row, init);
      forall s | s in RowTags(row, tagIndices)
        ensures exists k :: 0 <= k < |tagIndices| && Truthy(At(row, tagIndices[k])) && s == CellToString(At(row, tagIndices[k]))
      {
        if s in RowTags(row, init) {
          var k :| 0 <= k < |init| && Truthy(At(row, init[k])) && s == CellToString(At(row, init[k]));
          assert tagIndices[k] == init[k];
        } else {
          assert tagIndices[|tagIndices| - 1] == tagIndices[|init|];
        }
      }
    }
  }

  /** The text of a row: its text cell when truthy, as text; else ''. */
  function RowText(row: Row, textIndex: Option<nat>): string {
    if Truthy(CellAt(row, textIndex)) then CellToString(CellAt(row, textIndex)) else ""
  }

  /** The events of normal mode, one per row. */
  function PointEvents(rows: seq<Row>, ix: ColumnIndices, toEpoch: Cell -> Number): seq<AnnotationEvent> {
    seq(|rows|, j requires 0 <= j < |rows| =>
      Point(toEpoch(CellAt(rows[j], ix.time)), RowTags(rows[j], ix.tags), RowText(rows[j], ix.text)))
  }

  /** Whether a row spans a region: its start cell is below its end cell. */
  predicate IsRegion(row: Row, ix: ColumnIndices) {
    LessThan(CellAt(row, ix.start), CellAt(row, ix.end))
  }

  /** The events of regions mode over the first `n` rows. */
  function RegionEvents(rows: seq<Row>, ix: ColumnIndices, toEpoch: Cell -> Number, n: nat): seq<AnnotationEvent>
    requires n <= |rows|
  {
    if n == 0 then []
    else
      var row := rows[n - 1];
      RegionEvents(rows, ix, toEpoch, n - 1)
        + if IsRegion(row, ix) then
            [RegionStart(toEpoch(CellAt(row, ix.start)), NatToString(n - 1), RowTags(row, ix.tags), RowText(row, ix.text)),
             RegionEnd(toEpoch(CellAt(row, ix.end)), NatToString(n - 1))]
          else []
  }

  /** The number of rows among the first `n` that span a region. */
  function RegionCount(rows: seq<Row>, ix: ColumnIndices, n: nat): nat
    requires n <= |rows|
  {
    if n == 0 then 0 else RegionCount(rows, ix, n - 1) + if IsRegion(rows[n - 1], ix) then 1 else 0
  }

  /** Each region row gives a start and an end event, next to each other,
      sharing its index as region id. */
  lemma {:induction false} RegionEventsPaired(rows: seq<Row>, ix: ColumnIndices, toEpoch: Cell -> Number, n: nat)
    requires n <= |rows|
    ensures |RegionEvents(rows, ix, toEpoch, n)| == 2 * RegionCount(rows, ix, n)
    ensures forall k :: 0 <= k < RegionCount(rows, ix, n) ==>
      var events := RegionEvents(rows, ix, toEpoch, n);
      events[2 * k].RegionStart? && events[2 * k + 1].RegionEnd?
      && events[2 * k].regionId == events[2 * k + 1].regionId
  {
    if n > 0 {
      RegionEventsPaired(rows, ix, toEpoch, n - 1);
      var before := RegionEvents(rows, ix, toEpoch, n - 1);
      var events := RegionEvents(rows, ix, toEpoch, n);
      var c := RegionCount(rows, ix, n - 1);
      var added := events[|before|..];
      assert events == before + added;
      forall k | 0 <= k < RegionCount(rows, ix, n)
        ensures events[2 * k].RegionStart? && events[2 * k + 1].RegionEnd?
        ensures events[2 * k].regionId == events[2 * k + 1].regionId
      {
        if k < c {
          assert events[2 * k] == before[2 * k] && events[2 * k + 1] == before[2 * k + 1];
        } else {
          assert events[2 * k] == added[0] && events[2 * k + 1] == added[1];
        }
      }
    }
  }

  /** When the start and end settings name the same column no row spans a
      region. */
  lemma {:induction false} SameColumnNoRegions(rows: seq<Row>, ix: ColumnIndices, toEpoch: Cell -> Number, n: nat)
    requires n <= |rows| && ix.start == ix.end
    ensures RegionEvents(rows, ix, toEpoch, n) == []
  {
    if n > 0 {
      SameColumnNoRegions(rows, ix, toEpoch, n - 1);
      var c := CellAt(rows[n - 1], ix.start);
      if c.Str? {
        StringLessIrreflexive(c.s);
      }
      assert !IsRegion(rows[n - 1], ix);
    }
  }

  /** `getNormalAnnotation` and `getRegionsAnnotation` over one result. */
  class AnnotationQueryFormatter {

    /** The TQL result (`containers`). */
    const containers: QueryResult
    const annotation: AnnotationConfig

    constructor(data: QueryResult, annotation: AnnotationConfig)
      ensures containers == data && this.annotation == annotation
    {
      containers := data;
      this.annotation := annotation;
    }

    /** The column loop shared by both modes: each index is the last
        column with the configured name; tag columns are collected in
        order. */
    method FindColumns() returns (ix: ColumnIndices)
      ensures ix == IndicesOf(containers.columns, annotation)
    {
      var cols := containers.columns;
      ix := ColumnIndices(None, None, None, None, []);
      var i := 0;
      while i < |cols|
        invariant 0 <= i <= |cols|
        invariant ix == IndicesOf(cols[..i], annotation)
      {
        var column := cols[i].name;
        IndicesSnoc(cols, i, annotation);
        if Some(column) == annotation.timeColumn {
          ix := ix.(time := Some(i));
        }
        if Some(column) == annotation.startTimeColumn {
          ix := ix.(start := Some(i));
        }
        if Some(column) == annotation.endTimeColumn {
          ix := ix.(end := Some(i));
        }
        var separatedTags := TagNames(annotation);
        if column in separatedTags {
          ix := ix.(tags := ix.tags + [i]);
        }
        if Some(column) == annotation.textColumn {
          ix := ix.(text := Some(i));
        }
        i := i + 1;
      }
      assert cols[..i] == cols;
    }

    /** The tags of a row as the source computes them: each truthy tag cell
        as text, split on commas and joined back. */
    static method TagsOfRow(row: Row, tagIndices: seq<nat>) returns (tags: seq<string>)
      ensures tags == RowTags(row, tagIndices)
    {
      tags := [];
      var k := 0;
      while k < |tagIndices|
        invariant 0 <= k <= |tagIndices|
        invariant tags == RowTags(row, tagIndices[..k])
      {
        assert tagIndices[..k + 1][..k] == tagIndices[..k];
        var t := tagIndices[k];
        if Truthy(At(row, t)) {
          var x := CellToString(At(row, t));
          var y := Join(Split(x, ","), ",");
          JoinSplit(x, ",");
          tags := tags + [y];
        }
        k := k + 1;
      }
      assert tagIndices[..k] == tagIndices;
    }

    /** `getNormalAnnotation`: one point event per row. */
    method GetNormalAnnotation(toEpoch: Cell -> Number) returns (list: seq<AnnotationEvent>)
      ensures list == PointEvents(containers.results, IndicesOf(containers.columns, annotation), toEpoch)
      ensures |list| == |containers.results|
    {
      var ix := FindColumns();
      var rows := containers.results;
      list := [];
      var j := 0;
      while j < |rows|
        invariant 0 <= j <= |rows| && |list| == j
        invariant forall k :: 0 <= k < j ==> list[k] == PointEvents(rows, ix, toEpoch)[k]
      {
        var value := rows[j];
        var tags := TagsOfRow(value, ix.tags);
        var text := if Truthy(CellAt(value, ix.text)) then CellToString(CellAt(value, ix.text)) else "";
        list := list + [Point(toEpoch(CellAt(value, ix.time)), tags, text)];
        j := j + 1;
      }
    }

    /** `getRegionsAnnotation`: a start and an end event for each row whose
        start is before its end. */
    method GetRegionsAnnotation(toEpoch: Cell -> Number) returns (list: seq<AnnotationEvent>)
      ensures list == RegionEvents(containers.results, IndicesOf(containers.columns, annotation), toEpoch, |containers.results|)
    {
      var ix := FindColumns();
      var rows := containers.results;
      list := [];
      var index := 0;
      while index < |rows|
        invariant 0 <= index <= |rows|
        invariant list == RegionEvents(rows, ix, toEpoch, index)
      {
        var value := rows[index];
        if LessThan(CellAt(value, ix.start), CellAt(value, ix.end)) {
          var tags := TagsOfRow(value, ix.tags);
          var text := if Truthy(CellAt(value, ix.text)) then CellToString(CellAt(value, ix.text)) else "";
          var startDataTime := RegionStart(toEpoch(CellAt(value, ix.start)), NatToString(index), tags, text);
          var endDataTime := RegionEnd(toEpoch(CellAt(value, ix.end)), NatToString(index));
          list := list + [startDataTime, endDataTime];
        } else {
          assert list + [] == list;
        }
        index := index + 1;
      }
    }

    /** `getAnnotations(isRegionsAnnotation)`. */
    method GetAnnotations(isRegionsAnnotation: bool, toEpoch: Cell -> Number) returns (list: seq<AnnotationEvent>)
      ensures isRegionsAnnotation ==>
        list == RegionEvents(containers.results, IndicesOf(containers.columns, annotation), toEpoch, |containers.results|)
      ensures !isRegionsAnnotation ==>
        list == PointEvents(containers.results, IndicesOf(containers.columns, annotation), toEpoch)
    {
      if isRegionsAnnotation {
        list := GetRegionsAnnotation(toEpoch);
      } else {
        list := GetNormalAnnotation(toEpoch);
      }
    }
  }
}
