/**
 * The list converters of the query editor (src/query_part/query_part_util.ts):
 * column and container lists turned into the item lists the select boxes
 * show. An undefined or empty input gives an empty result.
 */
module QueryPartUtil {

  import opened Wrappers
  import opened Records
  import Constants

  /** `{selected, text, value}`, one choice of the view-column box. */
  datatype ViewOption = ViewOption(selected: bool, text: string, value: string)

  /** The view-column variable model, or the empty object `{}`; its
      `current` member is always the empty object and is not kept. */
  datatype ViewColData =
    | EmptyObject
    | ViewColData(options: seq<ViewOption>, tags: seq<string>, includeAll: bool, multi: bool)

  const AllOption := ViewOption(false, "All", "$__all")

  /** Whether a list is undefined or empty. */
  predicate Blank<T>(list: Option<seq<T>>) {
    list.None? || |list.value| == 0
  }

  /** `convertToWhereCondition`: `{text: name, value: name}` per column. */
  method ConvertToWhereCondition(columnList: Option<seq<Column>>) returns (r: seq<Selection>)
    ensures Blank(columnList) ==> r == []
    ensures !Blank(columnList) ==> |r| == |columnList.value|
    ensures !Blank(columnList) ==>
      forall i :: 0 <= i < |r| ==> r[i] == Selection(columnList.value[i].name, columnList.value[i].name)
  {
    if Blank(columnList) {
      return [];
    }
    var cols := columnList.value;
    r := [];
    var i := 0;
    while i < |cols|
      invariant 0 <= i <= |cols| && |r| == i
      invariant forall k :: 0 <= k < i ==> r[k] == Selection(cols[k].name, cols[k].name)
    {
      r := r + [Selection(cols[i].name, cols[i].name)];
      i := i + 1;
    }
  }

  /** `createDataForViewCol`: `All` first, then one unselected choice per
      column; the variable allows several values and `All`. */
  method CreateDataForViewCol(columnList: Option<seq<string>>) returns (r: ViewColData)
    ensures Blank(columnList) ==> r == EmptyObject
    ensures !Blank(columnList) ==>
      && r.ViewColData? && r.includeAll && r.multi && r.tags == []
      && |r.options| == |columnList.value| + 1 && r.options[0] == AllOption
      && forall i :: 0 <= i < |columnList.value| ==>
           r.options[i + 1] == ViewOption(false, columnList.value[i], columnList.value[i])
  {
    if Blank(columnList) {
      return EmptyObject;
    }
    var cols := columnList.value;
    var options: seq<ViewOption> := [];
    var i := 0;
    while i < |cols|
      invariant 0 <= i <= |cols| && |options| == i
      invariant forall k :: 0 <= k < i ==> options[k] == ViewOption(false, cols[k], cols[k])
    {
      options := options + [ViewOption(false, cols[i], cols[i])];
      i := i + 1;
    }
    options := [AllOption] + options;
    r := ViewColData(options, [], true, true);
  }

  /** The names of the numeric columns, in order. */
  function NumericColumnNames(cols: seq<Column>): (r: seq<string>)
    ensures |r| <= |cols|
    ensures forall i :: 0 <= i < |cols| && cols[i].colType in Constants.NUMBER_TYPES ==> cols[i].name in r
    ensures forall k :: 0 <= k < |r| ==> exists i :: 0 <= i < |cols| && cols[i].colType in Constants.NUMBER_TYPES && cols[i].name == r[k]
  {
    if cols == [] then []
    else
      var init := NumericColumnNames(cols[..|cols| - 1]);
      var last := cols[|cols| - 1];
      assert forall i :: 0 <= i < |cols| - 1 ==> cols[..|cols| - 1][i] == cols[i];
      init + if last.colType in Constants.NUMBER_TYPES then [last.name] else []
  }

  /** `getViewColListinTimeSeries`: the numeric columns' names, in order. */
  method GetViewColListInTimeSeries(columnList: Option<seq<Column>>) returns (r: seq<string>)
    ensures Blank(columnList) ==> r == []
    ensures !Blank(columnList) ==> r == NumericColumnNames(columnList.value)
  {
    if Blank(columnList) {
      return [];
    }
    var cols := columnList.value;
    r := [];
    var i := 0;
    while i < |cols|
      invariant 0 <= i <= |cols| && r == NumericColumnNames(cols[..i])
    {
      assert cols[..i + 1][..i] == cols[..i];
      var element := cols[i];
      if element.colType in Constants.NUMBER_TYPES {
        r := r + [element.name];
      }
      i := i + 1;
    }
    assert cols[..i] == cols;
  }

  /** `convertToSegmentFormat`: `{text, value, fake: false}` per name. */
  method ConvertToSegmentFormat(columnList: Option<seq<string>>) returns (r: seq<SegmentItem>)
    ensures Blank(columnList) ==> r == []
    ensures !Blank(columnList) ==> |r| == |columnList.value|
    ensures !Blank(columnList) ==>
      forall i :: 0 <= i < |r| ==> r[i] == SegmentItem(columnList.value[i], columnList.value[i], false)
  {
    if Blank(columnList) {
      return [];
    }
    var cols := columnList.value;
    r := [];
    var i := 0;
    while i < |cols|
      invariant 0 <= i <= |cols| && |r| == i
      invariant forall k :: 0 <= k < i ==> r[k] == SegmentItem(cols[k], cols[k], false)
    {
      r := r + [SegmentItem(cols[i], cols[i], false)];
      i := i + 1;
    }
  }

  /** `convertListContainerToObject`: `{text, value}` per container name. */
  method ConvertListContainerToObject(containerNameList: Option<seq<string>>) returns (r: seq<Selection>)
    ensures Blank(containerNameList) ==> r == []
    ensures !Blank(containerNameList) ==> |r| == |containerNameList.value|
    ensures !Blank(containerNameList) ==>
      forall i :: 0 <= i < |r| ==> r[i] == Selection(containerNameList.value[i], containerNameList.value[i])
  {
    if Blank(containerNameList) {
      return [];
    }
    var names := containerNameList.value;
    r := [];
    var i := 0;
    while i < |names|
      invariant 0 <= i <= |names| && |r| == i
      invariant forall k :: 0 <= k < i ==> r[k] == Selection(names[k], names[k])
    {
      r := r + [Selection(names[i], names[i])];
      i := i + 1;
    }
  }
}
