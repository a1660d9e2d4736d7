/**
 * The options of a dashboard variable built from a variable-query response
 * (src/datasource_process/res_formatter/variables_query_formatter.ts). The
 * values are collected as keys of an object, so each text appears once; the
 * order in which the object hands its keys back is left open.
 */
module VariablesQueryFormatter {

  import opened Wrappers
  import opened Strings
  import opened Js
  import opened Records
  import Constants

  /** `{text}`, one option of the variable. */
  datatype TextOption = TextOption(text: string)

  /** The first element of a DATA response; a field that is missing is
      `None`. */
  datatype DataResults = DataResults(columns: Option<seq<Column>>, results: Option<seq<Row>>)

  /** The three response shapes: the array a DATA query returns, the
      container list and the container schema. */
  datatype VariablesResponse =
    | DataResponse(items: seq<Option<DataResults>>)
    | ContainersResponse(names: Option<seq<string>>)
    | ColumnsResponse(columns: Option<seq<Column>>)

  /** The object `addUnique` writes to: each value under its own text. */
  type Unique = map<string, Cell>

  predicate KeyedByText(res: Unique) {
    forall k :: k in res ==> CellToString(res[k]) == k
  }

  function Texts(options: seq<TextOption>): (r: seq<string>)
    ensures |r| == |options|
    ensures forall i :: 0 <= i < |options| ==> r[i] == options[i].text
  {
    if options == [] then [] else [options[0].text] + Texts(options[1..])
  }

  /** `addUnique(object, value)`: `object[value] = value`. */
  function AddUnique(res: Unique, value: Cell): (r: Unique)
    requires KeyedByText(res)
    ensures KeyedByText(r)
    ensures r.Keys == res.Keys + {CellToString(value)}
  {
    res[CellToString(value) := value]
  }

  /** `_.map(res, (value) => ({ text: '' + value }))`: one option per key,
      in an order the model leaves open. */
  method OptionsOf(res: Unique) returns (options: seq<TextOption>)
    requires KeyedByText(res)
    ensures NoDuplicates(Texts(options))
    ensures forall i :: 0 <= i < |options| ==> options[i].text in res
    ensures forall k :: k in res ==> k in Texts(options)
  {
    options := [];
    var rest := res.Keys;
    while rest != {}
      invariant rest <= res.Keys
      invariant NoDuplicates(Texts(options))
      invariant forall i :: 0 <= i < |options| ==> options[i].text in res && options[i].text !in rest
      invariant forall k :: k in res && k !in rest ==> k in Texts(options)
      decreases |rest|
    {
      var key :| key in rest;
      var text := CellToString(res[key]);
      assert Texts(options + [TextOption(text)]) == Texts(options) + [text];
      options := options + [TextOption(text)];
      rest := rest - {key};
    }
  }

  /** What a list of values leaves in the object: their texts. */
  method CollectUnique(values: seq<Cell>) returns (res: Unique)
    ensures KeyedByText(res)
    ensures res.Keys == set i | 0 <= i < |values| :: CellToString(values[i])
  {
    res := map[];
    var i := 0;
    while i < |values|
      invariant 0 <= i <= |values| && KeyedByText(res)
      invariant res.Keys == set k | 0 <= k < i :: CellToString(values[k])
    {
      res := AddUnique(res, values[i]);
      assert (set k | 0 <= k < i + 1 :: CellToString(values[k]))
        == (set k | 0 <= k < i :: CellToString(values[k])) + {CellToString(values[i])};
      i := i + 1;
    }
  }

  /** The options are the distinct texts of the values, each once. */
  predicate OptionsFor(options: seq<TextOption>, values: seq<Cell>) {
    && NoDuplicates(Texts(options))
    && (forall i :: 0 <= i < |options| ==> exists k :: 0 <= k < |values| && options[i].text == CellToString(values[k]))
    && (forall k :: 0 <= k < |values| ==> CellToString(values[k]) in Texts(options))
  }

  method UniqueOptions(values: seq<Cell>) returns (options: seq<TextOption>)
    ensures OptionsFor(options, values)
  {
    var res := CollectUnique(values);
    options := OptionsOf(res);
    forall k | 0 <= k < |values| ensures CellToString(values[k]) in Texts(options) {
      assert CellToString(values[k]) in res.Keys;
    }
  }

  /** The first cell of each row. */
  function FirstCells(rows: seq<Row>): (r: seq<Cell>)
    ensures |r| == |rows| && forall j :: 0 <= j < |rows| ==> r[j] == At(rows[j], 0)
  {
    seq(|rows|, j requires 0 <= j < |rows| => At(rows[j], 0))
  }

  /** `getOptionsForDATAQuery`: nothing when the result, its columns or its
      rows are missing; otherwise the first cell of each row. */
  method GetOptionsForDataQuery(results: Option<DataResults>) returns (options: seq<TextOption>)
    ensures results.None? || results.value.columns.None? || results.value.results.None? ==> options == []
    ensures results.Some? && results.value.columns.Some? && results.value.results.Some? ==>
      OptionsFor(options, FirstCells(results.value.results.value))
  {
    if results.None? || results.value.columns.None? || results.value.results.None? {
      return [];
    }
    var rows := results.value.results.value;
    var values: seq<Cell> := [];
    var j := 0;
    while j < |rows|
      invariant 0 <= j <= |rows| && values == FirstCells(rows[..j])
    {
      values := values + [At(rows[j], 0)];
      j := j + 1;
    }
    assert rows[..j] == rows;
    options := UniqueOptions(values);
  }

  /** The names trimmed, as cells. */
  function TrimmedNames(names: seq<string>): (r: seq<Cell>)
    ensures |r| == |names| && forall i :: 0 <= i < |names| ==> r[i] == Str(Trim(names[i]))
  {
    seq(|names|, i requires 0 <= i < |names| => Str(Trim(names[i])))
  }

  /** `getOptionsForCONTAINERSQuery`: nothing when the names are missing or
      empty; otherwise each name trimmed. */
  method GetOptionsForContainersQuery(names: Option<seq<string>>) returns (options: seq<TextOption>)
    ensures names.None? || names.value == [] ==> options == []
    ensures names.Some? ==> OptionsFor(options, TrimmedNames(names.value))
  {
    if names.None? || |names.value| == 0 {
      return [];
    }
    options := UniqueOptions(TrimmedNames(names.value));
  }

  /** `getOptionsForCOLUMNSQuery`: nothing when the columns are missing or
      empty; otherwise each column name trimmed. */
  method GetOptionsForColumnsQuery(columns: Option<seq<Column>>) returns (options: seq<TextOption>)
    ensures columns.None? || columns.value == [] ==> options == []
    ensures columns.Some? ==> OptionsFor(options, TrimmedNames(ColumnNames(columns.value)))
  {
    if columns.None? || |columns.value| == 0 {
      return [];
    }
    options := UniqueOptions(TrimmedNames(ColumnNames(columns.value)));
  }

  /** `format(queryType, response)`: dispatch on the query type; a type it
      does not know, or a response of another shape, gives no options. */
  method Format(queryType: string, response: VariablesResponse) returns (options: seq<TextOption>)
    ensures !(queryType in [Constants.GET_DATA, Constants.GET_ALL_CONTAINERS, Constants.GET_ALL_COLUMNS]) ==>
      options == []
    ensures queryType == Constants.GET_DATA ==>
      if response.DataResponse? && response.items != [] && response.items[0].Some?
        && response.items[0].value.columns.Some? && response.items[0].value.results.Some?
      then OptionsFor(options, FirstCells(response.items[0].value.results.value))
      else options == []
    ensures queryType == Constants.GET_ALL_CONTAINERS ==>
      if response.ContainersResponse? && response.names.Some?
      then OptionsFor(options, TrimmedNames(response.names.value))
      else options == []
    ensures queryType == Constants.GET_ALL_COLUMNS ==>
      if response.ColumnsResponse? && response.columns.Some?
      then OptionsFor(options, TrimmedNames(ColumnNames(response.columns.value)))
      else options == []
  {
    if queryType == Constants.GET_DATA {
      var results := if response.DataResponse? && response.items != [] then response.items[0] else None;
      options := GetOptionsForDataQuery(results);
    } else if queryType == Constants.GET_ALL_CONTAINERS {
      var names := if response.ContainersResponse? then response.names else None;
      options := GetOptionsForContainersQuery(names);
    } else if queryType == Constants.GET_ALL_COLUMNS {
      var columns := if response.ColumnsResponse? then response.columns else None;
      options := GetOptionsForColumnsQuery(columns);
    } else {
      options := [];
    }
  }
}
