/**
 * Reshaping of TQL responses for Grafana
 * (src/datasource_process/res_formatter/data_query_formatter.ts): the time
 * column is moved to the last position, then every response with rows
 * becomes time series (one per non-time column) or one table.
 */
module DataQueryFormatter {

  import opened Wrappers
  import opened Strings
  import opened Js
  import opened Records
  import Constants

  /** What the request assembly records for each target. */
  datatype FormatInfo = FormatInfo(raw: bool, dataFormat: string, alias: Option<string>, timeColumn: string)

  /** One point of a series: the cell and the time of its row. */
  datatype Datapoint = Datapoint(value: Cell, time: Number)

  /** `{target, datapoints}` or `{columns, rows, type: 'table'}`. */
  datatype Formatted =
    | TimeSeries(target: string, datapoints: seq<Datapoint>)
    | Table(columns: seq<string>, rows: seq<Row>)

  const UnknownRefineFormatMessage := "Cannot detect format of data"
  const UnknownFormatMessage := "System not support this format"
  const NotEnoughDataMessage := "Not enough data to draw Graph"
  /** What the engine throws when a property of `undefined` is read (the
      exact text is the engine's). */
  const UndefinedValueMessage := "TypeError: value is undefined"
  const TimestampType := "TIMESTAMP"
  const ContainerMarker := "$__container"
  const ColumnMarker := "$__col"

  // ---------------------------------------------------------------------
  // getGraphLineName

  /** The name of a graph line or a table header. */
  function LineName(column: string, container: string, alias: Option<string>): string {
    if TruthyText(alias) then
      var a := alias.value;
      var a1 := if Contains(a, ContainerMarker) then ReplaceAll(a, ContainerMarker, container) else a;
      if a1 != "" && Contains(a1, ColumnMarker) then ReplaceAll(a1, ColumnMarker, column) else a1
    else container + "." + column
  }

  /** Without an alias the name is `container.column`. */
  lemma NoAliasName(column: string, container: string, alias: Option<string>)
    requires !TruthyText(alias)
    ensures LineName(column, container, alias) == container + "." + column
  {
  }

  /** With an alias, every `$__container` is replaced, then every `$__col`:
      the guards before each replacement change nothing. */
  lemma {:induction false} AliasName(column: string, container: string, alias: string)
    requires alias != ""
    ensures LineName(column, container, Some(alias)) ==
      ReplaceAll(ReplaceAll(alias, ContainerMarker, container), ColumnMarker, column)
  {
    var c, k := ContainerMarker, ColumnMarker;
    if !Contains(alias, c) {
      ReplaceAllAbsent(alias, c, container);
    }
    var a1 := ReplaceAll(alias, c, container);
    if a1 == "" {
      assert !OccursAt(a1, k, 0);
      ReplaceAllAbsent(a1, k, column);
    } else if !Contains(a1, k) {
      ReplaceAllAbsent(a1, k, column);
    }
  }

  /** An alias without either marker names every line. */
  lemma PlainAlias(column: string, container: string, alias: string)
    requires alias != "" && !Contains(alias, ContainerMarker) && !Contains(alias, ColumnMarker)
    ensures LineName(column, container, Some(alias)) == alias
  {
  }

  // ---------------------------------------------------------------------
  // swap and swapObj

  /** `swapObj(array, fromIndex, toIndex)`: take the element at `fromIndex`
      out (`missing` when there is none) and put it over position `toIndex`,
      whose element it replaces when there is one. */
  function SwapObj<T>(xs: seq<T>, fromIndex: int, toIndex: nat, missing: T): seq<T> {
    if fromIndex > -1 then
      var rest := if fromIndex < |xs| then xs[..fromIndex] + xs[fromIndex + 1..] else xs;
      var tmp := if fromIndex < |xs| then xs[fromIndex] else missing;
      if toIndex <= |rest| then
        if toIndex < |rest| then rest[..toIndex] + [tmp] + rest[toIndex + 1..] else rest + [tmp]
      else rest + [tmp]
    else xs
  }

  /** With `toIndex` the length, the element goes last and the others keep
      their order. */
  lemma MovedLast<T>(xs: seq<T>, i: nat, missing: T)
    requires i < |xs|
    ensures SwapObj(xs, i, |xs|, missing) == xs[..i] + xs[i + 1..] + [xs[i]]
  {
  }

  function IndexOfName(cols: seq<Column>, name: string): (r: int)
    ensures r == -1 || 0 <= r < |cols|
    ensures r == -1 <==> forall i :: 0 <= i < |cols| ==> cols[i].name != name
    ensures r >= 0 ==> cols[r].name == name && forall i :: 0 <= i < r ==> cols[i].name != name
  {
    if cols == [] then -1
    else if cols[0].name == name then 0
    else
      var k := IndexOfName(cols[1..], name);
      if k == -1 then -1 else k + 1
  }

  /** `swap(timeCol, response)`. */
  function Swap(timeCol: string, response: QueryResult): QueryResult {
    var n := |response.columns|;
    var from := IndexOfName(response.columns, timeCol);
    QueryResult(
      SwapObj(response.columns, from, n, Column("", "")),
      seq(|response.results|, j requires 0 <= j < |response.results| =>
        SwapObj(response.results[j], from, n, Undefined)))
  }

  /** An absent name leaves the response as it was. */
  lemma SwapAbsent(timeCol: string, response: QueryResult)
    requires forall i :: 0 <= i < |response.columns| ==> response.columns[i].name != timeCol
    ensures Swap(timeCol, response) == response
  {
  }

  /** The first column with the name moves to the end of the columns and of
      every row as wide as the columns; the others keep their order. */
  lemma SwapMovesLast(timeCol: string, response: QueryResult, i: nat)
    requires i < |response.columns| && response.columns[i].name == timeCol
    requires forall k :: 0 <= k < i ==> response.columns[k].name != timeCol
    ensures var cs := response.columns;
            Swap(timeCol, response).columns == cs[..i] + cs[i + 1..] + [cs[i]]
    ensures forall j :: 0 <= j < |response.results| && |response.results[j]| == |response.columns| ==>
              var row := response.results[j];
              Swap(timeCol, response).results[j] == row[..i] + row[i + 1..] + [row[i]]
    ensures |Swap(timeCol, response).results| == |response.results|
  {
    assert IndexOfName(response.columns, timeCol) == i;
  }

  // ---------------------------------------------------------------------
  // refine

  /** The time column of a response: the single TIMESTAMP column in raw
      time-series mode (else ''), the recorded one otherwise. */
  function TimeColumnOf(f: FormatInfo, cols: seq<Column>): string {
    if f.raw then
      var stamps := TimestampColumns(cols);
      if |stamps| == 1 then stamps[0].name else ""
    else f.timeColumn
  }

  function TimestampColumns(cols: seq<Column>): (r: seq<Column>)
    ensures forall c :: c in r ==> c in cols && c.colType == TimestampType
    ensures forall c :: c in cols && c.colType == TimestampType ==> c in r
  {
    if cols == [] then []
    else (if cols[0].colType == TimestampType then [cols[0]] else []) + TimestampColumns(cols[1..])
  }

  /** What `refine` makes of one response. */
  function RefineOne(f: FormatInfo, response: QueryResult): (r: Result<QueryResult>)
    ensures f.dataFormat == Constants.FORMAT_TABLE ==> r == Success(response)
    ensures f.dataFormat != Constants.FORMAT_TABLE && f.dataFormat != Constants.FORMAT_TIME_SERIES ==>
      r == Failure(UnknownRefineFormatMessage)
  {
    if f.dataFormat == Constants.FORMAT_TIME_SERIES then
      Success(Swap(TimeColumnOf(f, response.columns), response))
    else if f.dataFormat == Constants.FORMAT_TABLE then Success(response)
    else Failure(UnknownRefineFormatMessage)
  }

  /** Whether the `i`-th format refines its response without throwing. */
  predicate RefinesAt(formats: seq<FormatInfo>, response: seq<QueryResult>, i: nat)
    requires i < |formats|
  {
    i < |response| && RefineOne(formats[i], response[i]).Success?
  }

  /** The `i`-th format is the first that throws. */
  predicate FirstRefineFailure(formats: seq<FormatInfo>, response: seq<QueryResult>, i: nat)
    requires i < |formats|
  {
    (forall k :: 0 <= k < i ==> RefinesAt(formats, response, k)) && !RefinesAt(formats, response, i)
  }

  function RefineError(formats: seq<FormatInfo>, response: seq<QueryResult>, i: nat): string
    requires i < |formats|
  {
    if i >= |response| then UndefinedValueMessage
    else match RefineOne(formats[i], response[i])
      case Failure(e) => e
      case Success(_) => ""
  }

  /** `refine(formats, response)`: every response that has a format is
      refined in place; the first one that cannot be throws. */
  method Refine(formats: seq<FormatInfo>, response: seq<QueryResult>) returns (r: Result<seq<QueryResult>>)
    ensures r.Success? <==> forall i :: 0 <= i < |formats| ==> RefinesAt(formats, response, i)
    ensures r.Success? ==> |r.value| == |response| && forall i :: 0 <= i < |formats| ==>
      RefinesAt(formats, response, i) && r.value[i] == RefineOne(formats[i], response[i]).value
    ensures r.Success? ==> forall i :: |formats| <= i < |response| ==> r.value[i] == response[i]
    ensures r.Failure? ==>
      exists i :: 0 <= i < |formats| && FirstRefineFailure(formats, response, i) && r.error == RefineError(formats, response, i)
  {
    var refined := response;
    var i := 0;
    while i < |formats|
      invariant 0 <= i <= |formats|
      invariant |refined| == |response|
      invariant forall k :: 0 <= k < i ==>
        RefinesAt(formats, response, k) && refined[k] == RefineOne(formats[k], response[k]).value
      invariant forall k :: i <= k < |response| ==> refined[k] == response[k]
    {
      if i >= |refined| {
        assert FirstRefineFailure(formats, response, i);
        return Failure(UndefinedValueMessage);
      }
      var f := formats[i];
      if f.dataFormat == Constants.FORMAT_TIME_SERIES {
        var timeCol := TimeColumnOf(f, refined[i].columns);
        refined := refined[i := Swap(timeCol, refined[i])];
      } else if f.dataFormat == Constants.FORMAT_TABLE {
      } else {
        assert FirstRefineFailure(formats, response, i);
        return Failure(UnknownRefineFormatMessage);
      }
      i := i + 1;
    }
    return Success(refined);
  }

  // ---------------------------------------------------------------------
  // convertToTimeSeriesData and convertToTableData

  /** The series of a time-series response: one per column but the last,
      with one point per row pairing the cell with the time in the last
      column. */
  function TimeSeriesData(columns: seq<Column>, container: string, rows: seq<Row>,
                          alias: Option<string>, toEpoch: Cell -> Number): (r: Result<seq<Formatted>>)
  {
    if |columns| < 2 then Failure(NotEnoughDataMessage)
    else if rows == [] then Failure(UndefinedValueMessage)
    else if |rows[0]| < 2 then Failure(NotEnoughDataMessage)
    else Success(seq(|columns| - 1, i requires 0 <= i < |columns| - 1 =>
      TimeSeries(LineName(columns[i].name, container, alias),
        seq(|rows|, j requires 0 <= j < |rows| =>
          Datapoint(At(rows[j], i), toEpoch(At(rows[j], |columns| - 1)))))))
  }

  /** `convertToTimeSeriesData`. */
  method ConvertToTimeSeriesData(columns: seq<Column>, container: string, rows: seq<Row>,
                                 alias: Option<string>, toEpoch: Cell -> Number)
    returns (r: Result<seq<Formatted>>)
    ensures r == TimeSeriesData(columns, container, rows, alias, toEpoch)
  {
    if |columns| < 2 {
      return Failure(NotEnoughDataMessage);
    }
    if rows == [] {
      return Failure(UndefinedValueMessage);
    }
    if |rows[0]| < 2 {
      return Failure(NotEnoughDataMessage);
    }
    var last := |columns| - 1;
    var result: seq<Formatted> := [];
    var index := 0;
    while index < |columns|
      invariant 0 <= index <= |columns|
      invariant |result| == if index < last then index else last
      invariant forall i :: 0 <= i < |result| ==>
        result[i] == TimeSeries(LineName(columns[i].name, container, alias),
          seq(|rows|, j requires 0 <= j < |rows| => Datapoint(At(rows[j], i), toEpoch(At(rows[j], last)))))
    {
      if index != last {
        var datapoints: seq<Datapoint> := [];
        var j := 0;
        while j < |rows|
          invariant 0 <= j <= |rows| && |datapoints| == j
          invariant forall k :: 0 <= k < j ==> datapoints[k] == Datapoint(At(rows[k], index), toEpoch(At(rows[k], last)))
        {
          var temp := rows[j];
          var time := toEpoch(At(temp, last));
          datapoints := datapoints + [Datapoint(At(temp, index), time)];
          j := j + 1;
        }
        result := result + [TimeSeries(LineName(columns[index].name, container, alias), datapoints)];
      }
      index := index + 1;
    }
    assert result == TimeSeriesData(columns, container, rows, alias, toEpoch).value;
    return Success(result);
  }

  /** Time-series output: one series per non-time column, each with one
      point per row holding that row's cell and time. */
  lemma SeriesShape(columns: seq<Column>, container: string, rows: seq<Row>,
                    alias: Option<string>, toEpoch: Cell -> Number)
    requires |columns| >= 2 && rows != [] && |rows[0]| >= 2
    ensures var r := TimeSeriesData(columns, container, rows, alias, toEpoch);
            && r.Success? && |r.value| == |columns| - 1
            && (forall i :: 0 <= i < |r.value| ==>
                  r.value[i].TimeSeries? && |r.value[i].datapoints| == |rows|
                  && r.value[i].target == LineName(columns[i].name, container, alias)
                  && (forall j :: 0 <= j < |rows| ==>
                        r.value[i].datapoints[j].value == At(rows[j], i)
                        && r.value[i].datapoints[j].time == toEpoch(At(rows[j], |columns| - 1))))
  {
  }

  /** `row.splice(0, n)`: the first `n` cells, or the whole row. */
  function FirstCells(row: Row, n: nat): (r: Row)
    ensures |r| == if |row| < n then |row| else n
    ensures r == row[..|r|]
  {
    if |row| < n then row else row[..n]
  }

  /** The table of a table response. */
  function TableData(columns: seq<Column>, container: string, rows: seq<Row>, alias: Option<string>): Formatted {
    Table(
      seq(|columns|, i requires 0 <= i < |columns| => LineName(columns[i].name, container, alias)),
      seq(|rows|, j requires 0 <= j < |rows| => FirstCells(rows[j], |columns|)))
  }

  /** `convertToTableData`. */
  method ConvertToTableData(columns: seq<Column>, container: string, rows: seq<Row>, alias: Option<string>)
    returns (r: Formatted)
    ensures r == TableData(columns, container, rows, alias)
    ensures |r.columns| == |columns| && |r.rows| == |rows|
    ensures forall j :: 0 <= j < |rows| ==> |r.rows[j]| <= |columns| && r.rows[j] == rows[j][..|r.rows[j]|]
  {
    var headers: seq<string> := [];
    var i := 0;
    while i < |columns|
      invariant 0 <= i <= |columns| && |headers| == i
      invariant forall k :: 0 <= k < i ==> headers[k] == LineName(columns[k].name, container, alias)
    {
      headers := headers + [LineName(columns[i].name, container, alias)];
      i := i + 1;
    }
    var cut: seq<Row> := [];
    var j := 0;
    while j < |rows|
      invariant 0 <= j <= |rows| && |cut| == j
      invariant forall k :: 0 <= k < j ==> cut[k] == FirstCells(rows[k], |columns|)
    {
      cut := cut + [FirstCells(rows[j], |columns|)];
      j := j + 1;
    }
    r := Table(headers, cut);
  }

  // ---------------------------------------------------------------------
  // format

  /** What `format` adds for the `i`-th response. */
  function FormatOne(container: string, response: QueryResult, f: FormatInfo, toEpoch: Cell -> Number): Result<seq<Formatted>> {
    if response.results == [] then Success([])
    else if f.dataFormat == Constants.FORMAT_TIME_SERIES then
      TimeSeriesData(response.columns, container, response.results, f.alias, toEpoch)
    else if f.dataFormat == Constants.FORMAT_TABLE then
      Success([TableData(response.columns, container, response.results, f.alias)])
    else Failure(UnknownFormatMessage)
  }

  /** The container name of the `i`-th request; past the end `'' + undefined`. */
  function ContainerAt(requests: seq<string>, i: nat): string {
    if i < |requests| then requests[i] else "undefined"
  }

  /** The output of `format` after the first `n` responses. */
  function FormatPrefix(requests: seq<string>, response: seq<QueryResult>, formats: seq<FormatInfo>,
                        toEpoch: Cell -> Number, n: nat): Result<seq<Formatted>>
    requires n <= |response|
  {
    if n == 0 then Success([])
    else
      match FormatPrefix(requests, response, formats, toEpoch, n - 1)
      case Failure(e) => Failure(e)
      case Success(acc) =>
        if n - 1 >= |formats| then Failure(UndefinedValueMessage)
        else
          match FormatOne(ContainerAt(requests, n - 1), response[n - 1], formats[n - 1], toEpoch)
          case Failure(e) => Failure(e)
          case Success(more) => Success(acc + more)
  }

  /** `format(requests, response, format)`; `requests` holds the container
      name of each request. */
  method Format(requests: seq<string>, response: seq<QueryResult>, formats: seq<FormatInfo>,
                toEpoch: Cell -> Number) returns (r: Result<seq<Formatted>>)
    ensures r == FormatPrefix(requests, response, formats, toEpoch, |response|)
  {
    var result: seq<Formatted> := [];
    var index := 0;
    while index < |response|
      invariant 0 <= index <= |response|
      invariant FormatPrefix(requests, response, formats, toEpoch, index) == Success(result)
    {
      if index >= |formats| {
        FailureSticks(requests, response, formats, toEpoch, index + 1);
        return Failure(UndefinedValueMessage);
      }
      var element := response[index];
      var container := ContainerAt(requests, index);
      var f := formats[index];
      if element.results != [] {
        if f.dataFormat == Constants.FORMAT_TIME_SERIES {
          var series := ConvertToTimeSeriesData(element.columns, container, element.results, f.alias, toEpoch);
          if series.Failure? {
            FailureSticks(requests, response, formats, toEpoch, index + 1);
            return Failure(series.error);
          }
          result := result + series.value;
        } else if f.dataFormat == Constants.FORMAT_TABLE {
          var table := ConvertToTableData(element.columns, container, element.results, f.alias);
          result := result + [table];
        } else {
          FailureSticks(requests, response, formats, toEpoch, index + 1);
          return Failure(UnknownFormatMessage);
        }
      } else {
        assert result + [] == result;
      }
      index := index + 1;
    }
    return Success(result);
  }

  /** A thrown error ends `format`. */
  lemma {:induction false} FailureSticks(requests: seq<string>, response: seq<QueryResult>, formats: seq<FormatInfo>,
                                        toEpoch: Cell -> Number, n: nat)
    requires n <= |response| && FormatPrefix(requests, response, formats, toEpoch, n).Failure?
    ensures FormatPrefix(requests, response, formats, toEpoch, |response|) ==
      FormatPrefix(requests, response, formats, toEpoch, n)
    decreases |response| - n
  {
    if n < |response| {
      FailureSticks(requests, response, formats, toEpoch, n + 1);
    }
  }

  /** Responses without rows add nothing, whatever their format. */
  lemma {:induction false} RowlessAddNothing(requests: seq<string>, response: seq<QueryResult>,
                                            formats: seq<FormatInfo>, toEpoch: Cell -> Number, n: nat)
    requires n <= |response| <= |formats|
    requires forall i :: 0 <= i < n ==> response[i].results == []
    ensures FormatPrefix(requests, response, formats, toEpoch, n) == Success([])
  {
    if n > 0 {
      RowlessAddNothing(requests, response, formats, toEpoch, n - 1);
      assert FormatOne(ContainerAt(requests, n - 1), response[n - 1], formats[n - 1], toEpoch) == Success([]);
      var none: seq<Formatted> := [];
      assert none + none == none;
    }
  }

  /** A response with rows and a format other than time series or table
      throws. */
  lemma UnknownFormatThrows(requests: seq<string>, response: seq<QueryResult>,
                            formats: seq<FormatInfo>, toEpoch: Cell -> Number, i: nat)
    requires i < |response| && i < |formats| && response[i].results != []
    requires formats[i].dataFormat != Constants.FORMAT_TIME_SERIES && formats[i].dataFormat != Constants.FORMAT_TABLE
    ensures FormatPrefix(requests, response, formats, toEpoch, |response|).Failure?
  {
    FailureSticks(requests, response, formats, toEpoch, i + 1);
  }
}
