/**
 * The parser of a template variable's query (src/datasource_process/
 * variables_query_parser.ts). Three forms are understood:
 *   `$griddb_container_list`
 *   `$griddb_column_list(container)`
 *   `$griddb_query_data(container, col1+col2+..., TQL)`
 * The parser object keeps the query text and trims it in place when the
 * form is detected.
 */
module VariablesQueryParser {

  import opened Wrappers
  import opened Strings
  import Constants

  const ContainerListQuery := "$griddb_container_list"
  const ColumnListHead := "$griddb_column_list("
  const QueryDataHead := "$griddb_query_data("

  const WrongFormatMessage := "Query is wrong format. Please choose one of three formats below:"
    + "\n1. $griddb_container_list. "
    + "\n2. $griddb_column_list({container name})"
    + "\n3. $griddb_query_data({container name}, {columns}, {TQL})"
  const EmptyContainerMessage := "Container name must be not empty or null"
  const EmptyTqlMessage := "TQL statement must be not empty or null"
  const EmptyColumnMessage := "Column name must be not empty or null"

  /** The object `parse` returns, tagged by the query type. */
  datatype VariableQuery =
    | Containers
    | Columns(container: string)
    | Data(container: string, columns: seq<string>, tql: string)

  /** The type tag of a parsed query. */
  function TypeOf(v: VariableQuery): string {
    match v
    case Containers => Constants.GET_ALL_CONTAINERS
    case Columns(_) => Constants.GET_ALL_COLUMNS
    case Data(_, _, _) => Constants.GET_DATA
  }

  /** `/^\$griddb_column_list\((\w+)\)$/`. */
  predicate IsColumnsQuery(q: string) {
    var group := Enclosed(q, ColumnListHead);
    group.Some? && group.value != [] && AllWordChars(group.value)
  }

  /** The capture group of the column-list form. */
  function ColumnsGroup(q: string): string
    requires IsColumnsQuery(q)
  {
    Enclosed(q, ColumnListHead).value
  }

  /** `[^,+]+(?:\+[^,+]+)*`: one or more non-empty pieces joined by `+`,
      without a comma. */
  predicate IsPlusList(s: string) {
    && (forall i :: 0 <= i < |s| ==> s[i] != ',')
    && (forall k :: 0 <= k < |Split(s, "+")| ==> Split(s, "+")[k] != [])
  }

  predicate NoLineTerminator(s: string) {
    forall i :: 0 <= i < |s| ==> !IsLineTerminator(s[i])
  }

  /** The three capture groups of the query-data form. */
  datatype DataGroups = DataGroups(container: string, columns: string, tql: string)

  /** The three groups inside `$griddb_query_data(...)`: the container runs
      to the first comma, the columns to the second, and the TQL (where `.`
      admits no line terminator) to the end. */
  function DataGroupsOf(body: string): (r: Option<DataGroups>)
    ensures r.Some? ==> r.value.container != [] && r.value.columns != []
    ensures r.Some? ==> (forall i :: 0 <= i < |r.value.container| ==> r.value.container[i] != ',')
    ensures r.Some? ==> IsPlusList(r.value.columns) && NoLineTerminator(r.value.tql)
    ensures r.Some? ==> body == r.value.container + "," + r.value.columns + "," + r.value.tql
  {
    match IndexOfFrom(body, ",", 0)
    case None => None
    case Some(i1) =>
      if i1 == 0 then None
      else
        match IndexOfFrom(body, ",", i1 + 1)
        case None => None
        case Some(i2) =>
          var columns := body[i1 + 1..i2];
          var tql := body[i2 + 1..];
          if IsPlusList(columns) && NoLineTerminator(tql) then
            assert columns == [] ==> Split(columns, "+")[0] == [];
            NoCommaBefore(body, i1);
            assert body == body[..i1] + "," + columns + "," + tql;
            Some(DataGroups(body[..i1], columns, tql))
          else None
  }

  /** The text between `head` and a final `)`, when `q` has that shape. */
  function Enclosed(q: string, head: string): (r: Option<string>)
    ensures r.Some? ==> q == head + r.value + ")"
    ensures forall b :: q == head + b + ")" ==> r == Some(b)
  {
    if |q| < |head| + 1 || q[..|head|] != head || q[|q| - 1] != ')' then None
    else
      var body := q[|head|..|q| - 1];
      assert q == q[..|head|] + body + [q[|q| - 1]];
      assert forall b :: q == head + b + ")" ==> b == body;
      Some(body)
  }

  /** `/^\$griddb_query_data\(([^,]+),([^,+]+(?:\+[^,+]+)*),(.*)\)$/`. */
  function DataMatch(q: string): (r: Option<DataGroups>)
    ensures r.Some? ==>
      q == QueryDataHead + r.value.container + "," + r.value.columns + "," + r.value.tql + ")"
  {
    match Enclosed(q, QueryDataHead)
    case None => None
    case Some(body) => DataGroupsOf(body)
  }

  /** The characters before the first comma are not commas. */
  lemma NoCommaBefore(s: string, n: nat)
    requires n <= |s| && forall k: nat :: k < n ==> !OccursAt(s, ",", k)
    ensures forall k :: 0 <= k < n ==> s[..n][k] != ','
  {
    forall k | 0 <= k < n ensures s[..n][k] != ',' {
      assert !OccursAt(s, ",", k);
      assert s[k..k + 1] == [s[k]];
    }
  }

  /** `detectQueryType` on a query that has already been trimmed: each of
      the three forms has its type, and text of none of them is rejected. */
  function QueryType(q: string): (r: Result<string>)
    ensures r.Failure? <==> q != ContainerListQuery && !IsColumnsQuery(q) && DataMatch(q).None?
    ensures r.Failure? ==> r.error == WrongFormatMessage
    ensures q == ContainerListQuery ==> r == Success(Constants.GET_ALL_CONTAINERS)
    ensures IsColumnsQuery(q) ==> r == Success(Constants.GET_ALL_COLUMNS)
    ensures DataMatch(q).Some? ==> r == Success(Constants.GET_DATA)
  {
    FormsExclusive(q);
    if q == ContainerListQuery then Success(Constants.GET_ALL_CONTAINERS)
    else if IsColumnsQuery(q) then Success(Constants.GET_ALL_COLUMNS)
    else if DataMatch(q).Some? then Success(Constants.GET_DATA)
    else Failure(WrongFormatMessage)
  }

  /** `columns.map(column => column.trim())`. */
  function TrimAll(xs: seq<string>): (r: seq<string>)
    ensures |r| == |xs| && forall k :: 0 <= k < |xs| ==> r[k] == Trim(xs[k])
  {
    seq(|xs|, k requires 0 <= k < |xs| => Trim(xs[k]))
  }

  /** What `getColumns` promises of a list it returns for the text `s`:
      every `+`-separated piece, trimmed, appears exactly once, the pieces
      keep the order of their first occurrence, and none is empty. Here
      `pieces` are the trimmed pieces. */
  predicate ColumnsOf(pieces: seq<string>, columns: seq<string>) {
    && columns != []
    && NoDuplicates(columns)
    && (forall i :: 0 <= i < |columns| ==> columns[i] in pieces && columns[i] != [])
    && (forall k :: 0 <= k < |pieces| ==> pieces[k] in columns)
    && (forall i, j :: 0 <= i < j < |columns| ==>
          IndexOf(pieces, columns[i]).value < IndexOf(pieces, columns[j]).value)
  }

  /** Some piece is empty once trimmed. */
  predicate HasEmptyPiece(pieces: seq<string>) {
    exists k :: 0 <= k < |pieces| && Trim(pieces[k]) == []
  }

  /** `getColumns`: `None` stands for the `null` an empty text yields. */
  function GetColumns(s: string): (r: Result<Option<seq<string>>>)
    ensures r == Success(None) <==> s == []
    ensures r.Failure? <==> s != [] && HasEmptyPiece(Split(s, "+"))
    ensures r.Failure? ==> r.error == EmptyColumnMessage
    ensures r.Success? && r.value.Some? ==> ColumnsOf(TrimAll(Split(s, "+")), r.value.value)
  {
    if s == [] then Success(None)
    else
      var pieces := Split(s, "+");
      if HasEmptyPiece(pieces) then Failure(EmptyColumnMessage)
      else
        var columns := TrimAll(pieces);
        DistinctColumns(columns);
        Success(Some(Distinct(columns)))
  }

  lemma DistinctColumns(columns: seq<string>)
    requires columns != [] && forall k :: 0 <= k < |columns| ==> columns[k] != []
    ensures ColumnsOf(columns, Distinct(columns))
  {
    var d := Distinct(columns);
    assert columns[0] in d;
  }

  /** The three forms exclude one another: the container list and the
      column list both spell `$griddb_c` where the query-data form spells
      `$griddb_q`. */
  lemma FormsExclusive(q: string)
    ensures q == ContainerListQuery ==> !IsColumnsQuery(q) && DataMatch(q).None?
    ensures IsColumnsQuery(q) ==> DataMatch(q).None?
  {
    HeadLetters();
    if IsColumnsQuery(q) {
      EnclosedShape(q, ColumnListHead);
    }
    if DataMatch(q).Some? {
      EnclosedShape(q, QueryDataHead);
    }
  }

  /** The letter after `$griddb_` in each form, and the last letter of the
      container-list form. */
  lemma HeadLetters()
    ensures |ColumnListHead| > 8 && ColumnListHead[8] == 'c'
    ensures |QueryDataHead| > 8 && QueryDataHead[8] == 'q'
    ensures |ContainerListQuery| > 8 && ContainerListQuery[8] == 'c'
    ensures ContainerListQuery[|ContainerListQuery| - 1] == 't'
  {
  }

  /** A text of the enclosed shape starts with the head and ends with `)`. */
  lemma EnclosedShape(q: string, head: string)
    requires Enclosed(q, head).Some?
    ensures |q| > |head| && q[..|head|] == head && q[|q| - 1] == ')'
    ensures forall i :: 0 <= i < |head| ==> q[i] == head[i]
  {
    assert forall i :: 0 <= i < |head| ==> q[..|head|][i] == q[i];
  }

  /** A run of word characters has no white space to trim. */
  lemma WordsAreTrimmed(w: string)
    requires w != [] && AllWordChars(w)
    ensures Trim(w) == w
  {
    WordCharNotSpace(w[0]);
    WordCharNotSpace(w[|w| - 1]);
  }

  lemma WordCharNotSpace(c: char)
    requires IsWordChar(c)
    ensures !IsSpace(c)
  {
  }

  /** `parse` on a query that has already been trimmed: the type decides the
      extraction; the query-data form checks its TQL first, then its
      container, then its columns. */
  function ParseTrimmed(q: string): (r: Result<VariableQuery>)
    ensures r == Success(Containers) <==> q == ContainerListQuery
    ensures r == Failure(WrongFormatMessage) <==> QueryType(q).Failure?
    ensures r.Success? ==> QueryType(q) == Success(TypeOf(r.value))
    ensures IsColumnsQuery(q) ==> r == Success(Columns(ColumnsGroup(q)))
    ensures r.Success? && r.value.Data? ==>
      && DataMatch(q).Some?
      && r.value.container == Trim(DataMatch(q).value.container) != []
      && r.value.tql == Trim(DataMatch(q).value.tql) != []
      && ColumnsOf(TrimAll(Split(Trim(DataMatch(q).value.columns), "+")), r.value.columns)
  {
    FormsExclusive(q);
    if q == ContainerListQuery then Success(Containers)
    else if IsColumnsQuery(q) then
      WordsAreTrimmed(ColumnsGroup(q));
      var container := Trim(ColumnsGroup(q));
      if container == [] then Failure(EmptyContainerMessage)
      else Success(Columns(container))
    else
      match DataMatch(q)
      case None => Failure(WrongFormatMessage)
      case Some(g) =>
        var tql := Trim(g.tql);
        var container := Trim(g.container);
        if tql == [] then Failure(EmptyTqlMessage)
        else if container == [] then Failure(EmptyContainerMessage)
        else
          match GetColumns(Trim(g.columns))
          case Failure(e) => Failure(e)
          case Success(None) => Failure(EmptyColumnMessage)
          case Success(Some(columns)) =>
            if columns == [] then Failure(EmptyColumnMessage)
            else Success(Data(container, columns, tql))
  }

  /** `parse` on the query the parser was built with. */
  function ParseQuery(query: string): Result<VariableQuery> {
    ParseTrimmed(Trim(query))
  }

  /** `$griddb_column_list(w)`, with `w` one or more word characters and
      any white space around the whole text, names the container `w`. */
  lemma ColumnListForm(pre: string, w: string, post: string)
    requires w != [] && AllWordChars(w)
    requires AllSpace(pre) && AllSpace(post)
    ensures ParseQuery(pre + (ColumnListHead + w + ")") + post) == Success(Columns(w))
  {
    var q := ColumnListHead + w + ")";
    assert q[0] == '$';
    TrimPadded(pre, q, post);
    assert Enclosed(q, ColumnListHead) == Some(w);
  }

  /** The container of the query-data form is the text before the first
      comma and the columns run to the second; the TQL is everything up to
      the final `)`, commas included. */
  lemma DataForm(container: string, columns: string, tql: string)
    requires container != [] && forall i :: 0 <= i < |container| ==> container[i] != ','
    requires IsPlusList(columns) && NoLineTerminator(tql)
    ensures DataMatch(QueryDataHead + container + "," + columns + "," + tql + ")")
      == Some(DataGroups(container, columns, tql))
  {
    var body := container + "," + columns + "," + tql;
    var q := QueryDataHead + container + "," + columns + "," + tql + ")";
    assert q == QueryDataHead + body + ")";
    DataGroupsForm(container, columns, tql);
  }

  lemma DataGroupsForm(container: string, columns: string, tql: string)
    requires container != [] && forall i :: 0 <= i < |container| ==> container[i] != ','
    requires IsPlusList(columns) && NoLineTerminator(tql)
    ensures DataGroupsOf(container + "," + columns + "," + tql) == Some(DataGroups(container, columns, tql))
  {
    var body := container + "," + columns + "," + tql;
    var i1 := |container|;
    var i2 := |container| + 1 + |columns|;
    BodySlices(container, columns, tql);
    FirstCommaAfter(body, 0, container);
    FirstCommaAfter(body, i1 + 1, columns);
    DataGroupsAt(body, i1, i2);
  }

  /** Where the pieces of `container,columns,tql` sit in it. */
  lemma BodySlices(container: string, columns: string, tql: string)
    ensures var body := container + "," + columns + "," + tql;
      var i1 := |container|;
      var i2 := |container| + 1 + |columns|;
      && i2 < |body| && body[i1] == ',' && body[i2] == ','
      && body[0..i1] == body[..i1] == container
      && body[i1 + 1..i2] == columns
      && body[i2 + 1..] == tql
  {
  }

  /** `DataGroupsOf` once the two commas are found. */
  lemma DataGroupsAt(body: string, i1: nat, i2: nat)
    requires 0 < i1 < i2 < |body|
    requires IndexOfFrom(body, ",", 0) == Some(i1)
    requires IndexOfFrom(body, ",", i1 + 1) == Some(i2)
    requires IsPlusList(body[i1 + 1..i2]) && NoLineTerminator(body[i2 + 1..])
    ensures DataGroupsOf(body) == Some(DataGroups(body[..i1], body[i1 + 1..i2], body[i2 + 1..]))
  {
  }

  /** In `s`, a comma-free `part` starting at `from` ends at the first comma
      from there on. */
  lemma FirstCommaAfter(s: string, from: nat, part: string)
    requires from + |part| < |s| && s[from..from + |part|] == part && s[from + |part|] == ','
    requires forall i :: 0 <= i < |part| ==> part[i] != ','
    ensures IndexOfFrom(s, ",", from) == Some(from + |part|)
  {
    forall k: nat | from <= k < from + |part| ensures !OccursAt(s, ",", k) {
      assert s[k] == part[k - from];
      assert s[k..k + 1] == [s[k]];
    }
    assert s[from + |part|..from + |part| + 1] == [','];
    IndexOfFromIs(s, ",", from, from + |part|);
  }

  /** The query-data form checks an empty TQL first and an empty container
      second, before it looks at the columns. */
  lemma DataErrorOrder(q: string, g: DataGroups)
    requires DataMatch(q) == Some(g)
    ensures Trim(g.tql) == [] ==> ParseTrimmed(q) == Failure(EmptyTqlMessage)
    ensures Trim(g.tql) != [] && Trim(g.container) == [] ==>
      ParseTrimmed(q) == Failure(EmptyContainerMessage)
    ensures Trim(g.tql) != [] && Trim(g.container) != [] && Trim(g.columns) == [] ==>
      ParseTrimmed(q) == Failure(EmptyColumnMessage)
  {
    FormsExclusive(q);
  }

  class VariablesQueryParser {

    var query: string

    constructor(query: string)
      ensures this.query == query
    {
      this.query := query;
    }

    /** `detectQueryType`: trims the stored query, then classifies it. */
    method DetectQueryType() returns (r: Result<string>)
      modifies this
      ensures query == Trim(old(query))
      ensures r == QueryType(query)
    {
      query := Trim(query);
      if query == ContainerListQuery {
        r := Success(Constants.GET_ALL_CONTAINERS);
      } else if IsColumnsQuery(query) {
        r := Success(Constants.GET_ALL_COLUMNS);
      } else if DataMatch(query).Some? {
        r := Success(Constants.GET_DATA);
      } else {
        r := Failure(WrongFormatMessage);
      }
    }

    /** `parse`: detects the type, then extracts the fields of that form. */
    method Parse() returns (r: Result<VariableQuery>)
      modifies this
      ensures query == Trim(old(query))
      ensures r == ParseQuery(old(query))
    {
      var queryType := DetectQueryType();
      if queryType.Failure? {
        return Failure(queryType.error);
      }
      if queryType.value == Constants.GET_ALL_CONTAINERS {
        r := Success(Containers);
      } else if queryType.value == Constants.GET_ALL_COLUMNS {
        var container := Trim(ColumnsGroup(query));
        if container == [] {
          return Failure(EmptyContainerMessage);
        }
        r := Success(Columns(container));
      } else {
        var g := DataMatch(query).value;
        var tql := Trim(g.tql);
        if tql == [] {
          return Failure(EmptyTqlMessage);
        }
        var container := Trim(g.container);
        if container == [] {
          return Failure(EmptyContainerMessage);
        }
        var columns := GetColumns(Trim(g.columns));
        if columns.Failure? {
          return Failure(columns.error);
        }
        if columns.value.None? || columns.value.value == [] {
          return Failure(EmptyColumnMessage);
        }
        r := Success(Data(container, columns.value.value, tql));
      }
    }
  }
}
