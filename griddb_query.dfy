/**
 * The query builder: the TQL statement the editor's select boxes describe,
 * `SELECT … FROM container [WHERE …] [LIMIT n [OFFSET m]]`, with a time
 * filter on the chosen time column.
 */
module GridDBQuery {

  import opened Wrappers
  import opened Strings
  import opened Js
  import opened Records
  import Constants

  /** `getSELECTCommand`. */
  function SelectCommand(t: Target): string {
    var columns := if t.isTimeSampling then "$__timeSampling(*, $__interval)" else "*";
    "SELECT " + columns + " FROM " + t.container.text
  }

  /** `getClauseForNullValue`. */
  function ClauseForNullValue(key: string, operator: string, value: string): string {
    if operator == "=" then key + " IS null"
    else if operator == "<>" then key + " IS NOT null"
    else key + " " + operator + " " + value
  }

  /** `getClauseForBooleanColumn`: a boolean column is filtered on by its name. */
  function ClauseForBooleanColumn(key: string, operator: string, value: string): string {
    if value == "false" then
      if operator == "=" then "NOT " + key
      else if operator == "<>" then key
      else ""
    else if value == "true" then
      if operator == "=" then key
      else if operator == "<>" then "NOT " + key
      else ""
    else key + " " + operator + " " + value
  }

  /** `tag.value ? tag.value.trim() : ''`. */
  function EntryValue(tag: WhereEntry): string {
    if tag.value.Some? then Trim(tag.value.value) else ""
  }

  /** `tag.key ? tag.key.trim() : ''`. */
  function EntryKey(tag: WhereEntry): string {
    if tag.key.Some? then Trim(tag.key.value) else ""
  }

  /** `renderTagCondition`'s comparison for one entry. */
  function Clause(tag: WhereEntry): string {
    Comparison(tag.key, tag.operator, tag.value)
  }

  function Comparison(rawKey: Option<string>, operator: Option<string>, rawValue: Option<string>): string {
    var op := OrUndefined(operator);
    var value := if rawValue.Some? then Trim(rawValue.value) else "";
    var key := if rawKey.Some? then Trim(rawKey.value) else "";
    if ToLower(value) == "null" then ClauseForNullValue(key, op, value)
    else if ToLower(value) == "false" || ToLower(value) == "true" then
      ClauseForBooleanColumn(key, op, ToLower(value))
    else key + " " + op + " " + value
  }

  /** The comparison one where entry renders to: `null`, `true` and `false`
      (in any case, surrounded by any white space) become the TQL tests for
      them, every other value is compared literally. */
  lemma ClauseTable(tag: WhereEntry)
    ensures
      var key := EntryKey(tag);
      var op := OrUndefined(tag.operator);
      var value := EntryValue(tag);
      var lower := ToLower(value);
      var r := Clause(tag);
      && (lower == "null" ==>
            r == (if op == "=" then key + " IS null"
                  else if op == "<>" then key + " IS NOT null"
                  else key + " " + op + " " + value))
      && ((lower == "true" && op == "=") || (lower == "false" && op == "<>") ==> r == key)
      && ((lower == "true" && op == "<>") || (lower == "false" && op == "=") ==> r == "NOT " + key)
      && ((lower == "true" || lower == "false") && op != "=" && op != "<>" ==> r == "")
      && (lower != "null" && lower != "true" && lower != "false" ==> r == key + " " + op + " " + value)
  {
  }

  /** `renderTagCondition`: every entry but the first is preceded by its
      connective. */
  function RenderTagCondition(tag: WhereEntry, index: nat): string {
    var str := if index > 0 then " " + OrUndefined(tag.condition) else "";
    str + " " + Clause(tag)
  }

  /** `_.map(griddbWheres, renderTagCondition)`. */
  function RenderedConditions(ws: seq<WhereEntry>): (r: seq<string>)
    ensures |r| == |ws|
  {
    seq(|ws|, i requires 0 <= i < |ws| => RenderTagCondition(ws[i], i))
  }

  /** The pieces of `xs`, one after the other. */
  function Concat(xs: seq<string>): string {
    if xs == [] then "" else Concat(xs[..|xs| - 1]) + xs[|xs| - 1]
  }

  function TimeColumnText(t: Target): string {
    if t.timeColumn.Some? then t.timeColumn.value.text else ""
  }

  /** `(col > $__timeFrom AND col < $__timeTo)`. */
  function TimeFilterClause(column: string): string {
    "(" + column + " > $__timeFrom AND " + column + " < $__timeTo)"
  }

  /** A time column is chosen, and it is a real one unless the panel shows a
      table. */
  predicate FiltersOnTime(t: Target) {
    TimeColumnText(t) != "" && !(t.format == Constants.FORMAT_TABLE && t.timeColumn.value.fake)
  }

  /** `addTimeFilter`. */
  function AddTimeFilter(t: Target, query: string, hasOtherCondition: bool): (r: string)
    ensures !FiltersOnTime(t) ==> r == query
    ensures FiltersOnTime(t) ==>
      r == query + (if hasOtherCondition then " AND " else " WHERE ") + TimeFilterClause(TimeColumnText(t))
  {
    var timeColumn := TimeColumnText(t);
    if timeColumn != "" then
      var filter := if t.format == Constants.FORMAT_TABLE && t.timeColumn.value.fake then ""
                    else TimeFilterClause(timeColumn);
      var andJoin := if hasOtherCondition && filter != "" then " AND " else "";
      var filter' := if !hasOtherCondition && filter != "" then " WHERE " + filter else filter;
      query + andJoin + filter'
    else query
  }

  /** What `getWHERECommand` returns. */
  function WhereText(t: Target): string {
    if |t.wheres| > 0 then AddTimeFilter(t, " WHERE" + Concat(RenderedConditions(t.wheres)), true)
    else AddTimeFilter(t, "", false)
  }

  /** `conditions.forEach(element => query = query + element)`. */
  method AppendAll(start: string, pieces: seq<string>) returns (query: string)
    ensures query == start + Concat(pieces)
  {
    query := start;
    var i := 0;
    while i < |pieces|
      invariant 0 <= i <= |pieces|
      invariant query == start + Concat(pieces[..i])
    {
      assert pieces[..i + 1][..i] == pieces[..i];
      query := query + pieces[i];
      i := i + 1;
    }
    assert pieces[..i] == pieces;
  }

  /** `getWHERECommand`: the conditions are rendered, then appended one by one. */
  method WhereCommand(t: Target) returns (query: string)
    ensures query == WhereText(t)
  {
    if |t.wheres| > 0 {
      var conditions := RenderedConditions(t.wheres);
      query := AppendAll(" WHERE", conditions);
      query := AddTimeFilter(t, query, true);
    } else {
      query := AddTimeFilter(t, "", false);
    }
  }

  /** The limit or the offset it guards is negative. */
  predicate BoundsRejected(t: Target) {
    t.limit.Some? && (t.limit.value < 0 || (t.offset.Some? && t.offset.value < 0))
  }

  /** `getLimitCommand`: an offset counts only after a limit, and neither may
      be negative. */
  function LimitCommand(t: Target): (r: Result<string>)
    ensures r.Failure? <==> BoundsRejected(t)
    ensures t.limit.Some? && t.limit.value < 0 ==> r == Failure("Limit cannot smaller than 0")
    ensures t.limit.Some? && t.limit.value >= 0 && r.Failure? ==> r == Failure("Offset cannot smaller than 0")
    ensures t.limit.None? ==> r == Success("")
  {
    match t.limit
    case None => Success("")
    case Some(n) =>
      if n < 0 then Failure("Limit cannot smaller than 0")
      else
        var query := " LIMIT " + IntToString(n);
        match t.offset
        case None => Success(query)
        case Some(m) =>
          if m < 0 then Failure("Offset cannot smaller than 0")
          else Success(query + " OFFSET " + IntToString(m))
  }

  /** What `render` returns: a raw query is passed through untouched. */
  function RenderText(t: Target): (r: Result<string>)
    ensures r.Failure? <==> !t.rawQuery && BoundsRejected(t)
    ensures t.rawQuery ==> r == Success(t.query)
  {
    if t.rawQuery then Success(t.query)
    else
      var limit :- LimitCommand(t);
      Success(SelectCommand(t) + WhereText(t) + limit)
  }

  /** A statement built from the select boxes is the SELECT part naming the
      container, then the WHERE part, then the LIMIT part. */
  lemma StatementParts(t: Target)
    requires !t.rawQuery && !BoundsRejected(t)
    ensures var head := if t.isTimeSampling then "SELECT $__timeSampling(*, $__interval) FROM " else "SELECT * FROM ";
      RenderText(t) == Success(head + t.container.text + WhereText(t) + LimitCommand(t).value)
  {
    SelectHead(t);
    assert RenderText(t) == Success(SelectCommand(t) + WhereText(t) + LimitCommand(t).value);
  }

  /** The SELECT part is a fixed head followed by the container name. */
  lemma SelectHead(t: Target)
    ensures var head := if t.isTimeSampling then "SELECT $__timeSampling(*, $__interval) FROM " else "SELECT * FROM ";
      SelectCommand(t) == head + t.container.text
  {
    if t.isTimeSampling {
      SamplingHead();
    } else {
      PlainHead();
    }
  }

  lemma SamplingHead()
    ensures "SELECT " + "$__timeSampling(*, $__interval)" + " FROM " == "SELECT $__timeSampling(*, $__interval) FROM "
  {
    assert "SELECT " + "$__timeSampling(*, $__interval)" == "SELECT $__timeSampling(*, $__interval)";
  }

  lemma PlainHead()
    ensures "SELECT " + "*" + " FROM " == "SELECT * FROM "
  {
  }

  /** `GridDBQuery`: renders the TQL of the target it was built for and keeps
      it in the target's `griddbTQL`. */
  class GridDBQuery {

    var target: Target

    constructor (target: Target)
      ensures this.target == target
    {
      this.target := target;
    }

    /** `render`; an exception leaves the target as it was. */
    method Render() returns (r: Result<string>)
      modifies this
      ensures r == RenderText(old(target))
      ensures if r.Success? && !old(target).rawQuery then target == old(target).(griddbTQL := r.value)
              else target == old(target)
    {
      if target.rawQuery {
        return Success(target.query);
      }
      var query := SelectCommand(target);
      var where := WhereCommand(target);
      query := query + where;
      var limit := LimitCommand(target);
      if limit.Failure? {
        return Failure(limit.error);
      }
      query := query + limit.value;
      target := target.(griddbTQL := query);
      return Success(query);
    }
  }

  // ----- Properties of the rendered statement -----

  /** `c0 k1 c1 k2 c2 …`: clauses separated by their connectives. */
  function Interleave(clauses: seq<string>, connectives: seq<string>): string
    requires |clauses| == |connectives| + 1
    decreases |connectives|
  {
    if connectives == [] then clauses[0]
    else clauses[0] + " " + connectives[0] + " " + Interleave(clauses[1..], connectives[1..])
  }

  function Clauses(ws: seq<WhereEntry>): (r: seq<string>)
    ensures |r| == |ws|
  {
    seq(|ws|, i requires 0 <= i < |ws| => Clause(ws[i]))
  }

  /** The connectives of every entry after the first. */
  function Connectives(ws: seq<WhereEntry>): (r: seq<string>)
    requires ws != []
    ensures |r| == |ws| - 1
  {
    seq(|ws| - 1, i requires 0 <= i < |ws| - 1 => OrUndefined(ws[i + 1].condition))
  }

  lemma {:induction false} InterleaveSnoc(cs: seq<string>, ks: seq<string>, c: string, k: string)
    requires |cs| == |ks| + 1
    ensures Interleave(cs + [c], ks + [k]) == Interleave(cs, ks) + " " + k + " " + c
    decreases |ks|
  {
    if ks == [] {
      assert (cs + [c])[1..] == [c];
    } else {
      assert (cs + [c])[1..] == cs[1..] + [c];
      assert (ks + [k])[1..] == ks[1..] + [k];
      InterleaveSnoc(cs[1..], ks[1..], c, k);
    }
  }

  /** Pieces made of a clause each, every one but the first preceded by a
      connective, concatenate to the interleaving of the two lists. */
  lemma {:induction false} ConcatOfPieces(pieces: seq<string>, cs: seq<string>, ks: seq<string>, n: nat)
    requires |pieces| == |cs| == |ks| + 1 && 1 <= n <= |pieces|
    requires forall i :: 0 <= i < |pieces| ==>
      pieces[i] == (if i > 0 then " " + ks[i - 1] else "") + " " + cs[i]
    ensures Concat(pieces[..n]) == " " + Interleave(cs[..n], ks[..n - 1])
  {
    if n == 1 {
      assert pieces[..1][..0] == [];
      assert cs[..1] == [cs[0]];
    } else {
      ConcatOfPieces(pieces, cs, ks, n - 1);
      assert pieces[..n][..n - 1] == pieces[..n - 1];
      assert cs[..n] == cs[..n - 1] + [cs[n - 1]];
      assert ks[..n - 1] == ks[..n - 2] + [ks[n - 2]];
      InterleaveSnoc(cs[..n - 1], ks[..n - 2], cs[n - 1], ks[n - 2]);
    }
  }

  lemma ConcatOfAllPieces(pieces: seq<string>, cs: seq<string>, ks: seq<string>)
    requires |pieces| == |cs| == |ks| + 1
    requires forall i :: 0 <= i < |pieces| ==>
      pieces[i] == (if i > 0 then " " + ks[i - 1] else "") + " " + cs[i]
    ensures Concat(pieces) == " " + Interleave(cs, ks)
  {
    ConcatOfPieces(pieces, cs, ks, |pieces|);
    assert pieces[..|pieces|] == pieces;
    assert cs[..|pieces|] == cs;
    assert ks[..|pieces| - 1] == ks;
  }

  lemma RenderedConditionAt(ws: seq<WhereEntry>, i: nat)
    requires i < |ws|
    ensures RenderedConditions(ws)[i]
            == (if i > 0 then " " + OrUndefined(ws[i].condition) else "") + " " + Clauses(ws)[i]
  {
  }

  /** The where entries render as their clauses joined by the connectives of
      all entries but the first: `n` entries give `n - 1` connectives. */
  lemma ConditionsInterleaved(ws: seq<WhereEntry>)
    requires ws != []
    ensures Concat(RenderedConditions(ws)) == " " + Interleave(Clauses(ws), Connectives(ws))
  {
    var pieces := RenderedConditions(ws);
    var cs := Clauses(ws);
    var ks := Connectives(ws);
    forall i | 0 <= i < |pieces|
      ensures pieces[i] == (if i > 0 then " " + ks[i - 1] else "") + " " + cs[i]
    {
      RenderedConditionAt(ws, i);
    }
    ConcatOfAllPieces(pieces, cs, ks);
  }

  /** The connective stored on the first where entry is never rendered. */
  lemma FirstConnectiveIgnored(t: Target, c: Option<string>)
    requires t.wheres != []
    ensures WhereText(t.(wheres := [t.wheres[0].(condition := c)] + t.wheres[1..])) == WhereText(t)
  {
    var ws := t.wheres;
    var ws' := [ws[0].(condition := c)] + ws[1..];
    forall i | 0 <= i < |ws| ensures Clauses(ws')[i] == Clauses(ws)[i] {
      if i > 0 {
        assert ws'[i] == ws[i];
      }
    }
    forall i | 0 <= i < |ws| - 1 ensures Connectives(ws')[i] == Connectives(ws)[i] {
      assert ws'[i + 1] == ws[i + 1];
    }
    assert Clauses(ws') == Clauses(ws);
    assert Connectives(ws') == Connectives(ws);
    ConditionsInterleaved(ws);
    ConditionsInterleaved(ws');
    var t' := t.(wheres := ws');
    assert FiltersOnTime(t') == FiltersOnTime(t) && TimeColumnText(t') == TimeColumnText(t);
  }

  /** The time filter is the statement's only condition when no where entry
      is set; otherwise it is joined to them by `AND`. */
  lemma TimeFilterPlacement(t: Target)
    requires FiltersOnTime(t)
    ensures t.wheres == [] ==> WhereText(t) == " WHERE " + TimeFilterClause(TimeColumnText(t))
    ensures t.wheres != [] ==>
      WhereText(t) == " WHERE " + Interleave(Clauses(t.wheres), Connectives(t.wheres))
                      + " AND " + TimeFilterClause(TimeColumnText(t))
  {
    var clause := TimeFilterClause(TimeColumnText(t));
    if t.wheres == [] {
      assert WhereText(t) == "" + " WHERE " + clause;
      assert "" + " WHERE " + clause == " WHERE " + clause;
    } else {
      ConditionsInterleaved(t.wheres);
      var conditions := Interleave(Clauses(t.wheres), Connectives(t.wheres));
      WhereSpace(conditions);
      assert WhereText(t) == " WHERE" + Concat(RenderedConditions(t.wheres)) + " AND " + clause;
    }
  }

  lemma WhereSpace(x: string)
    ensures " WHERE" + (" " + x) == " WHERE " + x
  {
    assert " WHERE" + " " == " WHERE ";
  }

  /** The limit clause reads back as the limit and offset it was made of. */
  lemma LimitClauseReadsBack(t: Target)
    requires LimitCommand(t).Success? && t.limit.Some?
    ensures var words := Split(LimitCommand(t).value, " ");
      && (t.offset.None? ==> |words| == 3 && words[..2] == ["", "LIMIT"]
                             && ToNumber(words[2]) == Int(t.limit.value))
      && (t.offset.Some? ==> |words| == 5 && words[..2] == ["", "LIMIT"] && words[3] == "OFFSET"
                             && ToNumber(words[2]) == Int(t.limit.value)
                             && ToNumber(words[4]) == Int(t.offset.value))
  {
    if t.offset.None? {
      LimitWords(t.limit.value);
    } else {
      LimitOffsetWords(t.limit.value, t.offset.value);
    }
  }

  lemma LimitWords(n: nat)
    ensures var words := Split(" LIMIT " + IntToString(n), " ");
      |words| == 3 && words[..2] == ["", "LIMIT"] && ToNumber(words[2]) == Int(n)
  {
    LimitDigitsWords(NatToString(n));
  }

  lemma LimitDigitsWords(l: string)
    requires l != [] && AllDigits(l)
    ensures var words := Split(" LIMIT " + l, " ");
      |words| == 3 && words[..2] == ["", "LIMIT"] && ToNumber(words[2]) == Int(DigitsValue(l))
  {
    DigitsHaveNoBlank(l);
    SplitLimitClause(l);
    DigitsReadBack(l);
  }

  lemma SplitLimitClause(l: string)
    requires !Contains(l, " ")
    ensures Split(" LIMIT " + l, " ") == ["", "LIMIT", l]
  {
    WithoutChar("LIMIT", ' ');
    SplitTwoWords("LIMIT", l);
    assert " LIMIT " + l == " " + ("LIMIT" + " " + l);
  }

  lemma LimitOffsetWords(n: nat, m: nat)
    ensures var words := Split(" LIMIT " + IntToString(n) + " OFFSET " + IntToString(m), " ");
      && |words| == 5 && words[..2] == ["", "LIMIT"] && words[3] == "OFFSET"
      && ToNumber(words[2]) == Int(n) && ToNumber(words[4]) == Int(m)
  {
    LimitOffsetDigitsWords(NatToString(n), NatToString(m));
  }

  lemma LimitOffsetDigitsWords(l: string, o: string)
    requires l != [] && AllDigits(l) && o != [] && AllDigits(o)
    ensures var words := Split(" LIMIT " + l + " OFFSET " + o, " ");
      && |words| == 5 && words[..2] == ["", "LIMIT"] && words[3] == "OFFSET"
      && ToNumber(words[2]) == Int(DigitsValue(l)) && ToNumber(words[4]) == Int(DigitsValue(o))
  {
    DigitsHaveNoBlank(l);
    DigitsHaveNoBlank(o);
    SplitLimitOffsetClause(l, o);
    var words := Split(" LIMIT " + l + " OFFSET " + o, " ");
    assert words[2] == l && words[4] == o;
    DigitsReadBack(l);
    DigitsReadBack(o);
  }

  lemma SplitLimitOffsetClause(l: string, o: string)
    requires !Contains(l, " ") && !Contains(o, " ")
    ensures Split(" LIMIT " + l + " OFFSET " + o, " ") == ["", "LIMIT", l, "OFFSET", o]
  {
    WithoutChar("LIMIT", ' ');
    WithoutChar("OFFSET", ' ');
    SplitFourWords("LIMIT", l, "OFFSET", o);
    assert " LIMIT " + l + " OFFSET " + o == " " + ("LIMIT" + " " + (l + " " + ("OFFSET" + " " + o)));
  }

  lemma DigitsReadBack(s: string)
    requires s != [] && AllDigits(s)
    ensures ToNumber(s) == Int(DigitsValue(s))
  {
    assert !IsSpace(s[0]) && !IsSpace(s[|s| - 1]);
  }
}
