/**
 * The datasource (src/datasource.ts): which panel targets are sent, the
 * request body and the format note built for each, the checks an
 * annotation definition must pass before and after its request, and the
 * columns an annotation request asks for. The HTTP round trip itself, and
 * Grafana's `templateSrv`, are parameters of the model.
 */
module Datasource {

  import opened Wrappers
  import opened Strings
  import opened Js
  import opened Records
  import Constants
  import GridDBQuery
  import TemplateProcessor
  import DataQueryParser
  import DataQueryFormatter
  import AnnotationQueryFormatter

  const CollectionSamplingMessage := "Time sampling not available with collection container"

  /** The message the engine raises on `griddbTimeColumn.text` when the
      target has no time column (its exact text is the engine's). */
  const UndefinedTimeColumnMessage := "TypeError: griddbTimeColumn is undefined"

  // ---------------------------------------------------------------------
  // isValidQuery

  /** Time sampling asked of a collection container, which only time-series
      containers support. */
  predicate SamplesCollection(t: Target) {
    ToUpper(t.selectedContainerType) == Constants.COLLECTION && t.isTimeSampling
  }

  /** A select-box target names a container, and what its format needs:
      a real time column and some view columns for a time series, a chosen
      container for a table. */
  predicate SelectBoxComplete(t: Target) {
    && t.container.text != ""
    && (t.format == Constants.FORMAT_TIME_SERIES ==>
          t.timeColumn.Some? && !t.timeColumn.value.fake && t.selectedViewCols != [])
    && (t.format == Constants.FORMAT_TABLE ==> t.container.value != SelectContainerValue)
  }

  /** `isValidQuery`: `Failure` is the exception thrown for time sampling on
      a collection; it is raised only once a container is chosen. */
  function IsValidQuery(t: Target): (r: Result<bool>)
    ensures r.Failure? <==> !t.hide && !t.rawQuery && t.container.text != "" && SamplesCollection(t)
    ensures r.Failure? ==> r.error == CollectionSamplingMessage
    ensures r == Success(true) <==>
      !t.hide && (if t.rawQuery then Trim(t.query) != "" else SelectBoxComplete(t) && !SamplesCollection(t))
  {
    if t.hide then Success(false)
    else if t.rawQuery then Success(Trim(t.query) != "")
    else if t.container.text == "" then Success(false)
    else if SamplesCollection(t) then Failure(CollectionSamplingMessage)
    else if t.format == Constants.FORMAT_TIME_SERIES && (t.timeColumn.None? || t.timeColumn.value.fake) then Success(false)
    else if t.format == Constants.FORMAT_TIME_SERIES && t.selectedViewCols == [] then Success(false)
    else if t.format == Constants.FORMAT_TABLE && t.container.value == SelectContainerValue then Success(false)
    else Success(true)
  }

  /** `targets.filter(isValidQuery)`: the valid targets in their order, or
      the first exception. */
  function ValidTargets(targets: seq<Target>): (r: Result<seq<Target>>)
    ensures r.Success? ==> |r.value| <= |targets|
  {
    if targets == [] then Success([])
    else
      var kept := ValidTargets(targets[..|targets| - 1]);
      var last := targets[|targets| - 1];
      var valid := IsValidQuery(last);
      if kept.Failure? then kept
      else if valid.Failure? then Failure(valid.error)
      else Success(kept.value + if valid.value then [last] else [])
  }

  /** The filter throws exactly when some target throws. */
  lemma {:induction false} ValidTargetsFailure(targets: seq<Target>)
    ensures ValidTargets(targets).Failure? <==> exists i :: 0 <= i < |targets| && IsValidQuery(targets[i]).Failure?
  {
    if targets != [] {
      var init := targets[..|targets| - 1];
      ValidTargetsFailure(init);
      assert forall i :: 0 <= i < |init| ==> init[i] == targets[i];
    }
  }

  /** The filter keeps exactly the valid targets. */
  lemma {:induction false} ValidTargetsKept(targets: seq<Target>)
    requires ValidTargets(targets).Success?
    ensures forall t :: t in ValidTargets(targets).value <==> t in targets && IsValidQuery(t) == Success(true)
  {
    if targets != [] {
      var init := targets[..|targets| - 1];
      ValidTargetsKept(init);
      assert targets == init + [targets[|targets| - 1]];
    }
  }

  /** Once a prefix throws, the whole filter throws the same. */
  lemma {:induction false} ValidTargetsFailureSticks(targets: seq<Target>, n: nat)
    requires n <= |targets| && ValidTargets(targets[..n]).Failure?
    ensures ValidTargets(targets) == ValidTargets(targets[..n])
    decreases |targets| - n
  {
    if n < |targets| {
      assert targets[..n + 1][..n] == targets[..n];
      ValidTargetsFailureSticks(targets, n + 1);
    } else {
      assert targets[..n] == targets;
    }
  }

  /** A hidden target is never sent. */
  lemma HiddenNeverSent(targets: seq<Target>, t: Target)
    requires t.hide
    requires ValidTargets(targets).Success?
    ensures t !in ValidTargets(targets).value
  {
    ValidTargetsKept(targets);
  }

  // ---------------------------------------------------------------------
  // The request of one target in `query`

  /** `{name, stmt, columns}`; `columns` is `null` for a raw query. */
  datatype RequestBody = RequestBody(name: string, stmt: string, columns: Option<seq<string>>)

  /** The view columns asked for: a time-series target also asks for its
      time column when it is not among them. */
  function ViewColumns(t: Target, timeColumn: string): (r: seq<string>)
    ensures |t.selectedViewCols| <= |r| <= |t.selectedViewCols| + 1
    ensures r[..|t.selectedViewCols|] == t.selectedViewCols
    ensures t.format == Constants.FORMAT_TIME_SERIES ==> timeColumn in r
    ensures t.format != Constants.FORMAT_TIME_SERIES || timeColumn in t.selectedViewCols ==> r == t.selectedViewCols
  {
    if timeColumn !in t.selectedViewCols && t.format == Constants.FORMAT_TIME_SERIES then
      t.selectedViewCols + [timeColumn]
    else t.selectedViewCols
  }

  /** `target.alias ? target.alias.trim() : target.alias`. */
  function TrimmedAlias(alias: string): string {
    if alias != "" then Trim(alias) else alias
  }

  /** The format note the response formatter reads back. */
  function FormatOf(t: Target, timeColumn: string): (f: DataQueryFormatter.FormatInfo)
    ensures f.raw == t.rawQuery && f.dataFormat == t.format
    ensures f.timeColumn == if t.rawQuery then "" else timeColumn
  {
    DataQueryFormatter.FormatInfo(t.rawQuery, t.format, Some(TrimmedAlias(t.alias)), if t.rawQuery then "" else timeColumn)
  }

  /** What `replace` is given for a target: its time column, unless the
      query is raw. */
  function ReplaceDataOf(t: Target, timeColumn: string, minInterval: string,
                         tr: TemplateProcessor.TimeRange, custom: Option<string -> string>): (d: TemplateProcessor.ReplaceData)
    ensures d.timeColumns == if t.rawQuery then [] else [timeColumn]
  {
    TemplateProcessor.ReplaceData(if t.rawQuery then [] else [timeColumn], minInterval, tr, custom)
  }

  /** The body and the format note of one target, from its statement after
      `replace` and its container name before `templateSrv.replace`. */
  function BodyOf(t: Target, timeColumn: string, stmt: string, container: string,
                  templateReplace: string -> string): (b: RequestBody)
    ensures b.stmt == stmt && b.name == templateReplace(container)
    ensures t.rawQuery <==> b.columns.None?
    ensures !t.rawQuery && t.format == Constants.FORMAT_TIME_SERIES ==> timeColumn in b.columns.value
  {
    RequestBody(templateReplace(container), stmt, if t.rawQuery then None else Some(ViewColumns(t, timeColumn)))
  }

  /** One target's request, a step of the loop in `query`: a result, or the
      message that escapes, with the `lastIndex` of the sampling pattern the
      two `replace` calls leave behind. */
  datatype Prepared<T> = Prepared(result: Result<T>, lastIndex: nat)

  datatype Request = Request(body: RequestBody, format: DataQueryFormatter.FormatInfo)

  /** A request built for a target: it had a time column, the columns are
      `null` exactly for a raw target, the format note carries its mode,
      format and time column, and a select-box time series asks for its
      time column. */
  predicate Follows(t: Target, req: Request) {
    && t.timeColumn.Some?
    && (req.body.columns.None? <==> t.rawQuery)
    && req.format == FormatOf(t, t.timeColumn.value.text)
    && (!t.rawQuery && t.format == Constants.FORMAT_TIME_SERIES ==> t.timeColumn.value.text in req.body.columns.value)
  }

  function TargetRequest(t: Target, minInterval: string, tr: TemplateProcessor.TimeRange,
                         custom: Option<string -> string>, templateReplace: string -> string,
                         lastIndex: nat): (p: Prepared<Request>)
    ensures t.timeColumn.None? ==> p == Prepared(Failure(UndefinedTimeColumnMessage), lastIndex)
    ensures p.result.Success? ==> Follows(t, p.result.value)
  {
    if t.timeColumn.None? then Prepared(Failure(UndefinedTimeColumnMessage), lastIndex)
    else
      var timeColumn := t.timeColumn.value.text;
      var rendered := GridDBQuery.RenderText(t);
      if rendered.Failure? then Prepared(Failure(rendered.error), lastIndex)
      else
        var data := ReplaceDataOf(t, timeColumn, minInterval, tr, custom);
        var (stmt, li1) := TemplateProcessor.ReplaceFrom(rendered.value, data, lastIndex);
        if stmt.Failure? then Prepared(Failure(stmt.error), li1)
        else
          var (container, li2) :=
            if t.rawQuery then (DataQueryParser.GetContainer(stmt.value), li1)
            else TemplateProcessor.ReplaceFrom(t.container.text, data, li1);
          if container.Failure? then Prepared(Failure(container.error), li2)
          else
            Prepared(Success(Request(BodyOf(t, timeColumn, stmt.value, container.value, templateReplace),
                                     FormatOf(t, timeColumn))), li2)
  }

  /** A step of the loop: a target and the cursor before it give its
      request and the cursor after it. */
  type Step = (Target, nat) -> Prepared<Request>

  function StepOf(minInterval: string, tr: TemplateProcessor.TimeRange,
                  custom: Option<string -> string>, templateReplace: string -> string): (step: Step)
    ensures forall t, li :: step(t, li) == TargetRequest(t, minInterval, tr, custom, templateReplace, li)
  {
    (t: Target, li: nat) => TargetRequest(t, minInterval, tr, custom, templateReplace, li)
  }

  /** The requests of the first `n` targets, in order, or the first message
      that escapes. */
  function RequestsPrefix(ts: seq<Target>, n: nat, step: Step, lastIndex: nat): (p: Prepared<seq<Request>>)
    requires n <= |ts|
    ensures p.result.Success? ==> |p.result.value| == n
  {
    if n == 0 then Prepared(Success([]), lastIndex)
    else
      var before := RequestsPrefix(ts, n - 1, step, lastIndex);
      if before.result.Failure? then before
      else
        var next := step(ts[n - 1], before.lastIndex);
        if next.result.Failure? then Prepared(Failure(next.result.error), next.lastIndex)
        else Prepared(Success(before.result.value + [next.result.value]), next.lastIndex)
  }

  /** Every request a step builds stands in `rel` to its target. */
  ghost predicate StepsKeep(step: Step, rel: (Target, Request) -> bool) {
    forall t, li :: step(t, li).result.Success? ==> rel(t, step(t, li).result.value)
  }

  /** Every step of `query` builds a request that follows its target. */
  lemma StepOfFollows(minInterval: string, tr: TemplateProcessor.TimeRange,
                    custom: Option<string -> string>, templateReplace: string -> string)
    ensures StepsKeep(StepOf(minInterval, tr, custom, templateReplace), Follows)
  {
  }

  /** One more target: its request is appended, or its message escapes. */
  lemma RequestsPrefixNext(ts: seq<Target>, i: nat, step: Step, start: nat,
                           requests: seq<Request>, before: nat, next: Prepared<Request>)
    requires i < |ts|
    requires RequestsPrefix(ts, i, step, start) == Prepared(Success(requests), before)
    requires step(ts[i], before) == next
    ensures next.result.Success? ==>
      RequestsPrefix(ts, i + 1, step, start) == Prepared(Success(requests + [next.result.value]), next.lastIndex)
    ensures next.result.Failure? ==>
      RequestsPrefix(ts, i + 1, step, start) == Prepared(Failure(next.result.error), next.lastIndex)
  {
  }

  /** Once a step throws, the loop throws the same. */
  lemma {:induction false} RequestsFailureSticks(ts: seq<Target>, n: nat, m: nat, step: Step, lastIndex: nat)
    requires n <= m <= |ts|
    requires RequestsPrefix(ts, n, step, lastIndex).result.Failure?
    ensures RequestsPrefix(ts, m, step, lastIndex) == RequestsPrefix(ts, n, step, lastIndex)
    decreases m
  {
    if m > n {
      RequestsFailureSticks(ts, n, m - 1, step, lastIndex);
    }
  }

  /** When every step keeps `rel` between target and request, the loop
      keeps it at every position. */
  lemma {:induction false} RequestsKeep(ts: seq<Target>, n: nat, step: Step, lastIndex: nat,
                                        rel: (Target, Request) -> bool)
    requires n <= |ts|
    requires StepsKeep(step, rel)
    requires RequestsPrefix(ts, n, step, lastIndex).result.Success?
    ensures AllKeep(ts, RequestsPrefix(ts, n, step, lastIndex).result.value, rel)
  {
    if n > 0 {
      var before, next := RequestsPrefixSucceeded(ts, n, step, lastIndex);
      RequestsKeep(ts, n - 1, step, lastIndex, rel);
      KeepSnoc(ts, before, next, rel);
    }
  }

  /** Each request stands in `rel` to the target at the same position. */
  ghost predicate AllKeep(ts: seq<Target>, requests: seq<Request>, rel: (Target, Request) -> bool) {
    |requests| <= |ts| && forall i :: 0 <= i < |requests| ==> rel(ts[i], requests[i])
  }

  /** A loop that succeeded up to `n` succeeded up to `n - 1` and then in
      its last step. */
  lemma RequestsPrefixSucceeded(ts: seq<Target>, n: nat, step: Step, lastIndex: nat)
      returns (before: seq<Request>, next: Request)
    requires 0 < n <= |ts|
    requires RequestsPrefix(ts, n, step, lastIndex).result.Success?
    ensures RequestsPrefix(ts, n - 1, step, lastIndex).result == Success(before) && |before| == n - 1
    ensures step(ts[n - 1], RequestsPrefix(ts, n - 1, step, lastIndex).lastIndex).result == Success(next)
    ensures RequestsPrefix(ts, n, step, lastIndex).result.value == before + [next]
  {
    before := RequestsPrefix(ts, n - 1, step, lastIndex).result.value;
    next := step(ts[n - 1], RequestsPrefix(ts, n - 1, step, lastIndex).lastIndex).result.value;
  }

  lemma KeepSnoc(ts: seq<Target>, before: seq<Request>, next: Request, rel: (Target, Request) -> bool)
    requires AllKeep(ts, before, rel) && |before| < |ts|
    requires rel(ts[|before|], next)
    ensures AllKeep(ts, before + [next], rel)
  {
    forall i | 0 <= i < |before| + 1 ensures rel(ts[i], (before + [next])[i]) {
      if i < |before| {
        assert (before + [next])[i] == before[i];
      }
    }
  }

  /** The requests `query` builds are those of valid, visible targets of
      the panel, each following its target. */
  lemma QueriedTargets(targets: seq<Target>, minInterval: string, tr: TemplateProcessor.TimeRange,
                       custom: Option<string -> string>, templateReplace: string -> string, lastIndex: nat)
    requires ValidTargets(targets).Success?
    requires RequestsPrefix(ValidTargets(targets).value, |ValidTargets(targets).value|,
                            StepOf(minInterval, tr, custom, templateReplace), lastIndex).result.Success?
    ensures var valid := ValidTargets(targets).value;
      var requests := RequestsPrefix(valid, |valid|, StepOf(minInterval, tr, custom, templateReplace), lastIndex).result.value;
      forall i :: 0 <= i < |valid| ==>
        valid[i] in targets && !valid[i].hide && Follows(valid[i], requests[i])
  {
    var valid := ValidTargets(targets).value;
    ValidTargetsKept(targets);
    StepOfFollows(minInterval, tr, custom, templateReplace);
    RequestsKeep(valid, |valid|, StepOf(minInterval, tr, custom, templateReplace), lastIndex, Follows);
    assert forall i :: 0 <= i < |valid| ==> valid[i] in valid;
  }

  /** What `query` hands to the HTTP layer: nothing when no target is
      valid (`{}`), otherwise the bodies with their format notes. */
  datatype QueryPlan = NoTargets | Requests(requests: seq<Request>)

  // ---------------------------------------------------------------------
  // getSelectedFields

  const Comma := ","

  /** The tag columns: `tagsColumn` split on commas and each part trimmed;
      none when it is unset or blank. */
  function TagColumns(tagsColumn: Option<string>): (r: seq<string>)
    ensures !TruthyText(tagsColumn) || Trim(tagsColumn.value) == "" ==> r == []
    ensures TruthyText(tagsColumn) && Trim(tagsColumn.value) != "" ==>
      var parts := Split(tagsColumn.value, Comma);
      |r| == |parts| && forall i :: 0 <= i < |r| ==> r[i] == Trim(parts[i])
  {
    if TruthyText(tagsColumn) && Trim(tagsColumn.value) != "" then
      var parts := Split(tagsColumn.value, Comma);
      seq(|parts|, i requires 0 <= i < |parts| => Trim(parts[i]))
    else []
  }

  /** A column given by a setting, when the setting is truthy. */
  function Given(column: Option<string>): (r: seq<string>)
    ensures TruthyText(column) ==> r == [column.value]
    ensures !TruthyText(column) ==> r == []
  {
    if TruthyText(column) then [column.value] else []
  }

  /** The columns an annotation request names, before de-duplication. */
  function FieldCandidates(startTimeColumn: Option<string>, textColumn: Option<string>,
                           tagsColumn: Option<string>, endTimeColumn: Option<string>): seq<string> {
    Given(startTimeColumn) + Given(textColumn) + Given(endTimeColumn) + TagColumns(tagsColumn)
  }

  /** `getSelectedFields`: start (or time), text and end columns when set,
      then the tag columns, each once, in the order of first mention. */
  function SelectedFields(startTimeColumn: Option<string>, textColumn: Option<string>,
                          tagsColumn: Option<string>, endTimeColumn: Option<string>): (fields: seq<string>)
    ensures NoDuplicates(fields)
    ensures forall f :: f in fields <==> f in FieldCandidates(startTimeColumn, textColumn, tagsColumn, endTimeColumn)
    ensures TruthyText(startTimeColumn) ==> fields != [] && fields[0] == startTimeColumn.value
    ensures forall i, j :: 0 <= i < j < |fields| ==>
      IndexOf(FieldCandidates(startTimeColumn, textColumn, tagsColumn, endTimeColumn), fields[i]).value
        < IndexOf(FieldCandidates(startTimeColumn, textColumn, tagsColumn, endTimeColumn), fields[j]).value
  {
    var candidates := FieldCandidates(startTimeColumn, textColumn, tagsColumn, endTimeColumn);
    if candidates != [] then DistinctKeepsFirst(candidates); Distinct(candidates) else []
  }

  /** A regions request names its start column first, and its end column. */
  lemma FieldsOfRegion(o: AnnotationOptions)
    requires AnnotationCheck(o).Success? && o.isRegionsAnnotation
    ensures var fields := AnnotationFields(o);
      fields[0] == o.config.startTimeColumn.value && o.config.endTimeColumn.value in fields
  {
    var c := o.config;
    assert c.endTimeColumn.value in FieldCandidates(c.startTimeColumn, c.textColumn, c.tagsColumn, c.endTimeColumn);
  }

  // ---------------------------------------------------------------------
  // annotationQuery

  /** The annotation definition: its query and container, its mode, and the
      column settings the formatter reads; a setting left blank is `None`. */
  datatype AnnotationOptions = AnnotationOptions(
    query: Option<string>,
    container: Option<string>,
    isRegionsAnnotation: bool,
    config: AnnotationQueryFormatter.AnnotationConfig)

  const QueryMissingMessage := "Query missing in annotation definition"
  const ContainerMissingMessage := "Query missing in container name"
  const TimeColumnMissingMessage := "Query missing in time column"
  const StartMissingMessage := "Query missing in start time column"
  const EndMissingMessage := "Query missing in end time column"
  const SameStartEndMessage := "Start time column must be difference with end time column"

  predicate NamesQueryAndContainer(o: AnnotationOptions) {
    TruthyText(o.query) && TruthyText(o.container)
  }

  /** The definition names what its mode needs. */
  predicate AnnotationComplete(o: AnnotationOptions) {
    && TruthyText(o.query)
    && TruthyText(o.container)
    && if o.isRegionsAnnotation then
         TruthyText(o.config.startTimeColumn) && TruthyText(o.config.endTimeColumn)
         && o.config.startTimeColumn.value != o.config.endTimeColumn.value
       else TruthyText(o.config.timeColumn)
  }

  /** The checks `annotationQuery` makes before any request, in order: the
      query, the container, then the time column (normal mode) or the start
      column, the end column, and their difference (regions mode). */
  function AnnotationCheck(o: AnnotationOptions): (r: Result<()>)
    ensures r.Success? <==> AnnotationComplete(o)
    ensures !TruthyText(o.query) ==> r == Failure(QueryMissingMessage)
    ensures TruthyText(o.query) && !TruthyText(o.container) ==> r == Failure(ContainerMissingMessage)
    ensures NamesQueryAndContainer(o) && !o.isRegionsAnnotation && !TruthyText(o.config.timeColumn) ==>
      r == Failure(TimeColumnMissingMessage)
    ensures NamesQueryAndContainer(o) && o.isRegionsAnnotation && !TruthyText(o.config.startTimeColumn) ==>
      r == Failure(StartMissingMessage)
    ensures NamesQueryAndContainer(o) && o.isRegionsAnnotation && TruthyText(o.config.startTimeColumn)
              && !TruthyText(o.config.endTimeColumn) ==>
      r == Failure(EndMissingMessage)
    ensures NamesQueryAndContainer(o) && o.isRegionsAnnotation && TruthyText(o.config.startTimeColumn)
              && TruthyText(o.config.endTimeColumn) && r.Failure? ==>
      r == Failure(SameStartEndMessage)
  {
    if !TruthyText(o.query) then Failure(QueryMissingMessage)
    else if !TruthyText(o.container) then Failure(ContainerMissingMessage)
    else if !o.isRegionsAnnotation && !TruthyText(o.config.timeColumn) then Failure(TimeColumnMissingMessage)
    else if o.isRegionsAnnotation && !TruthyText(o.config.startTimeColumn) then Failure(StartMissingMessage)
    else if o.isRegionsAnnotation && !TruthyText(o.config.endTimeColumn) then Failure(EndMissingMessage)
    else if o.isRegionsAnnotation && o.config.startTimeColumn == o.config.endTimeColumn then Failure(SameStartEndMessage)
    else Success(())
  }

  /** The time columns `replace` is given: start and end in regions mode,
      the time column otherwise. */
  function AnnotationTimeColumns(o: AnnotationOptions): (r: seq<string>)
    requires AnnotationComplete(o)
    ensures |r| == (if o.isRegionsAnnotation then 2 else 1)
  {
    if o.isRegionsAnnotation then [o.config.startTimeColumn.value, o.config.endTimeColumn.value]
    else [o.config.timeColumn.value]
  }

  /** The columns the annotation request names. */
  function AnnotationFields(o: AnnotationOptions): (fields: seq<string>)
    requires AnnotationComplete(o)
    ensures !o.isRegionsAnnotation ==> fields != [] && fields[0] == o.config.timeColumn.value
    ensures NoDuplicates(fields)
  {
    var c := o.config;
    if o.isRegionsAnnotation then SelectedFields(c.startTimeColumn, c.textColumn, c.tagsColumn, c.endTimeColumn)
    else SelectedFields(c.timeColumn, c.textColumn, c.tagsColumn, None)
  }

  /** The request `annotationQuery` sends, or the rejection. */
  function AnnotationRequest(o: AnnotationOptions, minInterval: string, tr: TemplateProcessor.TimeRange,
                             custom: Option<string -> string>, lastIndex: nat): (p: Prepared<RequestBody>)
    ensures AnnotationCheck(o).Failure? ==> p == Prepared(Failure(AnnotationCheck(o).error), lastIndex)
    ensures p.result.Success? ==> AnnotationComplete(o)
    ensures p.result.Success? ==>
      p.result.value.name == o.container.value && p.result.value.columns == Some(AnnotationFields(o))
  {
    match AnnotationCheck(o)
    case Failure(e) => Prepared(Failure(e), lastIndex)
    case Success(_) =>
      var data := TemplateProcessor.ReplaceData(AnnotationTimeColumns(o), minInterval, tr, custom);
      var (stmt, li) := TemplateProcessor.ReplaceFrom(o.query.value, data, lastIndex);
      match stmt
      case Failure(e) => Prepared(Failure(e), li)
      case Success(s) => Prepared(Success(RequestBody(o.container.value, s, Some(AnnotationFields(o)))), li)
  }

  // ----- The checks on the annotation response -----

  const AnnotationFailMessage := "Query to get annotation fail"
  const NoResultsMessage := "No results in response from GridDB"
  const StartAbsentMessage := "Start time column is not existed in GridDB column"
  const StartNotTimestampMessage := "Start time column is not TIMESTAMP column"
  const EndAbsentMessage := "End time column is not existed in GridDB column"
  const EndNotTimestampMessage := "End time column is not TIMESTAMP column"
  const TimeAbsentMessage := "Time column is not existed in GridDB column"
  const TimeNotTimestampMessage := "Time column is not TIMESTAMP column"

  /** `columns.filter((x) => x.name === name)[0]`: the first column with
      the name. */
  function FirstNamed(cols: seq<Column>, name: string): (r: Option<nat>)
    ensures r.Some? ==> r.value < |cols| && cols[r.value].name == name
    ensures r.Some? ==> forall i :: 0 <= i < r.value ==> cols[i].name != name
    ensures r.None? <==> name !in ColumnNames(cols)
  {
    if cols == [] then None
    else if cols[0].name == name then Some(0)
    else
      var r := FirstNamed(cols[1..], name);
      assert ColumnNames(cols) == [cols[0].name] + ColumnNames(cols[1..]);
      if r.None? then None else Some(r.value + 1)
  }

  /** The named column exists, and the first column with that name is a
      TIMESTAMP column. */
  predicate TimestampColumn(cols: seq<Column>, name: Option<string>) {
    name.Some? && FirstNamed(cols, name.value).Some?
    && ToUpper(cols[FirstNamed(cols, name.value).value].colType) == DataQueryFormatter.TimestampType
  }

  /** One column check: absent, then not a TIMESTAMP column. */
  function CheckTimestamp(cols: seq<Column>, name: Option<string>, absent: string, notTimestamp: string): (r: Result<()>)
    ensures r.Success? <==> TimestampColumn(cols, name)
    ensures r.Failure? ==> r.error == (if name.Some? && name.value in ColumnNames(cols) then notTimestamp else absent)
  {
    if name.None? || FirstNamed(cols, name.value).None? then Failure(absent)
    else if ToUpper(cols[FirstNamed(cols, name.value).value].colType) != DataQueryFormatter.TimestampType then Failure(notTimestamp)
    else Success(())
  }

  /** The checks on the first result of the annotation request: it exists
      with its columns, the time columns are TIMESTAMP columns (start before
      end in regions mode), and it holds a row. `None` is a missing result
      or one without columns. */
  function AnnotationResponseCheck(o: AnnotationOptions, result: Option<QueryResult>): (r: Result<QueryResult>)
    ensures r.Success? <==>
      && result.Some?
      && (if o.isRegionsAnnotation
          then TimestampColumn(result.value.columns, o.config.startTimeColumn)
            && TimestampColumn(result.value.columns, o.config.endTimeColumn)
          else TimestampColumn(result.value.columns, o.config.timeColumn))
      && result.value.results != []
    ensures r.Success? ==> r.value == result.value
    ensures result.None? ==> r == Failure(AnnotationFailMessage)
  {
    match result
    case None => Failure(AnnotationFailMessage)
    case Some(res) =>
      var cols := res.columns;
      var checked :=
        if o.isRegionsAnnotation then
          match CheckTimestamp(cols, o.config.startTimeColumn, StartAbsentMessage, StartNotTimestampMessage)
          case Failure(e) => Failure(e)
          case Success(_) => CheckTimestamp(cols, o.config.endTimeColumn, EndAbsentMessage, EndNotTimestampMessage)
        else CheckTimestamp(cols, o.config.timeColumn, TimeAbsentMessage, TimeNotTimestampMessage);
      if checked.Failure? then Failure(checked.error)
      else if res.results == [] then Failure(NoResultsMessage)
      else Success(res)
  }

  // ---------------------------------------------------------------------
  // The datasource object

  /** `Datasource`: its minimum interval (`""` when unset) and the template
      processor it keeps for its whole life, whose sampling cursor carries
      over from one `replace` to the next. */
  class Datasource {

    const minInterval: string
    const templateProcessor: TemplateProcessor.TemplateProcessor

    constructor (minInterval: string)
      ensures this.minInterval == minInterval
      ensures fresh(templateProcessor) && templateProcessor.samplingLastIndex == 0
    {
      this.minInterval := minInterval;
      templateProcessor := new TemplateProcessor.TemplateProcessor();
    }

    /** The filter at the head of `query`. */
    method FilterValid(targets: seq<Target>) returns (r: Result<seq<Target>>)
      ensures r == ValidTargets(targets)
    {
      var kept: seq<Target> := [];
      var i := 0;
      while i < |targets|
        invariant 0 <= i <= |targets|
        invariant ValidTargets(targets[..i]) == Success(kept)
      {
        ghost var upTo := targets[..i + 1];
        assert upTo[..|upTo| - 1] == targets[..i];
        assert upTo[|upTo| - 1] == targets[i];
        var valid := IsValidQuery(targets[i]);
        if valid.Failure? {
          ValidTargetsFailureSticks(targets, i + 1);
          return Failure(valid.error);
        }
        assert IsValidQuery(upTo[|upTo| - 1]) == valid;
        if valid.value {
          kept := kept + [targets[i]];
        } else {
          assert kept + [] == kept;
        }
        i := i + 1;
      }
      assert targets[..i] == targets;
      return Success(kept);
    }

    /** The body of the `forEach` in `query` for one target. */
    method PrepareTarget(t: Target, tr: TemplateProcessor.TimeRange, custom: Option<string -> string>,
                         templateReplace: string -> string) returns (r: Result<Request>)
      modifies templateProcessor
      ensures Prepared(r, templateProcessor.samplingLastIndex)
        == TargetRequest(t, minInterval, tr, custom, templateReplace, old(templateProcessor.samplingLastIndex))
    {
      if t.timeColumn.None? {
        return Failure(UndefinedTimeColumnMessage);
      }
      var timeColumn := t.timeColumn.value.text;
      var griddbQuery := new GridDBQuery.GridDBQuery(t);
      var rendered := griddbQuery.Render();
      if rendered.Failure? {
        return Failure(rendered.error);
      }
      var data := ReplaceDataOf(t, timeColumn, minInterval, tr, custom);
      var query := templateProcessor.Replace(rendered.value, data);
      if query.Failure? {
        return Failure(query.error);
      }
      var container: Result<string>;
      if t.rawQuery {
        container := DataQueryParser.GetContainer(query.value);
      } else {
        container := templateProcessor.Replace(t.container.text, data);
      }
      if container.Failure? {
        return Failure(container.error);
      }
      return Success(Request(BodyOf(t, timeColumn, query.value, container.value, templateReplace), FormatOf(t, timeColumn)));
    }

    /** The `forEach` in `query`: the requests of the valid targets, in
        order, or the first exception. */
    method PrepareAll(ts: seq<Target>, tr: TemplateProcessor.TimeRange, custom: Option<string -> string>,
                      templateReplace: string -> string) returns (r: Result<seq<Request>>)
      modifies templateProcessor
      ensures Prepared(r, templateProcessor.samplingLastIndex)
        == RequestsPrefix(ts, |ts|, StepOf(minInterval, tr, custom, templateReplace), old(templateProcessor.samplingLastIndex))
    {
      ghost var step := StepOf(minInterval, tr, custom, templateReplace);
      ghost var start := templateProcessor.samplingLastIndex;
      var requests: seq<Request> := [];
      var i := 0;
      while i < |ts|
        invariant 0 <= i <= |ts|
        invariant RequestsPrefix(ts, i, step, start) == Prepared(Success(requests), templateProcessor.samplingLastIndex)
      {
        ghost var before := templateProcessor.samplingLastIndex;
        var next := PrepareTarget(ts[i], tr, custom, templateReplace);
        RequestsPrefixNext(ts, i, step, start, requests, before, Prepared(next, templateProcessor.samplingLastIndex));
        if next.Failure? {
          RequestsFailureSticks(ts, i + 1, |ts|, step, start);
          return Failure(next.error);
        }
        requests := requests + [next.value];
        i := i + 1;
      }
      return Success(requests);
    }

    /** `query` up to the request: nothing to send when no target is valid,
        otherwise the requests of the valid targets. */
    method Query(targets: seq<Target>, tr: TemplateProcessor.TimeRange, custom: Option<string -> string>,
                 templateReplace: string -> string) returns (r: Result<QueryPlan>)
      modifies templateProcessor
      ensures ValidTargets(targets).Failure? ==> r == Failure(ValidTargets(targets).error)
      ensures ValidTargets(targets) == Success([]) ==> r == Success(NoTargets)
      ensures ValidTargets(targets).Failure? || ValidTargets(targets) == Success([]) ==>
        templateProcessor.samplingLastIndex == old(templateProcessor.samplingLastIndex)
      ensures ValidTargets(targets).Success? && ValidTargets(targets).value != [] ==>
        var valid := ValidTargets(targets).value;
        var p := RequestsPrefix(valid, |valid|, StepOf(minInterval, tr, custom, templateReplace),
                                old(templateProcessor.samplingLastIndex));
        templateProcessor.samplingLastIndex == p.lastIndex
        && r == if p.result.Failure? then Failure(p.result.error) else Success(Requests(p.result.value))
    {
      var valid := FilterValid(targets);
      if valid.Failure? {
        return Failure(valid.error);
      }
      if valid.value == [] {
        return Success(NoTargets);
      }
      var requests := PrepareAll(valid.value, tr, custom, templateReplace);
      if requests.Failure? {
        return Failure(requests.error);
      }
      return Success(Requests(requests.value));
    }

    /** `annotationQuery` up to the request. */
    method AnnotationQuery(o: AnnotationOptions, tr: TemplateProcessor.TimeRange,
                           custom: Option<string -> string>) returns (r: Result<RequestBody>)
      modifies templateProcessor
      ensures Prepared(r, templateProcessor.samplingLastIndex)
        == AnnotationRequest(o, minInterval, tr, custom, old(templateProcessor.samplingLastIndex))
    {
      var checked := AnnotationCheck(o);
      if checked.Failure? {
        return Failure(checked.error);
      }
      var data := TemplateProcessor.ReplaceData(AnnotationTimeColumns(o), minInterval, tr, custom);
      var query := templateProcessor.Replace(o.query.value, data);
      if query.Failure? {
        return Failure(query.error);
      }
      var fields: seq<string>;
      if o.isRegionsAnnotation {
        fields := SelectedFields(o.config.startTimeColumn, o.config.textColumn, o.config.tagsColumn, o.config.endTimeColumn);
      } else {
        fields := SelectedFields(o.config.timeColumn, o.config.textColumn, o.config.tagsColumn, None);
      }
      return Success(RequestBody(o.container.value, query.value, Some(fields)));
    }
  }
}
