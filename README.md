# GridDB datasource for Grafana — a verified model of its query core

This project models, in Dafny, the parts of the GridDB datasource plugin for
Grafana that turn editor state into GridDB TQL statements and turn GridDB
responses into Grafana data. It covers:

- the TQL builder (`GridDBQuery`): `SELECT … FROM …`, the `WHERE` clause with
  its `null`/`true`/`false` rules and the time filter, and `LIMIT … OFFSET …`;
- the macro expander (`TemplateProcessor`): `$__timeFilter`, `$__rangeFilter`,
  the re-scanning `$__timeSampling(col, dur)` rewrite driven by a global
  regular expression whose `lastIndex` cursor is kept as object state, the
  duration tables, `$__interval`/`$__minInterval`/`$__timeFrom`/`$__timeTo`,
  and the alternation built from multi-valued dashboard variables;
- the variable-query language (`VariablesQueryParser`):
  `$griddb_container_list`, `$griddb_column_list(c)` and
  `$griddb_query_data(c, a+b, tql)`;
- the container name recovered from raw TQL (`DataQueryParser`);
- the where-segment editor (`DataQueryCtrl`), edited in place and rebuilt into
  where entries;
- the response formatters for panels, annotations and variables
  (`DataQueryFormatter`, `AnnotationQueryFormatter`, `VariablesQueryFormatter`);
- the list converters of the editor (`QueryPartUtil`);
- the datasource itself (`Datasource`): which targets are sent, the request
  body of each, and the checks on an annotation definition and its response.

Each source file is one module. The objects whose fields the plugin updates
in place are classes:

- `GridDBQuery.GridDBQuery` writes `griddbTQL`;
- `TemplateProcessor.TemplateProcessor` holds the sampling regex cursor;
- `VariablesQueryParser.VariablesQueryParser` trims its `query`;
- `DataQueryCtrl.DataQueryCtrl` holds the target and the where segments;
- `Datasource.Datasource` keeps one template processor for its whole life.

Their methods are proved against specification functions, and the lemmas
state the properties of those functions. Regular expressions are specified
as the language they match plus the leftmost/greedy choice the engine
makes. There is no regex engine in the model. JavaScript values (`undefined`,
truthiness, `'' + v`, `+s`, `<`) are modelled in `Js`, and the string
built-ins (`trim`, `split`, `join`, `replace`, `indexOf`) in `Strings`.

Where the plugin's design notes and its code disagree, the model follows the
code:

- A `true`/`false` value with an operator other than `=` or `<>` gives an
  empty clause.
- `w`, `M` and `y` give `-1` in `convertTimeToMillisecond`.
- The `ms` pattern of `getGrafanaTimeType` is not anchored, so `5mss` is read
  as milliseconds.

## Model

| member | source | states |
|---|---|---|
| GridDBQuery.ClauseTable | src/query_part/griddb_query.ts:217-299 | the clause of one where entry: `null` (any case) gives `IS null` for `=`, `IS NOT null` for `<>`, else `key op value`; `true=`/`false<>` give `key`, `true<>`/`false=` give `NOT key`, `true`/`false` with another operator give the empty clause; any other value gives `key op value` |
| GridDBQuery.RenderedConditions | src/query_part/griddb_query.ts:117-128 | one rendered condition per where entry |
| GridDBQuery.AddTimeFilter | src/query_part/griddb_query.ts:189-206 | no time filter without a time-column text or for a fake column in table format; otherwise ` AND (…)` after other conditions, ` WHERE (…)` when there are none |
| GridDBQuery.AppendAll | src/query_part/griddb_query.ts:125-127 | the `forEach` that appends every rendered condition yields their concatenation after the start text |
| GridDBQuery.WhereCommand | src/query_part/griddb_query.ts:117-135 | `getWHERECommand` computes the where text: the conditions, then the time filter |
| GridDBQuery.LimitCommand | src/query_part/griddb_query.ts:145-169 | fails exactly when a limit is negative, or when a non-negative limit has a negative offset, with the source's two messages; no limit gives no clause |
| GridDBQuery.RenderText | src/query_part/griddb_query.ts:73-85 | a raw target renders its own query unchanged; a select-box target fails only on bad bounds |
| GridDBQuery.StatementParts | src/query_part/griddb_query.ts:80-106 | the statement is `SELECT $__timeSampling(*, $__interval) FROM ` (sampling) or `SELECT * FROM `, then the container text, the where text and the limit text |
| GridDBQuery.GridDBQuery.Render | src/query_part/griddb_query.ts:73-85 | returns the rendered text; stores it in `griddbTQL` for a select-box target and changes nothing else |
| GridDBQuery.ConditionsInterleaved | src/query_part/griddb_query.ts:117-226 | the where conditions are the clauses separated by the connectives of entries 2…n, so there is one connective fewer than entries |
| GridDBQuery.FirstConnectiveIgnored | src/query_part/griddb_query.ts:217-226 | the connective stored on the first entry never reaches the statement |
| GridDBQuery.TimeFilterPlacement | src/query_part/griddb_query.ts:189-206 | with a time filter, the where text is ` WHERE (filter)` alone, or ` WHERE conditions AND (filter)` |
| GridDBQuery.LimitClauseReadsBack | src/query_part/griddb_query.ts:145-169 | the emitted ` LIMIT n [OFFSET m]` splits into its keywords and numbers, which read back as the target's limit and offset |
| TemplateProcessor.FormatTimeFilterMacro | src/datasource_process/template_processor.ts:310-314 | every `$__timeFilter` becomes `(c > $__timeFrom AND c < $__timeTo)` and the rest of the text is kept; a query without the macro is unchanged |
| TemplateProcessor.TimeFilterMatchesBuilder | src/datasource_process/template_processor.ts:310-314 | the macro expands to the same clause the TQL builder adds for that column |
| TemplateProcessor.FormatTimeRangeMacro | src/datasource_process/template_processor.ts:331-338 | every `$__rangeFilter` becomes the two-column expression only when both columns are non-empty; otherwise the query is unchanged |
| TemplateProcessor.GrafanaTimeType | src/datasource_process/template_processor.ts:479-503 | the unit is one of `ms s m h d w M y`, `''` exactly for empty input; no unit fails with `Cannot detect format of grafana time` |
| TemplateProcessor.ConvertTimeInTimeSampling | src/datasource_process/template_processor.ts:222-278 | succeeds exactly when the unit is detected; the unit is a TQL unit, empty only for empty input |
| TemplateProcessor.IntervalOf | src/datasource_process/template_processor.ts:235-276 | an unknown unit gives the empty unit |
| TemplateProcessor.IntervalTable | src/datasource_process/template_processor.ts:235-276 | y → ×365 DAY, M → ×30 DAY, w → ×7 DAY; d, h, m, s, ms keep the value with DAY, HOUR, MINUTE, SECOND, MILLISECOND |
| TemplateProcessor.SamplingUnitTable | src/datasource_process/template_processor.ts:222-278 | for every digit string d, `d`+unit converts by that table (e.g. `3d` → 3 DAY) |
| TemplateProcessor.ConvertTimeToMillisecond | src/datasource_process/template_processor.ts:358-391 | fails exactly when the unit cannot be detected |
| TemplateProcessor.ScaledTable | src/datasource_process/template_processor.ts:371-388 | s ×1000, m ×60000, h ×3600000, d ×86400000; w, M and y give -1 |
| TemplateProcessor.MillisecondTable | src/datasource_process/template_processor.ts:358-391 | for every digit string: ms, s, m, h, d scale as above; w, M, y give -1; the empty text gives -1 |
| TemplateProcessor.MatchAt | src/datasource_process/template_processor.ts:17 | a match of the sampling pattern at p is `$__timeSampling(a,b)` with a and b free of `(`, `)` and `,` |
| TemplateProcessor.MatchAtComplete | src/datasource_process/template_processor.ts:17 | every occurrence of such a macro at p is found there |
| TemplateProcessor.SamplingExec | src/datasource_process/template_processor.ts:189-206 | `exec` from `lastIndex` returns the leftmost match at or after it, or none when none is left |
| TemplateProcessor.SamplingReplacement | src/datasource_process/template_processor.ts:191-203 | the replacement of one match fails exactly when its trimmed duration is neither `$__interval`, `$__minInterval` nor a detectable duration; `$__interval`/`$__minInterval` give `TIME_SAMPLING(column, $__timeFrom, $__timeTo, time)` and any other duration gives the same call with its converted value and unit |
| TemplateProcessor.NoHeadNoMatch | src/datasource_process/template_processor.ts:17 | text where no `$` is followed, seven places on, by the `S` of `$__timeSampling` holds no macro, from any cursor |
| TemplateProcessor.CallHoldsNoMacro | src/datasource_process/template_processor.ts:196-201 | a `TIME_SAMPLING(…)` call between `$`-free texts holds no macro, so the rewrite loop does not find one in its own output |
| TemplateProcessor.OneMacroRewrite | src/datasource_process/template_processor.ts:189-206 | one macro between `$`-free texts becomes `pre + TIME_SAMPLING(trimmed column, $__timeFrom, $__timeTo, d) + post`, with d the trimmed `$__interval`/`$__minInterval` or the converted value and unit of any other duration |
| TemplateProcessor.OneMacroLoop | src/datasource_process/template_processor.ts:189-206 | the same text through the source's loop, starting with the cursor at 0, gives the same result and leaves the cursor at 0 |
| TemplateProcessor.DaysSampling | src/datasource_process/template_processor.ts:198-201 | `$__timeSampling(c, Nd)` for any digits N becomes `TIME_SAMPLING(c, $__timeFrom, $__timeTo, N, DAY)`, through both the rewrite and the loop |
| TemplateProcessor.KeptSampling | src/datasource_process/template_processor.ts:195-197 | `$__timeSampling(c, $__interval)` (or `$__minInterval`) keeps the variable: `TIME_SAMPLING(c, $__timeFrom, $__timeTo, $__interval)` |
| TemplateProcessor.DaySamplingExample | src/datasource_process/template_processor.ts:189-206 | `$__timeSampling(col1, 3d)` becomes `TIME_SAMPLING(col1, $__timeFrom, $__timeTo, 3, DAY)` |
| TemplateProcessor.IntervalSamplingExample | src/datasource_process/template_processor.ts:189-206 | `$__timeSampling(t, $__interval)` becomes `TIME_SAMPLING(t, $__timeFrom, $__timeTo, $__interval)` |
| TemplateProcessor.SamplingOutcome | src/datasource_process/template_processor.ts:187-209 | the rewrite loop ends with the cursor at 0, or fails with the duration message and leaves the cursor past where it started |
| TemplateProcessor.TimestampText | src/datasource_process/template_processor.ts:289-296 | a missing range end gives the empty text |
| TemplateProcessor.EffectiveInterval | src/datasource_process/template_processor.ts:407-410 | `$__interval` uses the larger of the panel interval and the minimum interval |
| TemplateProcessor.FormatSpecialVariables | src/datasource_process/template_processor.ts:404-428 | fails exactly when the minimum interval has no unit; a query without the four variables is unchanged; `$__timeFrom`/`$__timeTo` are touched only when a range is present |
| TemplateProcessor.SpecialRange | src/datasource_process/template_processor.ts:417-425 | without a range, or without the two variables, the query is unchanged |
| TemplateProcessor.IntervalVariable | src/datasource_process/template_processor.ts:404-412 | `$__interval` becomes `max(intervalMs, minIntervalMs), MILLISECOND` |
| TemplateProcessor.MinIntervalVariable | src/datasource_process/template_processor.ts:408-415 | `$__minInterval` becomes `minIntervalMs, MILLISECOND` |
| TemplateProcessor.TimeFromVariable | src/datasource_process/template_processor.ts:417-421 | `$__timeFrom` is kept without a range and becomes the start stamp with one |
| TemplateProcessor.EscapedValues | src/datasource_process/template_processor.ts:468 | each value is escaped on its own, in order |
| TemplateProcessor.InterpolateQueryStr | src/datasource_process/template_processor.ts:454-470 | a value of a variable that is neither multi nor include-all, or a plain string, is returned as is; one value is returned alone; otherwise `(v1\|v2\|…)`, whose inside splits back into exactly the original values |
| TemplateProcessor.AlternativesOfJoin | src/datasource_process/template_processor.ts:468-469 | escaping each value and joining with `\|` is undone by reading the alternatives back |
| TemplateProcessor.TimeMacros | src/datasource_process/template_processor.ts:151-159 | the time filter runs only for one non-empty column, the range filter only for two columns; otherwise the query is unchanged |
| TemplateProcessor.ReplaceFrom | src/datasource_process/template_processor.ts:143-174 | `replace` succeeds with the cursor at 0, or fails with the duration message; it always fails when the minimum interval has no unit |
| TemplateProcessor.TemplateProcessor.Exec | src/datasource_process/template_processor.ts:189-206 | `exec` on the global pattern returns the leftmost match at or after `lastIndex`, moves `lastIndex` to its end, and resets it to 0 when there is none |
| TemplateProcessor.TemplateProcessor.FormatTimeSamplingMacro | src/datasource_process/template_processor.ts:187-209 | the rewrite loop returns the rewritten query or the failure, and leaves the cursor where the loop as written leaves it |
| TemplateProcessor.TemplateProcessor.Replace | src/datasource_process/template_processor.ts:143-174 | the passes run in order: time macros, sampling, special variables, then the user variables when `templateSrv` and `scopedVars` are given (`custom`); the cursor carries over from the previous call |
| TemplateProcessor.StaleCursor | src/datasource_process/template_processor.ts:187-209 | after a failed rewrite the cursor stays at the failing match, so a following query no longer than it is returned without its sampling macros rewritten |
| TemplateProcessor.RejectedMacro | src/datasource_process/template_processor.ts:189-201 | a lone macro whose duration cannot be read fails with `Cannot detect format of grafana time`, the cursor left at the macro's end |
| TemplateProcessor.ExpandedMacro | src/datasource_process/template_processor.ts:189-206 | a lone macro with a readable duration does not come back as it was from a search started at 0 |
| TemplateProcessor.StaleCursorExample | src/datasource_process/template_processor.ts:187-209 | `$__timeSampling(c,3x)` fails with the cursor at 21; `$__timeSampling(c,1d)` then comes back unexpanded, although a search from 0 expands it |
| TemplateProcessor.SamplingRewrite | src/datasource_process/template_processor.ts:187-209 | the intended rewrite, searching afresh from 0 each round: on success no sampling macro is left; a query without one is unchanged; the only failure is the duration message |
| TemplateProcessor.LeftmostReplaceIsSplice | src/datasource_process/template_processor.ts:191-205 | `query.replace(func, …)` with the trimmed leftmost match replaces exactly that match |
| TemplateProcessor.NoDollarNoMatch | src/datasource_process/template_processor.ts:17 | text without `$` holds no sampling macro |
| TemplateProcessor.ResumePastSkips | src/datasource_process/template_processor.ts:189-206 | when a replacement is shorter than its match and a second macro follows right after it, the resumed `exec` passes over the second macro, which is left in the result |
| TemplateProcessor.ShrunkMacroSkipsNext | src/datasource_process/template_processor.ts:189-206 | a concrete family of queries (a duration padded with blanks followed by a second macro) for which the loop as written leaves a sampling macro unexpanded |
| VariablesQueryParser.DataGroupsOf | src/datasource_process/variables_query_parser.ts:34 | the three groups of `$griddb_query_data(…)`: a container without commas, a `+`-separated column list, and the tql, which rebuild the text |
| VariablesQueryParser.Enclosed | src/datasource_process/variables_query_parser.ts:25-34 | the body between a head and the final `)` is found exactly when the text has that form |
| VariablesQueryParser.DataMatch | src/datasource_process/variables_query_parser.ts:34 | a data match rebuilds the query from head, groups and `)` |
| VariablesQueryParser.QueryType | src/datasource_process/variables_query_parser.ts:63-84 | fails exactly when the text is of none of the three forms, with the message that lists the three formats; `$griddb_container_list` gives GET_ALL_CONTAINERS, a column-list query GET_ALL_COLUMNS and a data query GET_DATA |
| VariablesQueryParser.GetColumns | src/datasource_process/variables_query_parser.ts:165-184 | an empty text gives no list; the list fails exactly when a `+`-separated entry is blank after trimming; otherwise the trimmed entries, without duplicates, in first-occurrence order |
| VariablesQueryParser.DistinctColumns | src/datasource_process/variables_query_parser.ts:176-183 | removing duplicates keeps every non-empty entry once, in first-occurrence order |
| VariablesQueryParser.FormsExclusive | src/datasource_process/variables_query_parser.ts:66-75 | the three forms exclude one another |
| VariablesQueryParser.ParseTrimmed | src/datasource_process/variables_query_parser.ts:92-150 | exactly `$griddb_container_list` gives CONTAINERS; the type agrees with `detectQueryType`; a data result has a non-empty trimmed container and tql and the de-duplicated trimmed columns of its match |
| VariablesQueryParser.ColumnListForm | src/datasource_process/variables_query_parser.ts:103-113 | `$griddb_column_list(w)` with w one or more word characters, surrounded by blanks, parses to COLUMNS with container w |
| VariablesQueryParser.DataForm | src/datasource_process/variables_query_parser.ts:117-145 | container before the first comma, a comma-free column segment, and the tql up to the final `)` are the groups of the match |
| VariablesQueryParser.DataErrorOrder | src/datasource_process/variables_query_parser.ts:121-137 | a blank tql is reported first, then a blank container, then blank columns |
| VariablesQueryParser.VariablesQueryParser.DetectQueryType | src/datasource_process/variables_query_parser.ts:63-84 | trims the stored query, then classifies it |
| VariablesQueryParser.VariablesQueryParser.Parse | src/datasource_process/variables_query_parser.ts:92-150 | trims the stored query and returns its parse |
| DataQueryParser.NoLineBreaksLeft | src/datasource_process/data_query_parser.ts:31 | no CR or LF is left after normalisation |
| DataQueryParser.ChosenUnique | src/datasource_process/data_query_parser.ts:15-33 | the match the engine chooses is unique |
| DataQueryParser.ContainerMatch | src/datasource_process/data_query_parser.ts:15-33 | returns the engine's choice when the pattern matches: the last `from` that can start a match (the greedy `.*` before it backs off from the end), then the longest name after it; nothing only when it does not |
| DataQueryParser.ContainerOf | src/datasource_process/data_query_parser.ts:32-41 | no match fails with `Query is wrong format`; an empty capture fails with `Cannot detect container name from query`; a name is non-empty and made of `[A-Za-z0-9_]` |
| DataQueryParser.GetContainer | src/datasource_process/data_query_parser.ts:25-44 | fails with `Query must be not empty` exactly for blank input; otherwise reads the normalised query |
| DataQueryParser.NameIsTrimmed | src/datasource_process/data_query_parser.ts:35 | the final `trim` leaves a captured name unchanged |
| DataQueryParser.LineBreaksReadAsBlank | src/datasource_process/data_query_parser.ts:31 | CRLF, a lone LF and a lone CR each read as one space |
| DataQueryParser.SameContainer | src/datasource_process/data_query_parser.ts:28-31 | queries that normalise alike give the same container |
| DataQueryCtrl.Splice | src/data_query_ctrl.ts:276-296 | `Array.splice`: the length changes by the items less the deleted count, the deleted run cut at the end of the list, and a start past the end appends |
| DataQueryCtrl.SpliceParts | src/data_query_ctrl.ts:276-296 | the part before the start is kept, the items stand at the start and the part after the deleted run follows them; a run past the end deletes to the end, and a start past the end appends |
| DataQueryCtrl.SpliceUndo | src/data_query_ctrl.ts:276-296 | deleting the items an insertion put in gives the list back |
| DataQueryCtrl.InitialSegments | src/data_query_ctrl.ts:583-596 | no entries give no segments; otherwise at least `key operator value` |
| DataQueryCtrl.ErrorSticks | src/data_query_ctrl.ts:544-571 | once the rebuild loop throws, the result stays that error |
| DataQueryCtrl.RoundTrip | src/data_query_ctrl.ts:544-596 | rebuilding the segments made from saved entries (the first without a condition, the later ones with one) gives back those entries |
| DataQueryCtrl.PlusButtonsIgnored | src/data_query_ctrl.ts:549-568 | plus buttons do not change the rebuilt entries |
| DataQueryCtrl.ConditionOpensEntry | src/data_query_ctrl.ts:549-553 | a condition segment opens a new entry holding that condition |
| DataQueryCtrl.AddEntry | src/data_query_ctrl.ts:288-298 | choosing a column on the plus button appends `[AND] key = --input value--`, which is the segment list of the entries with one more entry; no plus button follows it until the next edit |
| DataQueryCtrl.SetLastValue | src/data_query_ctrl.ts:298-300 | editing the last value sets that entry's value and appends a plus button |
| DataQueryCtrl.RemoveEntry | src/data_query_ctrl.ts:276-287 | choosing `--remove--` on entry k's key gives the segment list of the entries without entry k, still well formed |
| DataQueryCtrl.DataQueryCtrl.InitialDefaultValues | src/data_query_ctrl.ts:583-596 | the segments become `[condition] key operator value` per saved entry, the condition only when truthy |
| DataQueryCtrl.DataQueryCtrl.FixSegments | src/data_query_ctrl.ts:527-534 | afterwards the last segment is a plus button, appended only when missing |
| DataQueryCtrl.DataQueryCtrl.RebuildTargetWhereConditions | src/data_query_ctrl.ts:544-573 | the target's where entries become the rebuilt ones, or the target is kept when the loop throws |
| DataQueryCtrl.DataQueryCtrl.RemoveAt | src/data_query_ctrl.ts:276-287 | deletes the three segments at the index; an emptied list gets one plus button |
| DataQueryCtrl.DataQueryCtrl.AddAfterPlusButton | src/data_query_ctrl.ts:288-296 | the plus button becomes a key; `AND` is inserted before it past index 2, and `=` and `--input value--` are appended; the target is unchanged |
| DataQueryCtrl.DataQueryCtrl.WhereSegmentUpdated | src/data_query_ctrl.ts:272-306 | an undefined segment or a negative index fails with `Update where segment fail.` and changes nothing; otherwise the edited segments are rebuilt into the target |
| DataQueryCtrl.DataQueryCtrl.CheckIfSpecifyContainerAndTimeColumn | src/data_query_ctrl.ts:445-456 | the flag can only go from true to false: for a time series with a container and a real time column, or a table with a container |
| DataQueryCtrl.DataQueryCtrl.RevertAllValueToDefaultAfterChangeContainer | src/data_query_ctrl.ts:465-495 | every editor field is reset: limit 10000, offset 0, no where entries, a single plus segment if any segment existed |
| DataQueryFormatter.NoAliasName | src/datasource_process/res_formatter/data_query_formatter.ts:240-259 | without an alias the line is named `container.column` |
| DataQueryFormatter.AliasName | src/datasource_process/res_formatter/data_query_formatter.ts:240-259 | with an alias, every `$__container` is replaced first, then every `$__col` |
| DataQueryFormatter.PlainAlias | src/datasource_process/res_formatter/data_query_formatter.ts:240-259 | an alias without markers is the name itself |
| DataQueryFormatter.MovedLast | src/datasource_process/res_formatter/data_query_formatter.ts:304-310 | `swapObj(a, i, a.length)` moves element i to the end and keeps the others in order |
| DataQueryFormatter.IndexOfName | src/datasource_process/res_formatter/data_query_formatter.ts:272-274 | the first column with the name, or -1 when there is none |
| DataQueryFormatter.SwapAbsent | src/datasource_process/res_formatter/data_query_formatter.ts:270-290 | an absent time column leaves the response unchanged |
| DataQueryFormatter.SwapMovesLast | src/datasource_process/res_formatter/data_query_formatter.ts:270-310 | the time column moves to the end of the columns and of every full row; the rest keep their order |
| DataQueryFormatter.TimestampColumns | src/datasource_process/res_formatter/data_query_formatter.ts:40-43 | exactly the TIMESTAMP columns |
| DataQueryFormatter.RefineOne | src/datasource_process/res_formatter/data_query_formatter.ts:34-54 | a table response is untouched; an unknown format fails with `Cannot detect format of data` |
| DataQueryFormatter.Refine | src/datasource_process/res_formatter/data_query_formatter.ts:34-54 | each response is refined by its own format; the first failure is reported |
| DataQueryFormatter.ConvertToTimeSeriesData | src/datasource_process/res_formatter/data_query_formatter.ts:130-158 | the loop builds the series of the time-series specification |
| DataQueryFormatter.SeriesShape | src/datasource_process/res_formatter/data_query_formatter.ts:130-158 | with at least 2 columns and a first row of 2 cells: columns-1 series, one point per row, pairing the cell with the time in the last column |
| DataQueryFormatter.ConvertToTableData | src/datasource_process/res_formatter/data_query_formatter.ts:197-212 | one header per column; each row cut to its first `columns.length` cells |
| DataQueryFormatter.Format | src/datasource_process/res_formatter/data_query_formatter.ts:71-95 | the loop over the responses builds the formatted list of the specification |
| DataQueryFormatter.FailureSticks | src/datasource_process/res_formatter/data_query_formatter.ts:71-95 | once a response throws, `format` throws that |
| DataQueryFormatter.RowlessAddNothing | src/datasource_process/res_formatter/data_query_formatter.ts:83-91 | responses without rows add nothing |
| DataQueryFormatter.UnknownFormatThrows | src/datasource_process/res_formatter/data_query_formatter.ts:83-91 | a response with rows and an unknown format makes `format` throw |
| AnnotationQueryFormatter.LastIndexOf | src/datasource_process/res_formatter/annotation_query_formatter.ts:77-186 | each index is the last column whose name matches exactly, or none |
| AnnotationQueryFormatter.TagNamesWithoutSpaces | src/datasource_process/res_formatter/annotation_query_formatter.ts:91 | the tag names are `tagsColumn` with its spaces removed, split on commas |
| AnnotationQueryFormatter.TagIndices | src/datasource_process/res_formatter/annotation_query_formatter.ts:91-94 | exactly the columns named as tags, in increasing column order |
| AnnotationQueryFormatter.RowTagsAreTaggedCells | src/datasource_process/res_formatter/annotation_query_formatter.ts:114-125 | every tag is the text of a truthy cell of a tag column |
| AnnotationQueryFormatter.RegionEventsPaired | src/datasource_process/res_formatter/annotation_query_formatter.ts:190-224 | each region row gives a start and an end event, next to each other, sharing a region id; no other events |
| Js.AstralBelowLastBmp | src/datasource_process/res_formatter/annotation_query_formatter.ts:192 | `<` on strings compares UTF-16 code units: U+1F600 is two units and sorts below U+FFFF |
| AnnotationQueryFormatter.SameColumnNoRegions | src/datasource_process/res_formatter/annotation_query_formatter.ts:192 | with start and end in the same column no row is a region |
| AnnotationQueryFormatter.AnnotationQueryFormatter.FindColumns | src/datasource_process/res_formatter/annotation_query_formatter.ts:77-186 | the column loop ends with the last-match indices and the ordered tag indices |
| AnnotationQueryFormatter.AnnotationQueryFormatter.TagsOfRow | src/datasource_process/res_formatter/annotation_query_formatter.ts:114-125 | the split-and-rejoin on commas leaves each tag text unchanged |
| AnnotationQueryFormatter.AnnotationQueryFormatter.GetNormalAnnotation | src/datasource_process/res_formatter/annotation_query_formatter.ts:65-133 | exactly one point event per row, with its time, tags and text (`''` for a falsy text cell) |
| AnnotationQueryFormatter.AnnotationQueryFormatter.GetRegionsAnnotation | src/datasource_process/res_formatter/annotation_query_formatter.ts:142-227 | a start and an end event with region id = row index for each row whose start is below its end |
| AnnotationQueryFormatter.AnnotationQueryFormatter.GetAnnotations | src/datasource_process/res_formatter/annotation_query_formatter.ts:49-56 | regions mode gives the region events, normal mode the point events |
| VariablesQueryFormatter.AddUnique | src/datasource_process/res_formatter/variables_query_formatter.ts:148-150 | `object[value] = value` adds the value's text to the keys, each kept under its own text |
| VariablesQueryFormatter.OptionsOf | src/datasource_process/res_formatter/variables_query_formatter.ts:62-64 | one option per key, each text once |
| VariablesQueryFormatter.CollectUnique | src/datasource_process/res_formatter/variables_query_formatter.ts:58-60 | the keys are exactly the texts of the values |
| VariablesQueryFormatter.UniqueOptions | src/datasource_process/res_formatter/variables_query_formatter.ts:56-64 | each distinct value appears exactly once, as its text |
| VariablesQueryFormatter.GetOptionsForDataQuery | src/datasource_process/res_formatter/variables_query_formatter.ts:50-65 | missing result, columns or rows give nothing; otherwise the distinct first cells of the rows |
| VariablesQueryFormatter.GetOptionsForContainersQuery | src/datasource_process/res_formatter/variables_query_formatter.ts:85-100 | missing or empty names give nothing; otherwise the distinct trimmed names |
| VariablesQueryFormatter.GetOptionsForColumnsQuery | src/datasource_process/res_formatter/variables_query_formatter.ts:126-140 | missing or empty columns give nothing; otherwise the distinct trimmed column names |
| VariablesQueryFormatter.Format | src/datasource_process/res_formatter/variables_query_formatter.ts:21-43 | an unknown query type gives nothing; each known type uses its own response shape |
| QueryPartUtil.ConvertToWhereCondition | src/query_part/query_part_util.ts:18-28 | `{text: name, value: name}` per column in order; undefined or empty input gives [] |
| QueryPartUtil.CreateDataForViewCol | src/query_part/query_part_util.ts:38-56 | All/`$__all` first, then one unselected option per column; multi and include-all; empty input gives `{}` |
| QueryPartUtil.NumericColumnNames | src/query_part/query_part_util.ts:68-85 | exactly the names of BYTE, SHORT, INTEGER, LONG, FLOAT and DOUBLE columns |
| QueryPartUtil.GetViewColListInTimeSeries | src/query_part/query_part_util.ts:68-85 | the numeric columns' names in order; undefined or empty input gives [] |
| QueryPartUtil.ConvertToSegmentFormat | src/query_part/query_part_util.ts:95-105 | same length and order, `fake: false` on every element |
| QueryPartUtil.ConvertListContainerToObject | src/query_part/query_part_util.ts:115-125 | `{text, value}` per name in order; empty input gives [] |
| Datasource.IsValidQuery | src/datasource.ts:694-741 | hidden is invalid; raw is valid exactly when its query is non-blank; select-box needs a container, a real time column and view columns for a time series, a chosen container for a table; COLLECTION (any case) with sampling throws |
| Datasource.ValidTargets | src/datasource.ts:144 | the filter keeps at most all targets |
| Datasource.ValidTargetsFailure | src/datasource.ts:144 | the filter throws exactly when some target throws |
| Datasource.ValidTargetsKept | src/datasource.ts:144 | the filter keeps exactly the valid targets |
| Datasource.HiddenNeverSent | src/datasource.ts:697-699 | a hidden target is never sent |
| Datasource.ViewColumns | src/datasource.ts:191-198 | a time-series target gets its time column appended when absent; other columns are kept |
| Datasource.FormatOf | src/datasource.ts:202-209 | the format note carries mode and format, and the time column except for a raw query |
| Datasource.ReplaceDataOf | src/datasource.ts:162-172 | a raw target gives `replace` an empty time-column list |
| Datasource.BodyOf | src/datasource.ts:211-215 | `columns` is `null` exactly for a raw target; a select-box time series names its time column |
| Datasource.TargetRequest | src/datasource.ts:152-218 | a target without a time column throws; every request built follows its target |
| Datasource.QueriedTargets | src/datasource.ts:141-222 | each request `query` builds belongs to a valid, visible target and follows it |
| Datasource.TagColumns | src/datasource.ts:666-671 | blank tags give none; otherwise the comma-split parts, each trimmed |
| Datasource.SelectedFields | src/datasource.ts:651-679 | start (or time), text and end when set, then the tags, each once, in order of first mention |
| Datasource.FieldsOfRegion | src/datasource.ts:651-679 | a regions request names its start column first, and its end column |
| Datasource.AnnotationCheck | src/datasource.ts:323-365 | rejects in order: missing query, missing container, missing time column (normal), missing start, missing end, start equal to end; passes otherwise |
| Datasource.AnnotationFields | src/datasource.ts:387-393 | a normal request names its time column first; no column twice |
| Datasource.AnnotationRequest | src/datasource.ts:307-398 | a failed check is the rejection; a request names the container and the selected fields |
| Datasource.CheckTimestamp | src/datasource.ts:414-449 | fails with the absent message when no column has the name, with the not-TIMESTAMP message when the first such column is not TIMESTAMP (any case) |
| Datasource.AnnotationResponseCheck | src/datasource.ts:401-460 | the response passes exactly when it has columns, the time columns are TIMESTAMP columns and it holds a row |
| Datasource.Datasource.FilterValid | src/datasource.ts:144 | the filter loop computes the valid targets or the first exception |
| Datasource.Datasource.PrepareTarget | src/datasource.ts:152-218 | one target's request as specified, with the sampling cursor carried through its two `replace` calls |
| Datasource.Datasource.PrepareAll | src/datasource.ts:152-218 | the requests of the targets in order, or the first exception |
| Datasource.Datasource.Query | src/datasource.ts:141-222 | an exception from the filter escapes; no valid target gives nothing to send; otherwise the requests of the valid targets |
| Datasource.Datasource.AnnotationQuery | src/datasource.ts:307-398 | the checks, the `replace` of the query, and the request body, as specified |

## Left out

- HTTP and promises are not modelled: `_griddbRequest`, the URL rotation,
  `testDatasource`, `metricFindQuery`, `getContainerList`, `getColumnList` and
  src/datasource_process/griddb_api.ts. `Datasource.Query` and
  `Datasource.AnnotationQuery` stop at the request. The response side is
  modelled by the formatters and by `Datasource.AnnotationResponseCheck`.
- Grafana's `templateSrv.replace` is a function parameter. For the user
  variables it is the optional `custom` of `ReplaceData`; for the container
  name in `query` it is `templateReplace`.
- Dates: `moment` formatting (`convertGrafanaTimeToGridDBTimestamp`) and
  `new Date(…).getTime()` are not modelled. The range arrives as
  already-formatted stamps, and the time conversion is a `toEpoch` parameter.
- JavaScript number coercion is restricted to an optional sign and digits; any
  other text is `NaN`. Floating-point durations such as `1.5s` are not
  modelled.
- GridDBQuery.LimitCommand: the limit and offset are integers. The source
  prints them as they were entered (`' LIMIT ' + griddbLimit`,
  src/query_part/griddb_query.ts:150-163), so a limit such as `10.5` or `1e3`,
  which passes the `isNaN(Number(…))` guard, is not modelled.
- Js.Cell: a numeric cell holds an integer; FLOAT and DOUBLE values such as
  `23.5` are not modelled. For such cells the model does not cover the
  `'' + value` tag and text strings of `AnnotationQueryFormatter`
  (src/datasource_process/res_formatter/annotation_query_formatter.ts:120-126),
  its `<` region test (:192), or the option text of a DOUBLE first column in
  `VariablesQueryFormatter`
  (src/datasource_process/res_formatter/variables_query_formatter.ts:63).
- TemplateProcessor.SamplingExec: positions and lengths count characters,
  where JavaScript's `lastIndex` counts UTF-16 code units. A character above
  U+FFFF counts once here and twice in the source. So when such characters
  stand before a macro, the cursor left by one query and applied to the next
  (src/datasource_process/template_processor.ts:189 and :206), and with it
  the `|q2| <= lastIndex` threshold of `TemplateProcessor.StaleCursor`, can
  differ from the source. The string order `Js.StringLess` does use code
  units.
- Replacement strings are inserted literally; the `$&` and `$'` patterns of
  `String.replace` are not modelled.
- VariablesQueryFormatter.OptionsOf: the order of the options is left open,
  because JavaScript objects list integer-like keys first. Only that each text
  appears once is stated.
- The `uiSegmentSrv` factories, `panelCtrl.refresh`, the `QueryCtrl` base
  class, the editor's constructors and its option getters are not modelled:
  `getWhereOption`, `getContainers`, `getColumns`, `updateColumnList`,
  `getGriDBVariable`, `updateViewCol`, `onChangeContainer`, `onChangeColumn`,
  `toggleEditorMode` and `getCollapsedText`. Segments are plain
  `{kind, value}` records.
- DataQueryCtrl.DataQueryCtrl.WhereSegmentUpdated: requires the index to be
  below the number of segments, so an edit past the end of the list (which
  JavaScript turns into holes) is not modelled.
- DataQueryCtrl.DataQueryCtrl.CheckIfSpecifyContainerAndTimeColumn: a target
  whose time column is undefined is treated as having no time column, where
  JavaScript would throw a `TypeError`. Elsewhere such engine errors are failures with a fixed message
  (`Datasource.UndefinedTimeColumnMessage`, `DataQueryCtrl.UndefinedEntryMessage`).
- Strings.ToUpper: folds ASCII letters only. JavaScript's `toUpperCase` also
  maps letters such as `ı` to `I`, `ſ` to `S` and `ﬆ` to `ST` (which changes
  the length). So for such texts `Datasource.IsValidQuery`, through its
  COLLECTION test `Datasource.SamplesCollection` (src/datasource.ts:710), and
  `Datasource.CheckTimestamp` (src/datasource.ts:421-444) can differ from the
  source. The results of
  `Strings.ToLower` are only compared with ASCII words (`null`, `true`,
  `false` and the keywords of the container pattern), where it is exact.
- VariablesQueryFormatter.AddUnique: `object[value] = value`
  (src/datasource_process/res_formatter/variables_query_formatter.ts:149)
  creates no key for the value `__proto__`, which sets the object's prototype
  instead, so the source's options lack that value; `AddUnique` keeps it.
- The `annotation` back-reference on each annotation event is not kept.
- src/module.ts and src/config_ctrl.ts are not part of this model; their only
  relevant content is the `1s` default minimum interval. The sample Java
  generators and the build configuration are not part of it either.
- src/util/griddb_constant.ts is transcribed as constants in `Constants`.

## Findings

| source | as written | input that shows it | evidently intended | confidence | as-written member | corrected member |
|---|---|---|---|---|---|---|
| src/datasource_process/template_processor.ts:189-206 | after each `query.replace`, the global `TIME_SAMPLING_REGEX.exec` resumes at the `lastIndex` of the previous match in the rewritten text | `$__timeSampling(c,1d` followed by 30 blanks, `)`, then `$__timeSampling(d,1d)`: the first `TIME_SAMPLING(…)` is shorter than the macro it replaces, so the search starts past the second macro, which stays in the statement | every `$__timeSampling` macro is expanded | not executed | TemplateProcessor.ShrunkMacroSkipsNext | TemplateProcessor.SamplingRewrite |
| src/datasource_process/template_processor.ts:187-209 | when a duration cannot be read, the loop throws with `lastIndex` left at the end of the failing macro, and the processor lives as long as the datasource | `$__timeSampling(c,3x)` fails with the cursor at 21; the next query `$__timeSampling(c,1d)`, 21 characters long, comes back with its macro unexpanded | each call searches the query from its start | not executed | TemplateProcessor.StaleCursor | TemplateProcessor.SamplingRewrite |
