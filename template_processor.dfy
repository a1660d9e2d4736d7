/**
 * The macro and special-variable expander: `$__timeFilter`, `$__rangeFilter`,
 * the `$__timeSampling(column, duration)` rewrite, `$__interval`,
 * `$__minInterval`, `$__timeFrom`, `$__timeTo`, and the interpolation of
 * multi-valued template variables.
 */
module TemplateProcessor {

  import opened Wrappers
  import opened Strings
  import opened Js
  import Constants
  import GridDBQuery

  // ----- $__timeFilter and $__rangeFilter -----

  /** The expansion of `$__timeFilter` for one time column. */
  function TimeFilterText(timeColumn: string): string {
    "(" + timeColumn + " > $__timeFrom AND " + timeColumn + " < $__timeTo)"
  }

  /** `formatTimeFilterMacro`: every `$__timeFilter` is replaced, and the
      text between occurrences is kept. */
  function FormatTimeFilterMacro(query: string, timeColumn: string): (r: string)
    ensures r == Join(Split(query, "$__timeFilter"), TimeFilterText(timeColumn))
    ensures !Contains(query, "$__timeFilter") ==> r == query
  {
    ReplaceAllIsSplitJoin(query, "$__timeFilter", TimeFilterText(timeColumn));
    if !Contains(query, "$__timeFilter") then
      ReplaceAllAbsent(query, "$__timeFilter", TimeFilterText(timeColumn));
      ReplaceAll(query, "$__timeFilter", TimeFilterText(timeColumn))
    else ReplaceAll(query, "$__timeFilter", TimeFilterText(timeColumn))
  }

  /** The macro expands to the very condition the query builder adds for a
      chosen time column. */
  lemma TimeFilterMatchesBuilder(timeColumn: string)
    ensures FormatTimeFilterMacro("$__timeFilter", timeColumn) == GridDBQuery.TimeFilterClause(timeColumn)
  {
    var pat := "$__timeFilter";
    assert OccursAt(pat, pat, 0);
    assert pat == [] + pat + [];
    assert Split(pat, pat) == ["", ""] by {
      assert pat[..|pat|] == pat;
      assert pat[|pat|..] == [];
    }
  }

  /** The expansion of `$__rangeFilter` for a start and an end column. */
  function TimeRangeText(startTime: string, endTime: string): string {
    "((" + startTime + " >= $__timeFrom AND " + startTime + " <= $__timeTo) OR ("
      + endTime + " >= $__timeFrom AND " + endTime + " <= $__timeTo))"
  }

  /** `formatTimeRangeMacro`: only when both columns are named. */
  function FormatTimeRangeMacro(query: string, startTime: string, endTime: string): (r: string)
    ensures startTime != "" && endTime != "" ==>
      r == Join(Split(query, "$__rangeFilter"), TimeRangeText(startTime, endTime))
    ensures startTime == "" || endTime == "" || !Contains(query, "$__rangeFilter") ==> r == query
  {
    if startTime != "" && endTime != "" then
      var dump := TimeRangeText(startTime, endTime);
      ReplaceAllIsSplitJoin(query, "$__rangeFilter", dump);
      if !Contains(query, "$__rangeFilter") then
        ReplaceAllAbsent(query, "$__rangeFilter", dump);
        ReplaceAll(query, "$__rangeFilter", dump)
      else ReplaceAll(query, "$__rangeFilter", dump)
    else query
  }

  // ----- Grafana durations -----

  /** `[0-9]+ms` somewhere in the text (the pattern is not anchored). */
  predicate HasMillisecondSuffix(time: string) {
    exists i: nat | 1 <= i && i + 2 <= |time| :: IsDigit(time[i - 1]) && time[i] == 'm' && time[i + 1] == 's'
  }

  /** `[0-9]+u$`: the text ends with a digit and then the unit. */
  predicate EndsWithUnit(time: string, unit: char) {
    |time| >= 2 && time[|time| - 1] == unit && IsDigit(time[|time| - 2])
  }

  /** The units a Grafana duration can carry. */
  const GrafanaUnits: set<string> := {"ms", "s", "m", "h", "d", "w", "M", "y"}

  /** `getGrafanaTimeType`: the first unit whose pattern matches, tried in
      the order ms, s, m, h, d, w, M, y. */
  function GrafanaTimeType(time: string): (r: Result<string>)
    ensures r.Success? ==> |r.value| <= |time|
    ensures r.Success? ==> r.value == "" || r.value in GrafanaUnits
    ensures r.Success? && r.value == "" <==> time == ""
    ensures r.Success? ==> (r.value in GrafanaUnits <==> time != "")
    ensures r.Failure? ==> r.error == "Cannot detect format of grafana time"
  {
    if time == "" then Success("")
    else if HasMillisecondSuffix(time) then Success(Constants.UNIT_MILLISECOND)
    else if EndsWithUnit(time, 's') then Success(Constants.UNIT_SECONDS)
    else if EndsWithUnit(time, 'm') then Success(Constants.UNIT_MINUTES)
    else if EndsWithUnit(time, 'h') then Success(Constants.UNIT_HOURS)
    else if EndsWithUnit(time, 'd') then Success(Constants.UNIT_DAYS)
    else if EndsWithUnit(time, 'w') then Success(Constants.UNIT_WEEKS)
    else if EndsWithUnit(time, 'M') then Success(Constants.UNIT_MONTHS)
    else if EndsWithUnit(time, 'y') then Success(Constants.UNIT_YEARS)
    else Failure("Cannot detect format of grafana time")
  }

  /** The units of a TIME_SAMPLING interval; the empty unit is what an
      empty duration converts to. */
  const SamplingUnits: set<string> := {Constants.DAY, Constants.HOUR, Constants.MINUTE, Constants.SECOND, Constants.MILLISECOND, ""}

  /** A TIME_SAMPLING interval `{value, type}`. */
  datatype SamplingInterval = SamplingInterval(value: int, unit: string)

  /** `convertTimeInTimeSampling`: weeks, months and years are counted in
      days; a prefix that is not a number counts as 0. */
  function ConvertTimeInTimeSampling(time: string): (r: Result<SamplingInterval>)
    ensures r.Success? <==> GrafanaTimeType(time).Success?
    ensures r.Success? ==> r.value.unit in SamplingUnits
    ensures r.Success? ==> (r.value.unit == "" <==> time == "")
  {
    var timeType :- GrafanaTimeType(time);
    Success(SamplingOf(time, timeType))
  }

  /** The interval of `time` once its unit `timeType` is detected: the
      number before the unit, in that unit. */
  function SamplingOf(time: string, timeType: string): (r: SamplingInterval)
    requires |timeType| <= |time|
    ensures r.unit in SamplingUnits
    ensures r.unit == "" <==> timeType !in GrafanaUnits
  {
    var n := ToNumber(Trim(time[..|time| - |timeType|]));
    IntervalOf(if n.Int? then n.i else 0, timeType)
  }

  /** The interval of `value` units of a Grafana unit. */
  function IntervalOf(value: int, timeType: string): (r: SamplingInterval)
    ensures r.unit in SamplingUnits
    ensures r.unit == "" <==> timeType !in GrafanaUnits
  {
    if timeType == Constants.UNIT_YEARS then SamplingInterval(value * 365, Constants.DAY)
    else if timeType == Constants.UNIT_MONTHS then SamplingInterval(value * 30, Constants.DAY)
    else if timeType == Constants.UNIT_WEEKS then SamplingInterval(value * 7, Constants.DAY)
    else if timeType == Constants.UNIT_DAYS then SamplingInterval(value, Constants.DAY)
    else if timeType == Constants.UNIT_HOURS then SamplingInterval(value, Constants.HOUR)
    else if timeType == Constants.UNIT_MINUTES then SamplingInterval(value, Constants.MINUTE)
    else if timeType == Constants.UNIT_SECONDS then SamplingInterval(value, Constants.SECOND)
    else if timeType == Constants.UNIT_MILLISECOND then SamplingInterval(value, Constants.MILLISECOND)
    else SamplingInterval(value, "")
  }

  function Times(n: Number, k: int): Number {
    match n
    case NaN => NaN
    case Int(i) => Int(i * k)
  }

  /** `convertTimeToMillisecond`: ms, s, m, h and d are converted; the
      empty text and the units w, M and y give -1. */
  function ConvertTimeToMillisecond(time: string): (r: Result<Number>)
    ensures r.Success? <==> GrafanaTimeType(time).Success?
  {
    var timeType :- GrafanaTimeType(time);
    if time == "" then Success(Int(-1))
    else if timeType == Constants.UNIT_MILLISECOND then Success(ToNumber(time[..|time| - 2]))
    else Success(Scaled(ToNumber(if |time| > 1 then time[..|time| - 1] else ""), timeType))
  }

  /** A number of seconds, minutes, hours or days in milliseconds; -1 for
      any other unit. */
  function Scaled(n: Number, timeType: string): Number {
    if timeType == Constants.UNIT_SECONDS then Times(n, 1000)
    else if timeType == Constants.UNIT_MINUTES then Times(n, 60 * 1000)
    else if timeType == Constants.UNIT_HOURS then Times(n, 60 * 60 * 1000)
    else if timeType == Constants.UNIT_DAYS then Times(n, 24 * 60 * 60 * 1000)
    else Int(-1)
  }

  /** The one-letter units: seconds, minutes, hours, days, weeks, months
      and years. */
  predicate IsUnitLetter(u: char) {
    u == 's' || u == 'm' || u == 'h' || u == 'd' || u == 'w' || u == 'M' || u == 'y'
  }

  /** The unit of a run of digits followed by one unit letter. */
  lemma {:induction false} UnitOfDigits(d: string, u: char)
    requires d != [] && AllDigits(d)
    requires IsUnitLetter(u)
    ensures GrafanaTimeType(d + [u]) == Success([u])
  {
    var time := d + [u];
    assert time[|time| - 1] == u && time[|time| - 2] == d[|d| - 1];
    assert !HasMillisecondSuffix(time) by {
      forall i: nat | 1 <= i && i + 2 <= |time| ensures !(time[i] == 'm' && time[i + 1] == 's') {
        assert time[i] == d[i];
      }
    }
  }

  /** A run of digits followed by `ms` is in milliseconds. */
  lemma MillisecondsOfDigits(d: string)
    requires d != [] && AllDigits(d)
    ensures GrafanaTimeType(d + "ms") == Success("ms")
  {
    var time := d + "ms";
    assert IsDigit(time[|d| - 1]) && time[|d|] == 'm' && time[|d| + 1] == 's';
  }

  lemma DigitsPrefix(d: string, suffix: string)
    requires d != [] && AllDigits(d)
    ensures (d + suffix)[..|d|] == d
    ensures Trim(d) == d
    ensures ToNumber(d) == Int(DigitsValue(d))
  {
    assert !IsSpace(d[0]) && !IsSpace(d[|d| - 1]);
  }

  /** Digits followed by a recognised unit: the digits are the value. */
  lemma SamplingOfDigits(d: string, unit: string)
    requires d != [] && AllDigits(d)
    requires GrafanaTimeType(d + unit) == Success(unit)
    ensures ConvertTimeInTimeSampling(d + unit) == Success(IntervalOf(DigitsValue(d), unit))
  {
    DigitsBeforeUnit(d, unit);
  }

  /** Once the unit is split off, the digits before it are the value. */
  lemma DigitsBeforeUnit(d: string, unit: string)
    requires d != [] && AllDigits(d)
    ensures SamplingOf(d + unit, unit) == IntervalOf(DigitsValue(d), unit)
  {
    var time := d + unit;
    DigitsPrefix(d, unit);
    assert time[..|time| - |unit|] == d;
  }

  /** The interval of each unit. */
  lemma IntervalTable(v: int)
    ensures IntervalOf(v, "y") == SamplingInterval(v * 365, "DAY")
    ensures IntervalOf(v, "M") == SamplingInterval(v * 30, "DAY")
    ensures IntervalOf(v, "w") == SamplingInterval(v * 7, "DAY")
    ensures IntervalOf(v, "d") == SamplingInterval(v, "DAY")
    ensures IntervalOf(v, "h") == SamplingInterval(v, "HOUR")
    ensures IntervalOf(v, "m") == SamplingInterval(v, "MINUTE")
    ensures IntervalOf(v, "s") == SamplingInterval(v, "SECOND")
    ensures IntervalOf(v, "ms") == SamplingInterval(v, "MILLISECOND")
  {
  }

  /** Digits followed by a one-letter unit. */
  lemma SamplingOfLetter(d: string, u: char)
    requires d != [] && AllDigits(d)
    requires IsUnitLetter(u)
    ensures ConvertTimeInTimeSampling(d + [u]) == Success(IntervalOf(DigitsValue(d), [u]))
  {
    UnitOfDigits(d, u);
    SamplingOfDigits(d, [u]);
  }

  /** Digits followed by a unit convert to the TIME_SAMPLING interval:
      years, months and weeks become 365, 30 and 7 days, every other unit
      keeps the value. */
  lemma SamplingUnitTable(d: string)
    requires d != [] && AllDigits(d)
    ensures ConvertTimeInTimeSampling(d + "y") == Success(SamplingInterval(DigitsValue(d) * 365, "DAY"))
    ensures ConvertTimeInTimeSampling(d + "M") == Success(SamplingInterval(DigitsValue(d) * 30, "DAY"))
    ensures ConvertTimeInTimeSampling(d + "w") == Success(SamplingInterval(DigitsValue(d) * 7, "DAY"))
    ensures ConvertTimeInTimeSampling(d + "d") == Success(SamplingInterval(DigitsValue(d), "DAY"))
    ensures ConvertTimeInTimeSampling(d + "h") == Success(SamplingInterval(DigitsValue(d), "HOUR"))
    ensures ConvertTimeInTimeSampling(d + "m") == Success(SamplingInterval(DigitsValue(d), "MINUTE"))
    ensures ConvertTimeInTimeSampling(d + "s") == Success(SamplingInterval(DigitsValue(d), "SECOND"))
    ensures ConvertTimeInTimeSampling(d + "ms") == Success(SamplingInterval(DigitsValue(d), "MILLISECOND"))
  {
    IntervalTable(DigitsValue(d));
    SamplingOfLetter(d, 'y');
    SamplingOfLetter(d, 'M');
    SamplingOfLetter(d, 'w');
    SamplingOfLetter(d, 'd');
    SamplingOfLetter(d, 'h');
    SamplingOfLetter(d, 'm');
    SamplingOfLetter(d, 's');
    MillisecondsOfDigits(d);
    SamplingOfDigits(d, "ms");
  }

  lemma ScaledTable(v: int)
    ensures Scaled(Int(v), "s") == Int(v * 1000)
    ensures Scaled(Int(v), "m") == Int(v * 60000)
    ensures Scaled(Int(v), "h") == Int(v * 3600000)
    ensures Scaled(Int(v), "d") == Int(v * 86400000)
    ensures Scaled(Int(v), "w") == Int(-1)
    ensures Scaled(Int(v), "M") == Int(-1)
    ensures Scaled(Int(v), "y") == Int(-1)
  {
  }

  /** Digits followed by a one-letter unit, in milliseconds. */
  lemma MillisecondsOfLetter(d: string, u: char)
    requires d != [] && AllDigits(d)
    requires IsUnitLetter(u)
    ensures ConvertTimeToMillisecond(d + [u]) == Success(Scaled(Int(DigitsValue(d)), [u]))
  {
    UnitOfDigits(d, u);
    DigitsPrefix(d, [u]);
  }

  /** Digits followed by a unit, in milliseconds; weeks, months, years and
      the empty text give -1. */
  lemma MillisecondTable(d: string)
    requires d != [] && AllDigits(d)
    ensures ConvertTimeToMillisecond(d + "ms") == Success(Int(DigitsValue(d)))
    ensures ConvertTimeToMillisecond(d + "s") == Success(Int(DigitsValue(d) * 1000))
    ensures ConvertTimeToMillisecond(d + "m") == Success(Int(DigitsValue(d) * 60000))
    ensures ConvertTimeToMillisecond(d + "h") == Success(Int(DigitsValue(d) * 3600000))
    ensures ConvertTimeToMillisecond(d + "d") == Success(Int(DigitsValue(d) * 86400000))
    ensures ConvertTimeToMillisecond(d + "w") == Success(Int(-1))
    ensures ConvertTimeToMillisecond(d + "M") == Success(Int(-1))
    ensures ConvertTimeToMillisecond(d + "y") == Success(Int(-1))
    ensures ConvertTimeToMillisecond("") == Success(Int(-1))
  {
    ScaledTable(DigitsValue(d));
    MillisecondsOfLetter(d, 's');
    MillisecondsOfLetter(d, 'm');
    MillisecondsOfLetter(d, 'h');
    MillisecondsOfLetter(d, 'd');
    MillisecondsOfLetter(d, 'w');
    MillisecondsOfLetter(d, 'M');
    MillisecondsOfLetter(d, 'y');
    MillisecondsOfDigits(d);
    DigitsPrefix(d, "ms");
    assert (d + "ms")[..|d + "ms"| - 2] == d;
  }

  // ----- $__timeSampling: the regular expression -----

  /** The characters `[^(),]` refuses. */
  predicate IsSamplingDelim(c: char) {
    c == '(' || c == ')' || c == ','
  }

  /** A non-empty run of `[^(),]`, as each group of the pattern captures. */
  predicate IsArgument(x: string) {
    x != [] && forall i :: 0 <= i < |x| ==> !IsSamplingDelim(x[i])
  }

  /** The first `(`, `)` or `,` at or after `i`. */
  function FirstDelim(s: string, i: nat): (r: Option<nat>)
    ensures r.Some? ==> i <= r.value < |s| && IsSamplingDelim(s[r.value])
    ensures r.Some? ==> forall k :: i <= k < r.value ==> !IsSamplingDelim(s[k])
    ensures r.None? ==> forall k :: i <= k < |s| ==> !IsSamplingDelim(s[k])
    decreases |s| - i
  {
    if i >= |s| then None
    else if IsSamplingDelim(s[i]) then Some(i)
    else FirstDelim(s, i + 1)
  }

  lemma {:induction false} FirstDelimAt(s: string, i: nat, j: nat)
    requires i <= j < |s| && IsSamplingDelim(s[j])
    requires forall k :: i <= k < j ==> !IsSamplingDelim(s[k])
    ensures FirstDelim(s, i) == Some(j)
    decreases j - i
  {
    if i < j {
      FirstDelimAt(s, i + 1, j);
    }
  }

  const SamplingHead: string := "$__timeSampling("

  /** A match of `TIME_SAMPLING_REGEX`: where it starts, its two groups and
      where it ends. */
  datatype SamplingMatch = SamplingMatch(start: nat, column: string, time: string, end: nat)

  /** The text such a match covers. */
  function MatchText(column: string, time: string): string {
    SamplingHead + column + "," + time + ")"
  }

  /** The match of `\$__timeSampling\(([^(),]+),([^(),]+)\)` at `p`, if any.
      Each group is greedy and may not contain its own terminator, so a
      match is decided by the first delimiter after each group. */
  function MatchAt(s: string, p: nat): (r: Option<SamplingMatch>)
    ensures r.Some? ==> r.value.start == p && p + |MatchText(r.value.column, r.value.time)| == r.value.end <= |s|
    ensures r.Some? ==> s[p..r.value.end] == MatchText(r.value.column, r.value.time)
    ensures r.Some? ==> IsArgument(r.value.column) && IsArgument(r.value.time)
  {
    if !OccursAt(s, SamplingHead, p) then None
    else
      var q := p + |SamplingHead|;
      match FirstDelim(s, q)
      case None => None
      case Some(k) =>
        if k == q || s[k] != ',' then None
        else match FirstDelim(s, k + 1)
          case None => None
          case Some(k2) =>
            if k2 == k + 1 || s[k2] != ')' then None
            else
              assert s[p..k2 + 1] == s[p..q] + s[q..k] + [s[k]] + s[k + 1..k2] + [s[k2]];
              Some(SamplingMatch(p, s[q..k], s[k + 1..k2], k2 + 1))
  }

  lemma MatchTextParts(column: string, time: string)
    ensures var text := MatchText(column, time);
      var k := |SamplingHead| + |column|;
      && |text| == k + |time| + 2
      && text[..|SamplingHead|] == SamplingHead
      && text[|SamplingHead|..k] == column
      && text[k] == ','
      && text[k + 1..k + 1 + |time|] == time
      && text[k + 1 + |time|] == ')'
  {
  }

  /** The pieces of the macro text where it stands in `s`. */
  lemma MacroPieces(s: string, p: nat, column: string, time: string)
    requires OccursAt(s, MatchText(column, time), p)
    ensures OccursAt(s, SamplingHead, p)
    ensures s[p + 16..p + 16 + |column|] == column
    ensures s[p + 16 + |column|] == ','
    ensures s[p + 17 + |column|..p + 17 + |column| + |time|] == time
    ensures s[p + 17 + |column| + |time|] == ')'
  {
    var text := MatchText(column, time);
    HeadLength();
    MatchTextParts(column, time);
    var k := 16 + |column|;
    PieceAt(s, p, text, 0, 16);
    PieceAt(s, p, text, 16, k);
    assert text[16..k] == column;
    PieceAt(s, p, text, k + 1, k + 1 + |time|);
    assert text[k + 1..k + 1 + |time|] == time;
    PieceAt(s, p, text, k, k + 1);
    PieceAt(s, p, text, k + 1 + |time|, k + 2 + |time|);
  }

  lemma HeadLength()
    ensures |SamplingHead| == 16
  {
  }

  /** A piece of a text that stands at `p` stands at the shifted place. */
  lemma PieceAt(s: string, p: nat, text: string, a: nat, b: nat)
    requires OccursAt(s, text, p) && a <= b <= |text|
    ensures s[p + a..p + b] == text[a..b]
    ensures a < b ==> s[p + a] == text[a]
  {
    SliceOfSlice(s, p, p + |text|, a, b);
  }

  /** Conversely, wherever the macro text stands, it is matched. */
  lemma MatchAtComplete(s: string, p: nat, column: string, time: string)
    requires IsArgument(column) && IsArgument(time)
    requires OccursAt(s, MatchText(column, time), p)
    ensures MatchAt(s, p) == Some(SamplingMatch(p, column, time, p + |MatchText(column, time)|))
  {
    MacroPieces(s, p, column, time);
    FirstDelimAt(s, p + 16, p + 16 + |column|);
    FirstDelimAt(s, p + 17 + |column|, p + 17 + |column| + |time|);
  }

  /** `TIME_SAMPLING_REGEX.exec(s)` with `lastIndex == from`: the leftmost
      match starting at or after `from`; none once `from` is past the end. */
  function SamplingExec(s: string, from: nat): (r: Option<SamplingMatch>)
    ensures r.Some? ==> from <= r.value.start && MatchAt(s, r.value.start) == r
    ensures r.Some? ==> forall p: nat :: from <= p < r.value.start ==> MatchAt(s, p).None?
    ensures r.None? ==> forall p: nat :: from <= p ==> MatchAt(s, p).None?
    decreases |s| + 1 - from
  {
    if from > |s| then None
    else if MatchAt(s, from).Some? then MatchAt(s, from)
    else SamplingExec(s, from + 1)
  }

  // ----- counting macros -----

  /** The number of `p`s in a text. Each macro name holds one, the call text
      that replaces it holds none of its own, and the arguments carry theirs
      over, so every rewrite lowers it. */
  function Marks(s: string): nat
    decreases |s|
  {
    if s == [] then 0 else Marks(s[..|s| - 1]) + (if s[|s| - 1] == 'p' then 1 else 0)
  }

  lemma {:induction false} MarksConcat(a: string, b: string)
    ensures Marks(a + b) == Marks(a) + Marks(b)
    decreases |b|
  {
    if b == [] {
      assert a + b == a;
    } else {
      MarksConcat(a, b[..|b| - 1]);
      assert (a + b)[..|a + b| - 1] == a + b[..|b| - 1];
    }
  }

  predicate NoMark(s: string) {
    forall i :: 0 <= i < |s| ==> s[i] != 'p'
  }

  lemma {:induction false} NoMarkCount(s: string)
    requires NoMark(s)
    ensures Marks(s) == 0
    decreases |s|
  {
    if s != [] {
      NoMarkCount(s[..|s| - 1]);
    }
  }

  lemma OneMark(s: string, j: nat)
    requires j < |s| && s[j] == 'p'
    requires forall i :: 0 <= i < |s| && i != j ==> s[i] != 'p'
    ensures Marks(s) == 1
  {
    assert s == s[..j] + [s[j]] + s[j + 1..];
    MarksConcat(s[..j], [s[j]]);
    MarksConcat(s[..j] + [s[j]], s[j + 1..]);
    assert Marks([s[j]]) == Marks([]) + 1;
    NoMarkCount(s[..j]);
    var t := s[j + 1..];
    forall i | 0 <= i < |t|
      ensures t[i] != 'p'
    {
      assert t[i] == s[j + 1 + i];
    }
    NoMarkCount(t);
  }

  lemma MarksOfFive(a: string, b: string, c: string, d: string, e: string)
    ensures Marks(a + b + c + d + e) == Marks(a) + Marks(b) + Marks(c) + Marks(d) + Marks(e)
  {
    MarksConcat(a, b);
    MarksConcat(a + b, c);
    MarksConcat(a + b + c, d);
    MarksConcat(a + b + c + d, e);
  }

  lemma CharMarks(c: char)
    requires c != 'p'
    ensures Marks([c]) == 0
  {
    NoMarkCount([c]);
  }

  lemma HeadMarks()
    ensures Marks(SamplingHead) == 1
  {
    assert SamplingHead[10] == 'p';
    assert forall i :: 0 <= i < |SamplingHead| && i != 10 ==> SamplingHead[i] != 'p';
    OneMark(SamplingHead, 10);
  }

  /** The macro text holds one `p` more than its arguments. */
  lemma MatchTextMarks(column: string, time: string)
    ensures Marks(MatchText(column, time)) == 1 + Marks(column) + Marks(time)
  {
    HeadMarks();
    CharMarks(',');
    CharMarks(')');
    MarksOfFive(SamplingHead, column, ",", time, ")");
  }

  /** A text can hold a macro only where it holds a `p`. */
  lemma MatchHasMark(s: string, p: nat)
    requires MatchAt(s, p).Some?
    ensures Marks(s) >= 1
  {
    var m := MatchAt(s, p).value;
    assert s == s[..p] + s[p..m.end] + s[m.end..] + [] + [];
    MatchTextMarks(m.column, m.time);
    MarksOfFive(s[..p], s[p..m.end], s[m.end..], [], []);
  }

  /** A text without `p` holds no macro, wherever the search starts. */
  lemma NoMarkNoMatch(s: string, from: nat)
    requires Marks(s) == 0
    ensures SamplingExec(s, from).None?
  {
    var r := SamplingExec(s, from);
    if r.Some? {
      MatchHasMark(s, r.value.start);
    }
  }

  // ----- $__timeSampling: the rewrite -----

  /** The GridDB `TIME_SAMPLING` call a macro becomes. */
  function SamplingCall(column: string, interval: string): string {
    CallHead + column + CallMiddle + interval + ")"
  }

  const CallHead: string := "TIME_SAMPLING("
  const CallMiddle: string := ", $__timeFrom, $__timeTo, "

  /** The text of a converted interval: its value, then its unit. */
  function IntervalText(converted: SamplingInterval): string {
    IntToString(converted.value) + UnitSeparator + converted.unit
  }

  const UnitSeparator: string := ", "

  /** What the loop of `formatTimeSamplingMacro` puts in place of one match:
      both groups are trimmed; `$__interval` and `$__minInterval` are kept
      for the special-variable pass, any other duration is converted and may
      be rejected. */
  function SamplingReplacement(m: SamplingMatch): (r: Result<string>)
    ensures r.Failure? <==>
      (Trim(m.time) != "$__interval" && Trim(m.time) != "$__minInterval"
        && GrafanaTimeType(Trim(m.time)).Failure?)
    ensures r.Failure? ==> r.error == "Cannot detect format of grafana time"
    ensures Trim(m.time) == "$__interval" || Trim(m.time) == "$__minInterval" ==>
      r == Success(SamplingCall(Trim(m.column), Trim(m.time)))
    ensures Trim(m.time) != "$__interval" && Trim(m.time) != "$__minInterval" && r.Success? ==>
      r.value == SamplingCall(Trim(m.column), IntervalText(ConvertTimeInTimeSampling(Trim(m.time)).value))
  {
    var column := Trim(m.column);
    var time := Trim(m.time);
    if time == "$__interval" || time == "$__minInterval" then Success(SamplingCall(column, time))
    else
      var converted :- ConvertTimeInTimeSampling(time);
      Success(SamplingCall(column, IntervalText(converted)))
  }

  lemma CallHeadMarks()
    ensures Marks(CallHead) == 0
  {
    assert NoMark(CallHead);
    NoMarkCount(CallHead);
  }

  lemma CallMiddleMarks()
    ensures Marks(CallMiddle) == 0
  {
    assert NoMark(CallMiddle);
    NoMarkCount(CallMiddle);
  }

  lemma UnitSeparatorMarks()
    ensures Marks(UnitSeparator) == 0
  {
    assert NoMark(UnitSeparator);
    NoMarkCount(UnitSeparator);
  }

  lemma SamplingCallMarks(column: string, interval: string)
    ensures Marks(SamplingCall(column, interval)) == Marks(column) + Marks(interval)
  {
    CallHeadMarks();
    CallMiddleMarks();
    CharMarks(')');
    MarksOfFive(CallHead, column, CallMiddle, interval, ")");
  }

  lemma SliceMarks(x: string, lo: nat, hi: nat)
    requires lo <= hi <= |x|
    ensures Marks(x[lo..hi]) <= Marks(x)
  {
    var a, t, c := x[..lo], x[lo..hi], x[hi..];
    assert x == a + t + c;
    MarksConcat(a, t);
    MarksConcat(a + t, c);
  }

  lemma TrimMarks(x: string)
    ensures Marks(Trim(x)) <= Marks(x)
  {
    var lo := TrimSlice(x);
    SliceMarks(x, lo, lo + |Trim(x)|);
  }

  lemma IntToStringMarks(v: int)
    ensures Marks(IntToString(v)) == 0
  {
    var n := if v < 0 then -v else v;
    var d := NatToString(n);
    assert NoMark(d);
    NoMarkCount(d);
    CharMarks('-');
    MarksConcat("-", d);
    assert v < 0 ==> IntToString(v) == "-" + d;
  }

  lemma UnitMarks(u: string)
    requires u in SamplingUnits
    ensures Marks(u) == 0
  {
    assert NoMark(u);
    NoMarkCount(u);
  }

  lemma ThreeNoMarks(a: string, b: string, c: string)
    requires Marks(a) == 0 && Marks(b) == 0 && Marks(c) == 0
    ensures Marks(a + b + c) == 0
  {
    MarksConcat(a, b);
    MarksConcat(a + b, c);
  }

  /** The interval text holds no `p`: digits, a sign, a comma and a unit. */
  lemma IntervalTextMarks(c: SamplingInterval)
    requires c.unit in SamplingUnits
    ensures Marks(IntervalText(c)) == 0
  {
    IntToStringMarks(c.value);
    UnitMarks(c.unit);
    UnitSeparatorMarks();
    ThreeNoMarks(IntToString(c.value), UnitSeparator, c.unit);
  }

  lemma PassThroughMarks(time: string)
    requires time == "$__interval" || time == "$__minInterval"
    ensures Marks(time) == 0
  {
    assert NoMark(time);
    NoMarkCount(time);
  }

  /** A replacement carries no more `p`s than the column it names. */
  lemma ReplacementMarks(m: SamplingMatch)
    requires SamplingReplacement(m).Success?
    ensures Marks(SamplingReplacement(m).value) <= Marks(m.column)
  {
    var column := Trim(m.column);
    var time := Trim(m.time);
    TrimMarks(m.column);
    if time == "$__interval" || time == "$__minInterval" {
      PassThroughMarks(time);
      SamplingCallMarks(column, time);
    } else {
      IntervalTextMarks(ConvertTimeInTimeSampling(time).value);
      SamplingCallMarks(column, IntervalText(ConvertTimeInTimeSampling(time).value));
    }
  }

  /** The text of a match is its own trim. */
  lemma MatchTextTrimmed(s: string, m: SamplingMatch)
    requires MatchAt(s, m.start) == Some(m)
    ensures Trim(s[m.start..m.end]) == s[m.start..m.end]
  {
    var text := s[m.start..m.end];
    MatchTextEnds(m.column, m.time);
    assert !IsSpace(text[0]) && !IsSpace(text[|text| - 1]);
  }

  /** The text of a match starts with `$` and ends with `)`. */
  lemma MatchTextEnds(column: string, time: string)
    ensures var text := MatchText(column, time);
      |text| >= 2 && text[0] == '$' && text[|text| - 1] == ')'
  {
    var text := MatchText(column, time);
    HeadLength();
    MatchTextParts(column, time);
    assert text[0] == text[..16][0] == SamplingHead[0];
  }

  lemma MarksReplaced(x: string, y: string, y': string, z: string)
    requires Marks(y') < Marks(y)
    ensures Marks(x + y' + z) < Marks(x + y + z)
  {
    MarksConcat(x, y');
    MarksConcat(x + y', z);
    MarksConcat(x, y);
    MarksConcat(x + y, z);
  }

  /** The text of a match holds one `p` more than its arguments. */
  lemma MatchMarks(s: string, m: SamplingMatch)
    requires MatchAt(s, m.start) == Some(m)
    ensures Marks(s[m.start..m.end]) == 1 + Marks(m.column) + Marks(m.time)
  {
    MatchTextMarks(m.column, m.time);
  }

  /** Replacing the first occurrence of a text by one with fewer `p`s. */
  lemma ReplaceFirstDecreases(s: string, func: string, start: nat, rep: string)
    requires OccursAt(s, func, start)
    requires Marks(rep) < Marks(func)
    ensures Marks(ReplaceFirst(s, func, rep)) < Marks(s)
  {
    var i := ReplaceFirstSplits(s, func, rep, start);
    MarksReplaced(s[..i], func, rep, s[i + |func|..]);
  }

  /** One step of the loop of `formatTimeSamplingMacro` removes a macro. */
  lemma SamplingStepDecreases(s: string, m: SamplingMatch, rep: string)
    requires MatchAt(s, m.start) == Some(m)
    requires Marks(rep) <= Marks(m.column)
    ensures Marks(ReplaceFirst(s, Trim(s[m.start..m.end]), rep)) < Marks(s)
  {
    var text := MatchedSlice(s, m);
    MatchTextTrimmed(s, m);
    ReplaceFirstDecreases(s, text, m.start, rep);
  }

  /** What a match tells about the slice it covers. */
  lemma MatchedSlice(s: string, m: SamplingMatch) returns (text: string)
    requires MatchAt(s, m.start) == Some(m)
    ensures text == s[m.start..m.end] && OccursAt(s, text, m.start)
    ensures Marks(text) == 1 + Marks(m.column) + Marks(m.time)
  {
    text := s[m.start..m.end];
    assert Marks(text) == 1 + Marks(m.column) + Marks(m.time) by { MatchMarks(s, m); }
    assert OccursAt(s, text, m.start) by { assert m.start + |text| == m.end; }
  }

  /** Splicing a text with fewer `p`s in place of a slice. */
  lemma SpliceSliceDecreases(s: string, a: nat, b: nat, rep: string)
    requires a <= b <= |s|
    requires Marks(rep) < Marks(s[a..b])
    ensures Marks(s[..a] + rep + s[b..]) < Marks(s)
  {
    assert s == s[..a] + s[a..b] + s[b..];
    MarksReplaced(s[..a], s[a..b], rep, s[b..]);
  }

  /** Splicing a call in place of a match removes a macro. */
  lemma SpliceDecreases(s: string, m: SamplingMatch, rep: string)
    requires MatchAt(s, m.start) == Some(m)
    requires Marks(rep) <= Marks(m.column)
    ensures Marks(s[..m.start] + rep + s[m.end..]) < Marks(s)
  {
    MatchMarks(s, m);
    SpliceSliceDecreases(s, m.start, m.end, rep);
  }

  /** The loop of `formatTimeSamplingMacro` as written, from a given
      `lastIndex`: the result, or the error the conversion throws, and the
      `lastIndex` the pattern is left with. Each round searches on from the
      end of the previous match, in the rewritten text, and replaces the
      first occurrence of the matched text. */
  function SamplingFrom(query: string, lastIndex: nat): (Result<string>, nat)
    decreases Marks(query), 1
  {
    SamplingContinue(query, SamplingExec(query, lastIndex))
  }

  /** The loop once `exec` has returned `found`. */
  function SamplingContinue(query: string, found: Option<SamplingMatch>): (Result<string>, nat)
    requires found.Some? ==> MatchAt(query, found.value.start) == found
    decreases Marks(query), 0
  {
    match found
    case None => (Success(query), 0)
    case Some(m) =>
      var rep := SamplingReplacement(m);
      if rep.Failure? then (Failure(rep.error), m.end)
      else
        ReplacementMarks(m);
        SamplingStepDecreases(query, m, rep.value);
        SamplingFrom(ReplaceFirst(query, Trim(query[m.start..m.end]), rep.value), m.end)
  }

  /** What the loop leaves behind: once it returns normally, `exec` has just
      failed, so `lastIndex` is back at 0; when a duration is rejected, the
      conversion's message escapes and `lastIndex` stays past the failing
      match. */
  lemma {:induction false} SamplingOutcome(query: string, lastIndex: nat)
    ensures SamplingFrom(query, lastIndex).0.Success? ==> SamplingFrom(query, lastIndex).1 == 0
    ensures SamplingFrom(query, lastIndex).0.Failure? ==>
      SamplingFrom(query, lastIndex).0.error == "Cannot detect format of grafana time"
        && SamplingFrom(query, lastIndex).1 > lastIndex
    decreases Marks(query)
  {
    var found := SamplingExec(query, lastIndex);
    if found.Some? {
      var m := found.value;
      var rep := SamplingReplacement(m);
      if rep.Success? {
        ReplacementMarks(m);
        SamplingStepDecreases(query, m, rep.value);
        SamplingOutcome(ReplaceFirst(query, Trim(query[m.start..m.end]), rep.value), m.end);
      }
    }
  }

  // ----- special variables -----

  /** `timeRange.range`: the two ends of the dashboard range, each already
      formatted in UTC as `YYYY-MM-DDTHH:mm:ss.SSS`, or `None` when unset. */
  datatype RangeStamps = RangeStamps(from: Option<string>, to: Option<string>)

  /** `{intervalMs, range}` of the panel request. */
  datatype TimeRange = TimeRange(intervalMs: Option<int>, range: Option<RangeStamps>)

  /** `convertGrafanaTimeToGridDBTimestamp` on an already formatted date:
      empty when the date is unset. */
  function TimestampText(date: Option<string>): (r: string)
    ensures date.None? <==> r == ""
  {
    match date
    case None => ""
    case Some(d) => "TIMESTAMP('" + d + "Z')"
  }

  /** `timeRange.intervalMs`, with an unset or zero interval read as the
      string `'0'`, which compares and prints as 0. */
  function PanelInterval(tr: TimeRange): int {
    if tr.intervalMs.Some? && tr.intervalMs.value != 0 then tr.intervalMs.value else 0
  }

  /** `interval < minIntervalMs ? minIntervalMs : interval`: the larger of
      the two, and the panel interval when the minimum is not a number. */
  function EffectiveInterval(interval: int, minMs: Number): (r: Number)
    ensures r.Int?
    ensures minMs.Int? ==> r.i >= interval && r.i >= minMs.i && (r.i == interval || r.i == minMs.i)
    ensures minMs.NaN? ==> r.i == interval
  {
    if NumberLess(Int(interval), minMs) then minMs else Int(interval)
  }

  /** `'' + ms + ', ' + MILLISECOND`. */
  function MillisecondText(ms: Number): string {
    NumberToString(ms) + ", " + Constants.MILLISECOND
  }

  /** `formatSpecialVariables`: `$__interval`, then `$__minInterval`, then,
      only when the request has a range, `$__timeFrom` and `$__timeTo`. An
      undetectable minimum interval makes the conversion throw. */
  function FormatSpecialVariables(query: string, minInterval: string, tr: TimeRange): (r: Result<string>)
    ensures r.Failure? <==> GrafanaTimeType(minInterval).Failure?
    ensures r.Failure? ==> r.error == "Cannot detect format of grafana time"
    ensures r.Success? && !Contains(query, "$__interval") && !Contains(query, "$__minInterval")
      && (tr.range.None? || (!Contains(query, "$__timeFrom") && !Contains(query, "$__timeTo")))
      ==> r.value == query
  {
    var minMs :- ConvertTimeToMillisecond(minInterval);
    var intervalUsed := MillisecondText(EffectiveInterval(PanelInterval(tr), minMs));
    var minIntervalUsed := MillisecondText(minMs);
    var q1 := ReplaceAll(query, "$__interval", intervalUsed);
    var q2 := ReplaceAll(q1, "$__minInterval", minIntervalUsed);
    if !Contains(query, "$__interval") && !Contains(query, "$__minInterval") then
      ReplaceAllAbsent(query, "$__interval", intervalUsed);
      ReplaceAllAbsent(q1, "$__minInterval", minIntervalUsed);
      SpecialRange(q2, tr)
    else SpecialRange(q2, tr)
  }

  /** The range part of `formatSpecialVariables`. */
  function SpecialRange(query: string, tr: TimeRange): (r: Result<string>)
    ensures r.Success?
    ensures tr.range.None? ==> r.value == query
    ensures !Contains(query, "$__timeFrom") && !Contains(query, "$__timeTo") ==> r.value == query
  {
    match tr.range
    case None => Success(query)
    case Some(range) =>
      var from := TimestampText(range.from);
      var q := ReplaceAll(query, "$__timeFrom", from);
      if !Contains(query, "$__timeFrom") && !Contains(query, "$__timeTo") then
        ReplaceAllAbsent(query, "$__timeFrom", from);
        ReplaceAllAbsent(q, "$__timeTo", TimestampText(range.to));
        Success(ReplaceAll(q, "$__timeTo", TimestampText(range.to)))
      else Success(ReplaceAll(q, "$__timeTo", TimestampText(range.to)))
  }

  lemma NumberTextNoDollar(n: Number)
    ensures NoDollar(MillisecondText(n))
  {
    var t := MillisecondText(n);
    var head := NumberToString(n);
    assert NoDollar(head) by {
      if n.Int? {
        var d := NatToString(if n.i < 0 then -n.i else n.i);
        assert forall k :: 0 <= k < |d| ==> IsDigit(d[k]);
      }
    }
    assert NoDollar(", " + Constants.MILLISECOND);
    assert t == head + (", " + Constants.MILLISECOND);
  }

  /** `$__interval` on its own becomes the larger of the panel interval and
      the minimum interval, in milliseconds. */
  lemma IntervalVariable(q: string, minInterval: string, tr: TimeRange, minMs: int)
    requires q == "$__interval"
    requires ConvertTimeToMillisecond(minInterval) == Success(Int(minMs))
    ensures FormatSpecialVariables(q, minInterval, tr)
      == Success(IntToString(if PanelInterval(tr) < minMs then minMs else PanelInterval(tr)) + ", " + Constants.MILLISECOND)
  {
    var used := MillisecondText(EffectiveInterval(PanelInterval(tr), Int(minMs)));
    ReplaceAllWhole(q, used);
    NumberTextNoDollar(EffectiveInterval(PanelInterval(tr), Int(minMs)));
    WithoutLead(used, "$__minInterval");
    ReplaceAllAbsent(used, "$__minInterval", MillisecondText(Int(minMs)));
    WithoutLead(used, "$__timeFrom");
    WithoutLead(used, "$__timeTo");
    assert FormatSpecialVariables(q, minInterval, tr) == SpecialRange(used, tr);
    assert SpecialRange(used, tr) == Success(used);
    assert NumberToString(EffectiveInterval(PanelInterval(tr), Int(minMs)))
      == IntToString(if PanelInterval(tr) < minMs then minMs else PanelInterval(tr));
  }

  lemma MinIntervalHoldsNoInterval(q: string)
    requires q == "$__minInterval"
    ensures !Contains(q, "$__interval")
  {
    assert q[0..11][3] == 'm';
    OnlyAtStart(q, "$__interval");
  }

  /** `$__minInterval` on its own becomes the minimum interval in
      milliseconds; the `$__interval` pass before it does not touch it. */
  lemma MinIntervalVariable(q: string, minInterval: string, tr: TimeRange, minMs: Number)
    requires q == "$__minInterval"
    requires ConvertTimeToMillisecond(minInterval) == Success(minMs)
    ensures FormatSpecialVariables(q, minInterval, tr) == Success(NumberToString(minMs) + ", " + Constants.MILLISECOND)
  {
    var used := MillisecondText(minMs);
    MinIntervalHoldsNoInterval(q);
    ReplaceAllAbsent(q, "$__interval", MillisecondText(EffectiveInterval(PanelInterval(tr), minMs)));
    ReplaceAllWhole(q, used);
    NumberTextNoDollar(minMs);
    WithoutLead(used, "$__timeFrom");
    WithoutLead(used, "$__timeTo");
  }

  /** A query without `$__interval` and `$__minInterval` goes straight to
      the range pass. */
  lemma SpecialWithoutIntervals(q: string, minInterval: string, tr: TimeRange)
    requires GrafanaTimeType(minInterval).Success?
    requires !Contains(q, "$__interval") && !Contains(q, "$__minInterval")
    ensures FormatSpecialVariables(q, minInterval, tr) == SpecialRange(q, tr)
  {
    var minMs := ConvertTimeToMillisecond(minInterval).value;
    ReplaceAllAbsent(q, "$__interval", MillisecondText(EffectiveInterval(PanelInterval(tr), minMs)));
    ReplaceAllAbsent(q, "$__minInterval", MillisecondText(minMs));
  }

  /** The range pass turns `$__timeFrom` into the start timestamp. */
  lemma TimeFromInRange(q: string, intervalMs: Option<int>, from: Option<string>, to: Option<string>)
    requires q == "$__timeFrom"
    requires from.Some? ==> NoDollar(from.value)
    ensures SpecialRange(q, TimeRange(intervalMs, Some(RangeStamps(from, to)))) == Success(TimestampText(from))
  {
    var stamp := TimestampText(from);
    ReplaceAllWhole(q, stamp);
    assert NoDollar(stamp) by {
      if from.Some? {
        assert stamp == "TIMESTAMP('" + from.value + "Z')";
      }
    }
    WithoutLead(stamp, "$__timeTo");
    ReplaceAllAbsent(stamp, "$__timeTo", TimestampText(to));
  }

  /** `$__timeFrom` is left for later when the request has no range, and
      becomes the start timestamp when it has one. */
  lemma TimeFromVariable(q: string, minInterval: string, intervalMs: Option<int>, from: Option<string>, to: Option<string>)
    requires q == "$__timeFrom"
    requires GrafanaTimeType(minInterval).Success?
    requires from.Some? ==> NoDollar(from.value)
    ensures FormatSpecialVariables(q, minInterval, TimeRange(intervalMs, None)) == Success(q)
    ensures FormatSpecialVariables(q, minInterval, TimeRange(intervalMs, Some(RangeStamps(from, to))))
      == Success(TimestampText(from))
  {
    ShortNotContains(q, "$__interval");
    ShortNotContains(q, "$__minInterval");
    SpecialWithoutIntervals(q, minInterval, TimeRange(intervalMs, None));
    SpecialWithoutIntervals(q, minInterval, TimeRange(intervalMs, Some(RangeStamps(from, to))));
    TimeFromInRange(q, intervalMs, from, to);
  }

  // ----- multi-valued template variables -----

  /** The characters `[\\^$*+?.()|[\]{}\/]` a value is escaped at. */
  predicate IsRegexMeta(c: char) {
    || c == '\\' || c == '^' || c == '$' || c == '*' || c == '+' || c == '?' || c == '.'
    || c == '(' || c == ')' || c == '|' || c == '[' || c == ']' || c == '{' || c == '}' || c == '/'
  }

  /** `x.replace(/[\\^$*+?.()|[\]{}\/]/g, '\\$&')`: a backslash before each
      metacharacter. */
  function RegexEscape(x: string): (r: string)
    ensures |r| >= |x|
    decreases |x|
  {
    if x == [] then []
    else (if IsRegexMeta(x[0]) then ['\\', x[0]] else [x[0]]) + RegexEscape(x[1..])
  }

  function EscapedValues(vs: seq<string>): (r: seq<string>)
    ensures |r| == |vs|
    ensures forall i :: 0 <= i < |vs| ==> r[i] == RegexEscape(vs[i])
  {
    seq(|vs|, i requires 0 <= i < |vs| => RegexEscape(vs[i]))
  }

  /** A template variable's current value: one text or a list of texts. */
  datatype VariableValue = Text(text: string) | Values(values: seq<string>)

  /** The two flags of a template variable that `interpolateQueryStr` reads. */
  datatype Variable = Variable(multi: bool, includeAll: bool)

  /** `interpolateQueryStr`: a single-valued variable or a text value is
      returned as it is, a one-element list as its element, and any other
      list as the alternation `(v1|v2|…)` of its escaped elements. */
  function InterpolateQueryStr(value: VariableValue, variable: Variable): (r: VariableValue)
    ensures (!variable.multi && !variable.includeAll) || value.Text? ==> r == value
    ensures (variable.multi || variable.includeAll) && value.Values? && |value.values| == 1 ==> r == Text(value.values[0])
    ensures (variable.multi || variable.includeAll) && value.Values? && value.values == [] ==> r == Text("()")
    ensures (variable.multi || variable.includeAll) && value.Values? && |value.values| >= 2 ==>
      && r.Text? && |r.text| >= 2 && r.text[0] == '(' && r.text[|r.text| - 1] == ')'
      && Alternatives(r.text[1..|r.text| - 1]) == value.values
  {
    if !variable.multi && !variable.includeAll then value
    else match value
      case Text(_) => value
      case Values(vs) =>
        if |vs| == 1 then Text(vs[0])
        else
          var inner := Join(EscapedValues(vs), "|");
          var text := "(" + inner + ")";
          assert text[1..|text| - 1] == inner;
          if |vs| >= 2 then
            AlternativesOfJoin(vs);
            Text(text)
          else
            assert EscapedValues(vs) == [];
            assert inner == "";
            assert text == "()";
            Text(text)
  }

  /** The values an alternation stands for: `|` separates them and a
      backslash makes the next character literal. */
  function Alternatives(t: string): (r: seq<string>)
    ensures |r| >= 1
    decreases |t|
  {
    if t == [] then [""]
    else if t[0] == '\\' && |t| >= 2 then Prepend(t[1], Alternatives(t[2..]))
    else if t[0] == '|' then [""] + Alternatives(t[1..])
    else Prepend(t[0], Alternatives(t[1..]))
  }

  function Prepend(c: char, parts: seq<string>): (r: seq<string>)
    requires |parts| >= 1
    ensures |r| == |parts|
  {
    [[c] + parts[0]] + parts[1..]
  }

  lemma AlternativesOfEscapedChar(c: char, tail: string)
    ensures Alternatives(['\\', c] + tail) == Prepend(c, Alternatives(tail))
  {
    assert (['\\', c] + tail)[2..] == tail;
  }

  lemma AlternativesOfPlainChar(c: char, tail: string)
    requires c != '\\' && c != '|'
    ensures Alternatives([c] + tail) == Prepend(c, Alternatives(tail))
  {
    assert ([c] + tail)[1..] == tail;
  }

  lemma PrependJoined(c: char, x: string, a: seq<string>)
    requires |a| >= 1
    ensures Prepend(c, [x + a[0]] + a[1..]) == [[c] + x + a[0]] + a[1..]
  {
    var l := [x + a[0]] + a[1..];
    assert l[0] == x + a[0] && l[1..] == a[1..];
    assert [c] + (x + a[0]) == [c] + x + a[0];
  }

  /** An escaped value reads back as itself, joined to what follows. */
  lemma {:induction false} AlternativesOfEscaped(x: string, rest: string)
    ensures Alternatives(RegexEscape(x) + rest)
      == [x + Alternatives(rest)[0]] + Alternatives(rest)[1..]
    decreases |x|
  {
    var a := Alternatives(rest);
    if x == [] {
      assert RegexEscape(x) + rest == rest;
      assert x + a[0] == a[0];
      assert [a[0]] + a[1..] == a;
    } else {
      AlternativesOfEscaped(x[1..], rest);
      EscapedStep(x, rest);
      PrependJoined(x[0], x[1..], a);
      assert [x[0]] + x[1..] == x;
    }
  }

  /** The first character of an escaped value reads back in front of what
      the rest reads back as. */
  lemma EscapedStep(x: string, rest: string)
    requires x != []
    ensures Alternatives(RegexEscape(x) + rest) == Prepend(x[0], Alternatives(RegexEscape(x[1..]) + rest))
  {
    var tail := RegexEscape(x[1..]) + rest;
    if IsRegexMeta(x[0]) {
      assert RegexEscape(x) + rest == ['\\', x[0]] + tail;
      AlternativesOfEscapedChar(x[0], tail);
    } else {
      assert RegexEscape(x) + rest == [x[0]] + tail;
      AlternativesOfPlainChar(x[0], tail);
    }
  }


  /** The alternation of two or more values reads back as those values. */
  lemma {:induction false} AlternativesOfJoin(vs: seq<string>)
    requires |vs| >= 1
    ensures Alternatives(Join(EscapedValues(vs), "|")) == vs
    decreases |vs|
  {
    var es := EscapedValues(vs);
    if |vs| == 1 {
      AlternativesOfEscaped(vs[0], "");
      assert RegexEscape(vs[0]) + "" == RegexEscape(vs[0]);
      assert vs[0] + "" == vs[0];
    } else {
      var rest := vs[1..];
      AlternativesOfJoin(rest);
      var tail := EscapedJoinHead(vs);
      AlternativesOfEscaped(vs[0], "|" + tail);
      AlternativesAfterBar(tail);
      ConsAlternative(vs, Alternatives("|" + tail));
    }
  }

  /** The alternation of two or more values: the first escaped, a bar, and
      the alternation of the rest. */
  lemma EscapedJoinHead(vs: seq<string>) returns (tail: string)
    requires |vs| >= 2
    ensures tail == Join(EscapedValues(vs[1..]), "|")
    ensures Join(EscapedValues(vs), "|") == RegexEscape(vs[0]) + ("|" + tail)
  {
    assert EscapedValues(vs)[1..] == EscapedValues(vs[1..]);
    tail := Join(EscapedValues(vs[1..]), "|");
  }

  lemma AlternativesAfterBar(tail: string)
    ensures Alternatives("|" + tail) == [""] + Alternatives(tail)
  {
    assert ("|" + tail)[1..] == tail;
  }

  lemma ConsAlternative(vs: seq<string>, a: seq<string>)
    requires |vs| >= 1 && a == [""] + vs[1..]
    ensures [vs[0] + a[0]] + a[1..] == vs
  {
    assert vs[0] + "" == vs[0];
    assert vs == [vs[0]] + vs[1..];
  }

  // ----- replace -----

  /** What `replace` reads from its `data` argument: the time columns, the
      datasource's minimum interval (`""` when unset), the request's time
      range, and Grafana's `templateSrv.replace` with the scoped variables
      bound, when both are present. */
  datatype ReplaceData = ReplaceData(
    timeColumns: seq<string>,
    interval: string,
    timeRange: TimeRange,
    custom: Option<string -> string>)

  /** The time-filter passes of `replace`: `$__timeFilter` for exactly one
      non-empty column, `$__rangeFilter` for exactly two. */
  function TimeMacros(query: string, timeColumns: seq<string>): (r: string)
    ensures |timeColumns| == 1 && timeColumns[0] != "" ==> r == FormatTimeFilterMacro(query, timeColumns[0])
    ensures |timeColumns| == 2 ==> r == FormatTimeRangeMacro(query, timeColumns[0], timeColumns[1])
    ensures (|timeColumns| == 1 && timeColumns[0] == "") || |timeColumns| == 0 || |timeColumns| > 2 ==> r == query
  {
    var q := if |timeColumns| == 1 && timeColumns[0] != "" then FormatTimeFilterMacro(query, timeColumns[0]) else query;
    if |timeColumns| == 2 then FormatTimeRangeMacro(q, timeColumns[0], timeColumns[1]) else q
  }

  /** `replace`, from a given `lastIndex` of the sampling pattern: the
      result or the message that escapes, and the `lastIndex` left behind.
      The special variables are always expanded after the sampling pass, and
      the user's variables last, only when Grafana's services are given. */
  function ReplaceFrom(query: string, data: ReplaceData, lastIndex: nat): (r: (Result<string>, nat))
    ensures r.0.Success? ==> r.1 == 0
    ensures r.0.Failure? ==> r.0.error == "Cannot detect format of grafana time"
    ensures GrafanaTimeType(data.interval).Failure? ==> r.0.Failure?
  {
    var q := TimeMacros(query, data.timeColumns);
    var sampled := SamplingFrom(q, lastIndex);
    SamplingOutcome(q, lastIndex);
    if sampled.0.Failure? then (Failure(sampled.0.error), sampled.1)
    else
      var special := FormatSpecialVariables(sampled.0.value, data.interval, data.timeRange);
      if special.Failure? then (Failure(special.error), sampled.1)
      else (Success(if data.custom.Some? then data.custom.value(special.value) else special.value), sampled.1)
  }

  /** A conversion error leaves `lastIndex` past the failing macro, and the
      next text no longer than that is returned as it is: after
      `$__timeSampling(c,3x)` is rejected, `$__timeSampling(c,1d)` comes back
      unexpanded. */
  lemma StaleCursor(q1: string, q2: string)
    requires SamplingFrom(q1, 0).0.Failure?
    requires |q2| <= SamplingFrom(q1, 0).1
    ensures SamplingFrom(q2, SamplingFrom(q1, 0).1) == (Success(q2), 0)
  {
    NoDollarNoMatch(q2, SamplingFrom(q1, 0).1);
  }

  /** A lone macro whose duration cannot be read fails with the duration
      message and leaves the cursor at its end. */
  lemma RejectedMacro(c: string, t: string)
    requires IsArgument(c) && IsArgument(t)
    requires Trim(t) != "$__interval" && Trim(t) != "$__minInterval"
    requires GrafanaTimeType(Trim(t)).Failure?
    ensures SamplingFrom(MatchText(c, t), 0) == (Failure("Cannot detect format of grafana time"), |MatchText(c, t)|)
  {
    var m := LoneMacro(c, t);
    FailedRound(MatchText(c, t), 0, m);
  }

  /** A macro on its own is the first match of its text. */
  lemma LoneMacro(c: string, t: string) returns (m: SamplingMatch)
    requires IsArgument(c) && IsArgument(t)
    ensures m == SamplingMatch(0, c, t, |MatchText(c, t)|)
    ensures SamplingExec(MatchText(c, t), 0) == Some(m)
  {
    var q := MatchText(c, t);
    m := FirstMacro([], c, t, []);
    assert [] + q + [] == q;
  }

  /** A round whose match cannot be replaced ends the loop with that
      failure and the cursor at the end of the match. */
  lemma FailedRound(q: string, from: nat, m: SamplingMatch)
    requires SamplingExec(q, from) == Some(m)
    requires SamplingReplacement(m).Failure?
    ensures SamplingFrom(q, from) == (Failure(SamplingReplacement(m).error), m.end)
  {
  }

  /** A lone macro with a readable duration is expanded by a search from the
      start, so it does not come back as it was. */
  lemma ExpandedMacro(c: string, t: string)
    requires IsArgument(c) && NoDollar(c) && IsArgument(t)
    requires Trim(t) == "$__interval" || Trim(t) == "$__minInterval" || GrafanaTimeType(Trim(t)).Success?
    ensures SamplingFrom(MatchText(c, t), 0).0 != Success(MatchText(c, t))
  {
    OneMacroAlone(c, t);
    CallIsNoMacroText(Trim(c), CallInterval(Trim(t)), c, t);
  }

  /** A call text starts with `T`, a macro with `$`. */
  lemma CallIsNoMacroText(column: string, interval: string, c: string, t: string)
    ensures SamplingCall(column, interval) != MatchText(c, t)
  {
    assert SamplingCall(column, interval)[0] == 'T';
    assert MatchText(c, t)[0] == '$';
  }

  /** The case above on two texts: `$__timeSampling(c,3x)` is rejected with
      the cursor at 21, and `$__timeSampling(c,1d)`, which a search from the
      start expands, then comes back unexpanded. */
  lemma StaleCursorExample(q1: string, q2: string)
    requires q1 == "$__timeSampling(c,3x)" && q2 == "$__timeSampling(c,1d)"
    ensures SamplingFrom(q1, 0) == (Failure("Cannot detect format of grafana time"), 21)
    ensures SamplingFrom(q2, 21) == (Success(q2), 0)
    ensures SamplingFrom(q2, 0).0 != Success(q2)
  {
    var c, bad, good := StalePieces(q1, q2);
    PlainColumn(c);
    BadDuration(bad);
    GoodDuration(good);
    RejectedMacro(c, bad);
    StaleCursor(q1, q2);
    ExpandedMacro(c, good);
  }

  lemma StalePieces(q1: string, q2: string) returns (c: string, bad: string, good: string)
    requires q1 == "$__timeSampling(c,3x)" && q2 == "$__timeSampling(c,1d)"
    ensures q1 == MatchText(c, bad) && q2 == MatchText(c, good) && |q1| == 21 && |q2| == 21
    ensures c == "c" && bad == "3x" && good == "1d"
  {
    c, bad, good := "c", "3x", "1d";
  }

  lemma BadDuration(t: string)
    requires t == "3x"
    ensures IsArgument(t) && Trim(t) == t
    ensures t != "$__interval" && t != "$__minInterval" && GrafanaTimeType(t).Failure?
  {
    assert !IsSpace(t[0]) && !IsSpace(t[|t| - 1]);
    assert !HasMillisecondSuffix(t);
  }

  lemma GoodDuration(t: string)
    requires t == "1d"
    ensures IsArgument(t) && Trim(t) == t && GrafanaTimeType(t).Success?
  {
    assert !IsSpace(t[0]) && !IsSpace(t[|t| - 1]);
    assert EndsWithUnit(t, 'd');
  }

  /** The state of `TemplateProcessor` the passes share: the `lastIndex` of
      the global `TIME_SAMPLING_REGEX`. The other patterns are only used
      through `replace`, which leaves their `lastIndex` at 0. */
  class TemplateProcessor {
    var samplingLastIndex: nat

    constructor()
      ensures samplingLastIndex == 0
    {
      samplingLastIndex := 0;
    }

    /** `TIME_SAMPLING_REGEX.exec(query)`. */
    method Exec(query: string) returns (found: Option<SamplingMatch>)
      modifies this
      ensures found == SamplingExec(query, old(samplingLastIndex))
      ensures samplingLastIndex == if found.Some? then found.value.end else 0
    {
      found := SamplingExec(query, samplingLastIndex);
      samplingLastIndex := if found.Some? then found.value.end else 0;
    }

    /** `formatTimeSamplingMacro`: while `exec` finds a match, the first
        occurrence of its text is replaced by the `TIME_SAMPLING` call. */
    method FormatTimeSamplingMacro(query: string) returns (r: Result<string>)
      modifies this
      ensures (r, samplingLastIndex) == SamplingFrom(query, old(samplingLastIndex))
    {
      var q := query;
      var found := Exec(q);
      while found.Some?
        invariant found.Some? ==> MatchAt(q, found.value.start) == found
        invariant samplingLastIndex == if found.Some? then found.value.end else 0
        invariant SamplingContinue(q, found) == SamplingFrom(query, old(samplingLastIndex))
        decreases Marks(q)
      {
        var m := found.value;
        var func := Trim(q[m.start..m.end]);
        var funcReplace := SamplingReplacement(m);
        if funcReplace.Failure? {
          return Failure(funcReplace.error);
        }
        ReplacementMarks(m);
        SamplingStepDecreases(q, m, funcReplace.value);
        q := ReplaceFirst(q, func, funcReplace.value);
        found := Exec(q);
      }
      return Success(q);
    }

    /** `replace`: the passes in order, each rewriting the query. */
    method Replace(query: string, data: ReplaceData) returns (r: Result<string>)
      modifies this
      ensures (r, samplingLastIndex) == ReplaceFrom(query, data, old(samplingLastIndex))
    {
      var q := query;
      var timeColumns := data.timeColumns;
      if |timeColumns| == 1 && timeColumns[0] != "" {
        q := FormatTimeFilterMacro(q, timeColumns[0]);
      }
      if |timeColumns| == 2 {
        q := FormatTimeRangeMacro(q, timeColumns[0], timeColumns[1]);
      }
      var sampled := FormatTimeSamplingMacro(q);
      if sampled.Failure? {
        return Failure(sampled.error);
      }
      var special := FormatSpecialVariables(sampled.value, data.interval, data.timeRange);
      if special.Failure? {
        return Failure(special.error);
      }
      q := special.value;
      if data.custom.Some? {
        q := data.custom.value(q);
      }
      return Success(q);
    }
  }

  // ----- $__timeSampling: a rewrite that leaves no macro behind -----

  /** The rewrite the loop is meant to perform: each round searches afresh
      from the start and splices the call in place of the leftmost match. */
  function SamplingRewrite(query: string): (r: Result<string>)
    ensures r.Success? ==> SamplingExec(r.value, 0).None?
    ensures SamplingExec(query, 0).None? ==> r == Success(query)
    ensures r.Failure? ==> r.error == "Cannot detect format of grafana time"
    decreases Marks(query)
  {
    match SamplingExec(query, 0)
    case None => Success(query)
    case Some(m) =>
      var rep :- SamplingReplacement(m);
      ReplacementMarks(m);
      SpliceDecreases(query, m, rep);
      SamplingRewrite(query[..m.start] + rep + query[m.end..])
  }

  /** No earlier occurrence of the leftmost match's text: it would have been
      an earlier match. So the search for that text finds the match. */
  lemma NoEarlierOccurrence(s: string, m: SamplingMatch)
    requires SamplingExec(s, 0) == Some(m)
    ensures IndexOfFrom(s, MatchText(m.column, m.time), 0) == Some(m.start)
  {
    var text := MatchText(m.column, m.time);
    forall i: nat | i < m.start && OccursAt(s, text, i)
      ensures false
    {
      MatchAtComplete(s, i, m.column, m.time);
    }
    MatchedText(s, m);
    IndexOfFromIs(s, text, 0, m.start);
  }

  /** Where the search finds the text, the first replacement splices there. */
  lemma FirstOccurrenceSplice(s: string, func: string, start: nat, rep: string)
    requires IndexOfFrom(s, func, 0) == Some(start)
    ensures ReplaceFirst(s, func, rep) == s[..start] + rep + s[start + |func|..]
  {
  }

  /** With the search restarted from 0, replacing the first occurrence of the
      matched text is the same as splicing at the match. */
  lemma LeftmostReplaceIsSplice(s: string, m: SamplingMatch, rep: string)
    requires SamplingExec(s, 0) == Some(m)
    ensures ReplaceFirst(s, Trim(s[m.start..m.end]), rep) == s[..m.start] + rep + s[m.end..]
  {
    var text := LeftmostText(s, m);
    SpliceAtTrimmed(s, s[m.start..m.end], text, m.start, m.end, rep);
  }

  lemma SpliceAtTrimmed(s: string, x: string, text: string, a: nat, b: nat, rep: string)
    requires Trim(x) == text && b == a + |text|
    requires IndexOfFrom(s, text, 0) == Some(a)
    ensures ReplaceFirst(s, Trim(x), rep) == s[..a] + rep + s[b..]
  {
    FirstOccurrenceSplice(s, text, a, rep);
  }

  /** The text of the leftmost match is its own trim and is what the search
      for it finds first. */
  lemma LeftmostText(s: string, m: SamplingMatch) returns (text: string)
    requires SamplingExec(s, 0) == Some(m)
    ensures Trim(s[m.start..m.end]) == text && m.end == m.start + |text|
    ensures IndexOfFrom(s, text, 0) == Some(m.start)
  {
    text := MatchText(m.column, m.time);
    MatchedText(s, m);
    MatchTextTrimmed(s, m);
    NoEarlierOccurrence(s, m);
  }

  /** The leftmost match covers its text. */
  lemma MatchedText(s: string, m: SamplingMatch)
    requires SamplingExec(s, 0) == Some(m)
    ensures s[m.start..m.end] == MatchText(m.column, m.time)
    ensures m.end == m.start + |MatchText(m.column, m.time)|
  {
    assert MatchAt(s, m.start) == Some(m);
  }

  // ----- a macro the resumed search skips -----

  /** The replacement of a match whose trimmed duration converts. */
  lemma ReplacementOfConverted(m: SamplingMatch, column: string, time: string, c: SamplingInterval)
    requires Trim(m.column) == column && Trim(m.time) == time
    requires time != "$__interval" && time != "$__minInterval"
    requires ConvertTimeInTimeSampling(time) == Success(c)
    ensures SamplingReplacement(m) == Success(SamplingCall(column, IntervalText(c)))
  {
  }

  lemma MatchAtDollar(s: string, p: nat)
    requires p < |s| && s[p] != '$'
    ensures MatchAt(s, p).None?
  {
    assert SamplingHead[0] == '$';
    assert !OccursAt(s, SamplingHead, p) by {
      if p + |SamplingHead| <= |s| {
        assert s[p..p + |SamplingHead|][0] == s[p];
      }
    }
  }

  /** There is no match where there is no `$`. */
  lemma {:induction false} NoDollarNoMatch(s: string, from: nat)
    requires forall k :: from <= k < |s| ==> s[k] != '$'
    ensures SamplingExec(s, from).None?
    decreases |s| + 1 - from
  {
    if from <= |s| {
      if from < |s| {
        MatchAtDollar(s, from);
      }
      NoDollarNoMatch(s, from + 1);
    }
  }

  lemma PrefixSplice(first: string, second: string, rep: string)
    ensures ReplaceFirst(first + second, first, rep) == rep + second
  {
    var s := first + second;
    assert s[0..|first|] == first;
    IndexOfFromIs(s, first, 0, 0);
    FirstOccurrenceSplice(s, first, 0, rep);
    assert s[..0] + rep + s[|first|..] == rep + second;
  }

  lemma PrefixRound(first: string, second: string, m: SamplingMatch, rep: string)
    requires SamplingExec(first + second, 0) == Some(m)
    requires m.start == 0 && m.end == |first|
    ensures ReplaceFirst(first + second, Trim((first + second)[m.start..m.end]), rep) == rep + second
  {
    var s := first + second;
    MatchTextTrimmed(s, m);
    assert s[0..|first|] == first;
    PrefixSplice(first, second, rep);
  }

  lemma ResumeInside(rep: string, second: string, from: nat)
    requires |rep| < from
    requires forall k :: 0 < k < |second| ==> second[k] != '$'
    ensures SamplingExec(rep + second, from).None?
  {
    var t := rep + second;
    forall k | from <= k < |t|
      ensures t[k] != '$'
    {
      assert t[k] == second[k - |rep|];
    }
    NoDollarNoMatch(t, from);
  }

  lemma SuffixFound(rep: string, second: string, c2: string, t2: string)
    requires second == MatchText(c2, t2) && IsArgument(c2) && IsArgument(t2)
    ensures SamplingExec(rep + second, 0).Some?
  {
    SuffixMatch(rep, second, c2, t2);
    ExecReaches(rep + second, 0, |rep|);
  }

  lemma SuffixMatch(rep: string, second: string, c2: string, t2: string)
    requires second == MatchText(c2, t2) && IsArgument(c2) && IsArgument(t2)
    ensures MatchAt(rep + second, |rep|).Some?
  {
    var t := rep + second;
    assert t[|rep|..|rep| + |second|] == second;
    MatchAtComplete(t, |rep|, c2, t2);
  }

  /** The search finds a macro whenever one starts at or after its cursor. */
  lemma ExecReaches(s: string, from: nat, p: nat)
    requires from <= p && MatchAt(s, p).Some?
    ensures SamplingExec(s, from).Some?
  {
    assert SamplingExec(s, from).None? ==> MatchAt(s, p).None?;
  }

  /** When the first macro of `first + second` becomes a shorter call, the
      search resumes inside `second`, past its `$`, and leaves it unexpanded. */
  lemma ResumePastSkips(first: string, second: string, m: SamplingMatch, rep: string, c2: string, t2: string)
    requires SamplingExec(first + second, 0) == Some(m)
    requires m.start == 0 && m.end == |first|
    requires SamplingReplacement(m) == Success(rep)
    requires |rep| < |first|
    requires second == MatchText(c2, t2) && IsArgument(c2) && IsArgument(t2)
    requires forall k :: 0 < k < |second| ==> second[k] != '$'
    ensures SamplingFrom(first + second, 0) == (Success(rep + second), 0)
    ensures SamplingExec(rep + second, 0).Some?
  {
    PrefixRound(first, second, m, rep);
    ResumeInside(rep, second, |first|);
    SuffixFound(rep, second, c2, t2);
    assert SamplingFrom(first + second, 0) == SamplingFrom(rep + second, |first|);
  }

  lemma LeadingMatch(c: string, t: string, rest: string)
    requires IsArgument(c) && IsArgument(t)
    ensures SamplingExec(MatchText(c, t) + rest, 0) == Some(SamplingMatch(0, c, t, |MatchText(c, t)|))
  {
    var first := MatchText(c, t);
    assert (first + rest)[0..|first|] == first;
    MatchAtComplete(first + rest, 0, c, t);
  }

  predicate NoDollar(s: string) {
    forall k :: 0 <= k < |s| ==> s[k] != '$'
  }

  /** A macro holds one `$`, at its start, when its arguments hold none. */
  lemma MatchTextDollars(c: string, t: string)
    requires NoDollar(c) && NoDollar(t)
    ensures forall k :: 0 < k < |MatchText(c, t)| ==> MatchText(c, t)[k] != '$'
  {
    var text := MatchText(c, t);
    MatchTextParts(c, t);
    var h := |SamplingHead|;
    assert forall k :: 0 < k < h ==> SamplingHead[k] != '$';
    forall k | 0 < k < |text|
      ensures text[k] != '$'
    {
      if k < h {
        assert text[k] == text[..h][k];
      } else if k < h + |c| {
        assert text[k] == text[h..h + |c|][k - h];
      } else if h + |c| < k < h + |c| + 1 + |t| {
        assert text[k] == text[h + |c| + 1..h + |c| + 1 + |t|][k - h - |c| - 1];
      }
    }
  }

  /** The duration of the first macro: digits, a unit letter, trailing
      blanks. */
  lemma PaddedArgument(n: string, unit: char, pad: string)
    requires n != [] && AllDigits(n) && IsUnitLetter(unit) && AllSpace(pad)
    ensures IsArgument(n + [unit] + pad)
  {
    var x := n + [unit];
    var time := x + pad;
    forall k | 0 <= k < |time|
      ensures !IsSamplingDelim(time[k])
    {
      if k < |n| {
        assert time[k] == n[k];
      } else if k >= |x| {
        assert time[k] == pad[k - |x|];
      }
    }
  }

  lemma PaddedTrim(n: string, unit: char, pad: string)
    requires n != [] && AllDigits(n) && IsUnitLetter(unit) && AllSpace(pad)
    ensures Trim(n + [unit] + pad) == n + [unit]
    ensures n + [unit] != "$__interval" && n + [unit] != "$__minInterval"
  {
    var x := n + [unit];
    assert x[0] == n[0] && IsDigit(n[0]);
    assert !IsSpace(x[0]) && !IsSpace(x[|x| - 1]);
    TrimTrailingSpace(x, pad);
  }

  /** Two macros side by side, the first padded with blanks so that its
      call is shorter than its text: the loop as written replaces the first,
      resumes its search past the start of the second, and returns with the
      second macro still in the text. One instance: column `c`, duration
      `1d` and thirty blanks (51 characters, a 48-character call), followed
      by `$__timeSampling(d,1d)`. */
  lemma ShrunkMacroSkipsNext(c: string, n: string, unit: char, pad: string, c2: string, t2: string)
    requires IsArgument(c) && Trim(c) == c
    requires n != [] && AllDigits(n) && IsUnitLetter(unit) && AllSpace(pad)
    requires |IntervalText(IntervalOf(DigitsValue(n), [unit]))| + 22 < |n| + |pad|
    requires IsArgument(c2) && IsArgument(t2) && NoDollar(c2) && NoDollar(t2)
    ensures var first := MatchText(c, n + [unit] + pad);
      var second := MatchText(c2, t2);
      var call := SamplingCall(c, IntervalText(IntervalOf(DigitsValue(n), [unit])));
      && SamplingFrom(first + second, 0) == (Success(call + second), 0)
      && SamplingExec(call + second, 0).Some?
  {
    var time := n + [unit] + pad;
    var first := MatchText(c, time);
    var second := MatchText(c2, t2);
    var converted := IntervalOf(DigitsValue(n), [unit]);
    var call := SamplingCall(c, IntervalText(converted));
    PaddedArgument(n, unit, pad);
    PaddedTrim(n, unit, pad);
    SamplingOfLetter(n, unit);
    LeadingMatch(c, time, second);
    var m := SamplingMatch(0, c, time, |first|);
    ReplacementOfConverted(m, c, n + [unit], converted);
    MatchTextDollars(c2, t2);
    ResumePastSkips(first, second, m, call, c2, t2);
  }
  // ----- one macro in plain text -----

  /** Where the arguments and the text around hold no `$`, so does the text
      after the first `$__` of the call. */
  predicate NoHead(y: string) {
    forall k :: 0 <= k < |y| && y[k] == '$' ==> k + 7 < |y| && y[k + 7] != 'S'
  }

  lemma NoDollarConcat(a: string, b: string)
    requires NoDollar(a) && NoDollar(b)
    ensures NoDollar(a + b)
  {
    forall k | 0 <= k < |a + b|
      ensures (a + b)[k] != '$'
    {
      if k >= |a| {
        assert (a + b)[k] == b[k - |a|];
      }
    }
  }

  /** No macro starts at `p` when the character there is not `$`, or the
      eighth is not the `S` of the name. */
  lemma HeadMismatch(s: string, p: nat)
    requires p < |s| && (s[p] != '$' || (p + 7 < |s| && s[p + 7] != 'S'))
    ensures MatchAt(s, p).None?
  {
    if p + 16 <= |s| {
      assert s[p..p + 16][0] == s[p];
      assert p + 7 < |s| ==> s[p..p + 16][7] == s[p + 7];
    }
  }

  /** A text whose every `$` is followed by something other than the macro
      name holds no macro, wherever the search starts. */
  lemma NoHeadNoMatch(x: string, y: string, z: string, from: nat)
    requires NoDollar(x) && NoHead(y) && NoDollar(z)
    ensures SamplingExec(x + y + z, from).None?
  {
    var s := x + y + z;
    forall p: nat | from <= p
      ensures MatchAt(s, p).None?
    {
      if p < |s| {
        if p < |x| {
          assert s[p] == x[p];
        } else if p < |x| + |y| {
          assert s[p] == y[p - |x|];
          if s[p] == '$' {
            assert s[p + 7] == y[p - |x| + 7];
          }
        } else {
          assert s[p] == z[p - |x| - |y|];
        }
        HeadMismatch(s, p);
      }
    }
  }

  lemma CallPartsClean()
    ensures NoDollar(CallHead) && NoDollar(UnitSeparator) && NoDollar(")")
    ensures NoHead(CallMiddle)
    ensures NoHead(CallMiddle + "$__interval") && NoHead(CallMiddle + "$__minInterval")
  {
  }

  lemma IntervalTextNoDollar(c: SamplingInterval)
    requires c.unit in SamplingUnits
    ensures NoDollar(IntervalText(c))
  {
    var head := IntToString(c.value);
    assert NoDollar(head) by {
      var d := NatToString(if c.value < 0 then -c.value else c.value);
      assert forall k :: 0 <= k < |d| ==> IsDigit(d[k]);
    }
    CallPartsClean();
    NoDollarConcat(head, UnitSeparator);
    NoDollarConcat(head + UnitSeparator, c.unit);
  }

  /** The trimmed text of an argument without `$` has none either. */
  lemma TrimNoDollar(c: string)
    requires NoDollar(c)
    ensures NoDollar(Trim(c))
  {
    var lo := TrimSlice(c);
    forall k | 0 <= k < |Trim(c)|
      ensures Trim(c)[k] != '$'
    {
      assert Trim(c)[k] == c[lo + k];
    }
  }

  /** A call in plain text holds no macro: its only `$`s are those of
      `$__timeFrom`, `$__timeTo` and a kept `$__interval` or
      `$__minInterval`. */
  lemma CallHoldsNoMacro(pre: string, column: string, interval: string, post: string, from: nat)
    requires NoDollar(pre) && NoDollar(column) && NoDollar(post)
    requires NoDollar(interval) || interval == "$__interval" || interval == "$__minInterval"
    ensures SamplingExec(pre + SamplingCall(column, interval) + post, from).None?
  {
    if NoDollar(interval) {
      ConvertedCallNoMacro(pre, column, interval, post, from);
    } else {
      CallPartsClean();
      KeptCallNoMacro(pre, column, interval, post, from);
    }
  }

  lemma ConvertedCallNoMacro(pre: string, column: string, interval: string, post: string, from: nat)
    requires NoDollar(pre) && NoDollar(column) && NoDollar(interval) && NoDollar(post)
    ensures SamplingExec(pre + SamplingCall(column, interval) + post, from).None?
  {
    CallPartsClean();
    NoDollarConcat(pre, CallHead);
    NoDollarConcat(pre + CallHead, column);
    NoDollarConcat(interval, ")");
    NoDollarConcat(interval + ")", post);
    var x := pre + CallHead + column;
    assert pre + SamplingCall(column, interval) + post == x + CallMiddle + (interval + ")" + post);
    NoHeadNoMatch(x, CallMiddle, interval + ")" + post, from);
  }

  lemma KeptCallNoMacro(pre: string, column: string, interval: string, post: string, from: nat)
    requires NoDollar(pre) && NoDollar(column) && NoDollar(post)
    requires NoHead(CallMiddle + interval)
    ensures SamplingExec(pre + SamplingCall(column, interval) + post, from).None?
  {
    CallPartsClean();
    NoDollarConcat(pre, CallHead);
    NoDollarConcat(pre + CallHead, column);
    NoDollarConcat(")", post);
    var x := pre + CallHead + column;
    assert pre + SamplingCall(column, interval) + post == x + (CallMiddle + interval) + (")" + post);
    NoHeadNoMatch(x, CallMiddle + interval, ")" + post, from);
  }

  /** A macro preceded by text without `$` is the first match. */
  lemma FirstMacro(pre: string, c: string, t: string, post: string) returns (m: SamplingMatch)
    requires NoDollar(pre) && IsArgument(c) && IsArgument(t)
    ensures m == SamplingMatch(|pre|, c, t, |pre| + |MatchText(c, t)|)
    ensures SamplingExec(pre + MatchText(c, t) + post, 0) == Some(m)
    ensures (pre + MatchText(c, t) + post)[..m.start] == pre
    ensures (pre + MatchText(c, t) + post)[m.end..] == post
  {
    var text := MatchText(c, t);
    var q := pre + text + post;
    m := SamplingMatch(|pre|, c, t, |pre| + |text|);
    assert q[|pre|..|pre| + |text|] == text;
    MatchAtComplete(q, |pre|, c, t);
    forall p: nat | p < |pre|
      ensures MatchAt(q, p).None?
    {
      assert q[p] == pre[p];
      MatchAtDollar(q, p);
    }
    assert q[..m.start] == pre;
    assert q[m.end..] == post;
  }

  /** What a macro's call holds after the column: a kept `$__interval` or
      `$__minInterval`, or the converted duration. */
  function CallInterval(time: string): string
    requires time == "$__interval" || time == "$__minInterval" || GrafanaTimeType(time).Success?
  {
    if time == "$__interval" || time == "$__minInterval" then time
    else IntervalText(ConvertTimeInTimeSampling(time).value)
  }

  /** The round on one macro between texts without `$`: it is the first
      match, its call is spliced in its place and the result holds no
      macro. */
  lemma OneMacroRound(pre: string, c: string, t: string, post: string) returns (m: SamplingMatch, out: string)
    requires NoDollar(pre) && NoDollar(c) && NoDollar(post)
    requires IsArgument(c) && IsArgument(t)
    requires Trim(t) == "$__interval" || Trim(t) == "$__minInterval" || GrafanaTimeType(Trim(t)).Success?
    ensures m == SamplingMatch(|pre|, c, t, |pre| + |MatchText(c, t)|)
    ensures SamplingExec(pre + MatchText(c, t) + post, 0) == Some(m)
    ensures SamplingReplacement(m) == Success(SamplingCall(Trim(c), CallInterval(Trim(t))))
    ensures out == pre + SamplingCall(Trim(c), CallInterval(Trim(t))) + post
    ensures forall from: nat :: SamplingExec(out, from).None?
  {
    m := FirstMacro(pre, c, t, post);
    var d := CallInterval(Trim(t));
    out := pre + SamplingCall(Trim(c), d) + post;
    TrimNoDollar(c);
    if Trim(t) != "$__interval" && Trim(t) != "$__minInterval" {
      IntervalTextNoDollar(ConvertTimeInTimeSampling(Trim(t)).value);
    }
    forall from: nat
      ensures SamplingExec(out, from).None?
    {
      CallHoldsNoMacro(pre, Trim(c), d, post, from);
    }
  }

  lemma Surrounding(pre: string, text: string, post: string)
    ensures (pre + text + post)[..|pre|] == pre
    ensures (pre + text + post)[|pre| + |text|..] == post
  {
  }

  /** One macro between texts without `$`: the rewrite puts the
      `TIME_SAMPLING` call in its place, with both arguments trimmed,
      `$__interval` and `$__minInterval` kept for the special-variable pass
      and any other duration converted; the rest of the text is unchanged. */
  lemma OneMacroRewrite(pre: string, c: string, t: string, post: string)
    requires NoDollar(pre) && NoDollar(c) && NoDollar(post)
    requires IsArgument(c) && IsArgument(t)
    requires Trim(t) == "$__interval" || Trim(t) == "$__minInterval" || GrafanaTimeType(Trim(t)).Success?
    ensures SamplingRewrite(pre + MatchText(c, t) + post)
      == Success(pre + SamplingCall(Trim(c), CallInterval(Trim(t))) + post)
  {
    var q := pre + MatchText(c, t) + post;
    var m, out := OneMacroRound(pre, c, t, post);
    var rep := SamplingCall(Trim(c), CallInterval(Trim(t)));
    Surrounding(pre, MatchText(c, t), post);
    ReplacementMarks(m);
    SpliceDecreases(q, m, rep);
    assert SamplingRewrite(q) == SamplingRewrite(out);
    assert SamplingExec(out, 0).None?;
  }

  /** The loop as written does the same on one macro, and leaves the cursor
      at 0. */
  lemma OneMacroLoop(pre: string, c: string, t: string, post: string)
    requires NoDollar(pre) && NoDollar(c) && NoDollar(post)
    requires IsArgument(c) && IsArgument(t)
    requires Trim(t) == "$__interval" || Trim(t) == "$__minInterval" || GrafanaTimeType(Trim(t)).Success?
    ensures SamplingFrom(pre + MatchText(c, t) + post, 0)
      == (Success(pre + SamplingCall(Trim(c), CallInterval(Trim(t))) + post), 0)
  {
    var q := pre + MatchText(c, t) + post;
    var m, out := OneMacroRound(pre, c, t, post);
    var rep := SamplingCall(Trim(c), CallInterval(Trim(t)));
    Surrounding(pre, MatchText(c, t), post);
    LeftmostReplaceIsSplice(q, m, rep);
    var next := ReplaceFirst(q, Trim(q[m.start..m.end]), rep);
    assert next == out;
    assert SamplingContinue(q, Some(m)) == SamplingFrom(next, m.end);
    assert SamplingExec(out, m.end).None?;
    assert SamplingFrom(out, m.end) == SamplingContinue(out, None);
  }

  /** A macro on its own: the call takes its place. */
  lemma OneMacroAlone(c: string, t: string)
    requires NoDollar(c) && IsArgument(c) && IsArgument(t)
    requires Trim(t) == "$__interval" || Trim(t) == "$__minInterval" || GrafanaTimeType(Trim(t)).Success?
    ensures var out := SamplingCall(Trim(c), CallInterval(Trim(t)));
      SamplingRewrite(MatchText(c, t)) == Success(out) && SamplingFrom(MatchText(c, t), 0) == (Success(out), 0)
  {
    var out := SamplingCall(Trim(c), CallInterval(Trim(t)));
    assert NoDollar("");
    assert MatchText(c, t) == "" + MatchText(c, t) + "";
    assert out == "" + out + "";
    OneMacroRewrite("", c, t, "");
    OneMacroLoop("", c, t, "");
  }

  /** A duration with a blank before it is an argument, and trims to
      itself. */
  lemma BlankBefore(x: string)
    requires IsArgument(x) && !IsSpace(x[0]) && !IsSpace(x[|x| - 1])
    ensures IsArgument(" " + x) && Trim(" " + x) == x
  {
    var t := " " + x;
    forall k | 0 <= k < |t|
      ensures !IsSamplingDelim(t[k])
    {
      if 0 < k {
        assert t[k] == x[k - 1];
      }
    }
    TrimPadded(" ", x, "");
    assert " " + x + "" == t;
  }

  /** Whole days: `nd` is an argument and converts to `n, DAY`. */
  lemma DaysDuration(n: string)
    requires n != [] && AllDigits(n)
    ensures var x := n + "d";
      && IsArgument(x) && !IsSpace(x[0]) && !IsSpace(x[|x| - 1])
      && x != "$__interval" && x != "$__minInterval" && GrafanaTimeType(x).Success?
      && CallInterval(x) == IntToString(DigitsValue(n)) + ", DAY"
  {
    DaysArgument(n);
    DaysConverted(n);
  }

  lemma DaysArgument(n: string)
    requires n != [] && AllDigits(n)
    ensures var x := n + "d";
      && IsArgument(x) && !IsSpace(x[0]) && !IsSpace(x[|x| - 1])
      && x != "$__interval" && x != "$__minInterval"
  {
    var x := n + "d";
    assert x[0] == n[0] && IsDigit(n[0]);
    forall k | 0 <= k < |x|
      ensures !IsSamplingDelim(x[k])
    {
      if k < |n| {
        assert x[k] == n[k];
      }
    }
  }

  lemma DaysConverted(n: string)
    requires n != [] && AllDigits(n)
    ensures ConvertTimeInTimeSampling(n + "d") == Success(SamplingInterval(DigitsValue(n), "DAY"))
    ensures IntervalText(SamplingInterval(DigitsValue(n), "DAY")) == IntToString(DigitsValue(n)) + ", DAY"
  {
    SamplingUnitTable(n);
    DayText(DigitsValue(n));
  }

  lemma DayText(v: int)
    ensures IntervalText(SamplingInterval(v, "DAY")) == IntToString(v) + ", DAY"
  {
    assert UnitSeparator + "DAY" == ", DAY";
  }

  /** A duration of whole days, written with a blank before it, is
      converted: `$__timeSampling(c, nd)` becomes
      `TIME_SAMPLING(c, $__timeFrom, $__timeTo, n, DAY)`. */
  lemma DaysSampling(c: string, n: string)
    requires IsArgument(c) && NoDollar(c)
    requires n != [] && AllDigits(n)
    ensures var q := MatchText(c, " " + n + "d");
      var out := SamplingCall(Trim(c), IntToString(DigitsValue(n)) + ", DAY");
      SamplingRewrite(q) == Success(out) && SamplingFrom(q, 0) == (Success(out), 0)
  {
    DaysDuration(n);
    BlankBefore(n + "d");
    Assoc3(" ", n, "d");
    OneMacroAlone(c, " " + (n + "d"));
  }

  /** `$__timeSampling(c, $__interval)` and `$__timeSampling(c,
      $__minInterval)` keep the variable for the special-variable pass. */
  lemma KeptSampling(c: string, v: string)
    requires IsArgument(c) && NoDollar(c)
    requires v == "$__interval" || v == "$__minInterval"
    ensures var q := MatchText(c, " " + v);
      var out := SamplingCall(Trim(c), v);
      SamplingRewrite(q) == Success(out) && SamplingFrom(q, 0) == (Success(out), 0)
  {
    assert IsArgument(v) && !IsSpace(v[0]) && !IsSpace(v[|v| - 1]);
    BlankBefore(v);
    OneMacroAlone(c, " " + v);
  }

  /** `$__timeSampling(col1, 3d)` becomes
      `TIME_SAMPLING(col1, $__timeFrom, $__timeTo, 3, DAY)`, by the loop and
      by the rewrite alike. */
  lemma DaySamplingExample(q: string)
    requires q == "$__timeSampling(col1, 3d)"
    ensures SamplingRewrite(q) == Success("TIME_SAMPLING(col1" + ", $__timeFrom, $__timeTo, " + "3, DAY)")
    ensures SamplingFrom(q, 0) == (Success("TIME_SAMPLING(col1" + ", $__timeFrom, $__timeTo, " + "3, DAY)"), 0)
  {
    var c, n := DayPieces(q);
    PlainColumn(c);
    ThreeDigits(n);
    DayCallText(c, n);
    DaysSampling(c, n);
  }

  lemma PlainColumn(c: string)
    requires c == "col1" || c == "t" || c == "c"
    ensures IsArgument(c) && NoDollar(c) && Trim(c) == c
  {
    assert !IsSpace(c[0]) && !IsSpace(c[|c| - 1]);
  }

  lemma ThreeDigits(n: string)
    requires n == "3"
    ensures AllDigits(n) && n != [] && IntToString(DigitsValue(n)) == n
  {
    assert DigitsValue(n) == 3;
  }

  lemma DayPieces(q: string) returns (c: string, n: string)
    requires q == "$__timeSampling(col1, 3d)"
    ensures q == MatchText(c, " " + n + "d")
    ensures c == "col1" && n == "3"
  {
    c, n := "col1", "3";
    DayQueryText(q, c, n);
  }

  lemma DayQueryText(q: string, c: string, n: string)
    requires q == "$__timeSampling(col1, 3d)" && c == "col1" && n == "3"
    ensures q == MatchText(c, " " + n + "d")
  {
  }

  lemma DayCallText(c: string, n: string)
    requires c == "col1" && n == "3"
    ensures "TIME_SAMPLING(col1" + ", $__timeFrom, $__timeTo, " + "3, DAY)" == SamplingCall(c, n + ", DAY")
  {
    var a, d, e := "TIME_SAMPLING(", "3, DAY", ")";
    assert a + c == "TIME_SAMPLING(col1";
    assert d + e == "3, DAY)";
    Assoc5(a, c, CallMiddle, d, e);
  }

  /** `$__timeSampling(t, $__interval)` becomes
      `TIME_SAMPLING(t, $__timeFrom, $__timeTo, $__interval)`. */
  lemma IntervalSamplingExample(q: string)
    requires q == "$__timeSampling(t, $__interval)"
    ensures SamplingRewrite(q) == Success("TIME_SAMPLING(t" + ", $__timeFrom, $__timeTo, " + "$__interval)")
    ensures SamplingFrom(q, 0) == (Success("TIME_SAMPLING(t" + ", $__timeFrom, $__timeTo, " + "$__interval)"), 0)
  {
    var c, v := IntervalPieces(q);
    PlainColumn(c);
    IntervalCallText(c, v);
    KeptSampling(c, v);
  }

  lemma IntervalPieces(q: string) returns (c: string, v: string)
    requires q == "$__timeSampling(t, $__interval)"
    ensures q == MatchText(c, " " + v)
    ensures c == "t" && v == "$__interval"
  {
    c, v := "t", "$__interval";
  }

  lemma IntervalCallText(c: string, v: string)
    requires c == "t" && v == "$__interval"
    ensures "TIME_SAMPLING(t" + ", $__timeFrom, $__timeTo, " + "$__interval)" == SamplingCall(c, v)
  {
    var a, e := "TIME_SAMPLING(", ")";
    assert a + c == "TIME_SAMPLING(t";
    assert v + e == "$__interval)";
    Assoc5(a, c, CallMiddle, v, e);
  }

  lemma Assoc3(a: string, b: string, c: string)
    ensures a + b + c == a + (b + c)
  {
  }

  lemma Assoc5(a: string, b: string, m: string, d: string, e: string)
    ensures (a + b) + m + (d + e) == a + b + m + d + e
  {
  }
}
