/**
 * The query editor's where-segment list (src/data_query_ctrl.ts). The
 * editor shows the saved where entries as a flat list of segments
 *   key operator value [condition key operator value]* plus-button
 * edits that list in place as the user picks segments, and rebuilds the
 * target's where entries from it after every edit. Segments are modelled as
 * `{type, value}` records; the segment factories of the host stand for the
 * records they build.
 */
module DataQueryCtrl {

  import opened Wrappers
  import opened Js
  import opened Records
  import Constants

  /** The `type` of a segment; `Untyped` is the remove choice and anything
      else without one of the five types. */
  datatype SegmentKind = Key | Operator | Value | Condition | PlusButton | Untyped

  datatype Segment = Segment(kind: SegmentKind, value: Option<string>)

  const RemoveValue := "--remove--"
  const InputValue := "--input value--"
  const UpdateFailMessage := "Update where segment fail."
  /** What the engine throws when a property of a missing entry is read or
      written (the exact text is the engine's). */
  const UndefinedEntryMessage := "TypeError: entry is undefined"

  /** `uiSegmentSrv.newPlusButton()`. */
  const PlusButtonSegment := Segment(PlusButton, None)
  /** `uiSegmentSrv.newCondition('AND')`. */
  const AndSegment := Segment(Condition, Some("AND"))
  /** `uiSegmentSrv.newOperator('=')`. */
  const EqualsSegment := Segment(Operator, Some("="))
  /** `uiSegmentSrv.newFake('--input value--', 'value', ...)`. */
  const InputValueSegment := Segment(Value, Some(InputValue))

  /** `array.splice(start, deleteCount, ...items)` for a start that is not
      negative: both counts are cut to the length. */
  function Splice(s: seq<Segment>, start: nat, deleteCount: nat, items: seq<Segment>): (r: seq<Segment>)
    ensures start + deleteCount <= |s| ==> |r| == |s| - deleteCount + |items|
    ensures start <= |s| < start + deleteCount ==> |r| == start + |items|
    ensures |s| < start ==> |r| == |s| + |items|
  {
    var a := if start <= |s| then start else |s|;
    var d := if a + deleteCount <= |s| then deleteCount else |s| - a;
    s[..a] + items + s[a + d..]
  }

  /** What stays where: the part before the start is kept, the items stand
      at the start and the part after the deleted run follows them; a run
      past the end deletes to the end, and a start past the end appends. */
  lemma SpliceParts(s: seq<Segment>, start: nat, deleteCount: nat, items: seq<Segment>)
    ensures var r := Splice(s, start, deleteCount, items);
      && (start <= |s| ==> r[..start] == s[..start] && r[start..start + |items|] == items)
      && (start + deleteCount <= |s| ==> r[start + |items|..] == s[start + deleteCount..])
      && (start <= |s| < start + deleteCount ==> r == s[..start] + items)
      && (|s| < start ==> r == s + items)
  {
    var r := Splice(s, start, deleteCount, items);
    if start <= |s| {
      assert r[..start] == s[..start];
      assert r[start..start + |items|] == items;
    }
    if start + deleteCount <= |s| {
      assert r[start + |items|..] == s[start + deleteCount..];
    }
  }

  /** Removing what an insertion put in gives the list back. */
  lemma SpliceUndo(s: seq<Segment>, start: nat, items: seq<Segment>)
    requires start <= |s|
    ensures Splice(Splice(s, start, 0, items), start, |items|, []) == s
  {
    var t := Splice(s, start, 0, items);
    assert t == s[..start] + items + s[start..];
    assert t[..start] == s[..start];
    assert t[start + |items|..] == s[start..];
    assert s[..start] + s[start..] == s;
  }

  // ---------------------------------------------------------------------
  // initialDefaultValues: the segments of the saved entries

  /** The segments one saved entry shows: its condition when truthy, then
      key, operator and value. */
  function EntrySegments(w: WhereEntry): (r: seq<Segment>)
    ensures 3 <= |r| <= 4
  {
    (if TruthyText(w.condition) then [Segment(Condition, w.condition)] else [])
    + [Segment(Key, w.key), Segment(Operator, w.operator), Segment(Value, w.value)]
  }

  /** The segments `initialDefaultValues` builds from the saved entries. */
  function InitialSegments(ws: seq<WhereEntry>): (r: seq<Segment>)
    ensures ws == [] <==> r == []
    ensures r == [] || |r| >= 3
  {
    if ws == [] then []
    else InitialSegments(ws[..|ws| - 1]) + EntrySegments(ws[|ws| - 1])
  }

  /** One more entry of a list extends the segments of its prefix. */
  lemma PrefixSnoc(ws: seq<WhereEntry>, i: nat)
    requires i < |ws|
    ensures InitialSegments(ws[..i + 1]) == InitialSegments(ws[..i]) + EntrySegments(ws[i])
  {
    assert ws[..i + 1][..i] == ws[..i];
  }

  /** One more entry appends its segments. */
  lemma {:induction false} InitialSnoc(ws: seq<WhereEntry>, w: WhereEntry)
    ensures InitialSegments(ws + [w]) == InitialSegments(ws) + EntrySegments(w)
  {
    var ws' := ws + [w];
    assert ws'[..|ws'| - 1] == ws;
  }

  lemma {:induction false} InitialConcat(a: seq<WhereEntry>, b: seq<WhereEntry>)
    ensures InitialSegments(a + b) == InitialSegments(a) + InitialSegments(b)
    decreases |b|
  {
    if b == [] {
      assert a + b == a;
    } else {
      var b' := b[..|b| - 1];
      var x := b[|b| - 1];
      assert b == b' + [x];
      assert a + b == (a + b') + [x];
      InitialConcat(a, b');
      InitialSnoc(a + b', x);
      InitialSnoc(b', x);
    }
  }

  /** The segments of the entries around the `k`-th. */
  lemma {:induction false} InitialAround(ws: seq<WhereEntry>, k: nat)
    requires k < |ws|
    ensures InitialSegments(ws) ==
      InitialSegments(ws[..k]) + EntrySegments(ws[k]) + InitialSegments(ws[k + 1..])
  {
    var front := ws[..k] + [ws[k]];
    assert ws == front + ws[k + 1..];
    InitialConcat(front, ws[k + 1..]);
    InitialSnoc(ws[..k], ws[k]);
  }

  /** The shape `rebuildTargetWhereConditions` reads back: the first entry
      has no condition and every later one a truthy condition. */
  predicate WellFormedWheres(ws: seq<WhereEntry>) {
    && (ws != [] ==> ws[0].condition.None?)
    && (forall i :: 0 < i < |ws| ==> TruthyText(ws[i].condition))
  }

  // ---------------------------------------------------------------------
  // rebuildTargetWhereConditions

  /** The loop state: the entries built so far, the index of the current
      entry, the segments (the loop rewrites operators) and the error that
      stopped it, if any. */
  datatype RebuildState = RebuildState(
    wheres: seq<WhereEntry>,
    tagIndex: nat,
    segments: seq<Segment>,
    error: Option<string>)

  const NoEntry := WhereEntry(None, None, None, None)

  /** One turn of the loop, on the segment at `index`. */
  function Step(st: RebuildState, seg: Segment, index: nat): RebuildState {
    if st.error.Some? then st
    else
      match seg.kind
      case Key =>
        var ws := if st.wheres == [] then [NoEntry] else st.wheres;
        if st.tagIndex < |ws| then
          st.(wheres := ws[st.tagIndex := ws[st.tagIndex].(key := seg.value)])
        else st.(error := Some(UndefinedEntryMessage))
      case Value =>
        if st.tagIndex < |st.wheres| then
          var tagOperator := st.wheres[st.tagIndex].operator;
          var segments :=
            if TruthyText(tagOperator) && 1 <= index <= |st.segments| then
              st.segments[index - 1 := Segment(Operator, tagOperator)]
            else st.segments;
          st.(wheres := st.wheres[st.tagIndex := st.wheres[st.tagIndex].(value := seg.value)],
              segments := segments)
        else st.(error := Some(UndefinedEntryMessage))
      case Condition =>
        st.(wheres := st.wheres + [NoEntry.(condition := seg.value)], tagIndex := st.tagIndex + 1)
      case Operator =>
        if st.tagIndex < |st.wheres| then
          st.(wheres := st.wheres[st.tagIndex := st.wheres[st.tagIndex].(operator := seg.value)])
        else st.(error := Some(UndefinedEntryMessage))
      case _ => st
  }

  /** The loop state after the first `n` segments of `all`. */
  function RebuildPrefix(all: seq<Segment>, n: nat): (st: RebuildState)
    requires n <= |all|
    ensures |st.segments| == |all|
  {
    if n == 0 then RebuildState([], 0, all, None)
    else Step(RebuildPrefix(all, n - 1), all[n - 1], n - 1)
  }

  /** The loop state after every segment. */
  function Rebuild(all: seq<Segment>): RebuildState {
    RebuildPrefix(all, |all|)
  }

  /** Once the loop has thrown, nothing changes any more. */
  lemma {:induction false} ErrorSticks(all: seq<Segment>, n: nat, m: nat)
    requires n <= m <= |all| && RebuildPrefix(all, n).error.Some?
    ensures RebuildPrefix(all, m) == RebuildPrefix(all, n)
    decreases m - n
  {
    if n < m {
      ErrorSticks(all, n, m - 1);
    }
  }

  /** The loop state after the segments of the first `k` of a well-formed
      list of entries. */
  function ReadBack(ws: seq<WhereEntry>, all: seq<Segment>): RebuildState {
    RebuildState(ws, if ws == [] then 0 else |ws| - 1, all, None)
  }

  /** The operator and value segments of an entry fill in the current
      entry; the operator rewrite writes back the segment already there. */
  lemma {:induction false} OperatorValueReadBack(pre: seq<WhereEntry>, w: WhereEntry, all: seq<Segment>, n: nat)
    requires n + 2 <= |all| && all[n] == Segment(Operator, w.operator) && all[n + 1] == Segment(Value, w.value)
    requires RebuildPrefix(all, n) == RebuildState(pre + [NoEntry.(condition := w.condition, key := w.key)], |pre|, all, None)
    ensures RebuildPrefix(all, n + 2) == RebuildState(pre + [w], |pre|, all, None)
  {
    var e1 := NoEntry.(condition := w.condition, key := w.key);
    var e2 := e1.(operator := w.operator);
    assert (pre + [e1])[|pre| := e2] == pre + [e2];
    assert RebuildPrefix(all, n + 1) == RebuildState(pre + [e2], |pre|, all, None);
    assert all[n := Segment(Operator, w.operator)] == all;
    assert e2.(value := w.value) == w;
    assert (pre + [e2])[|pre| := w] == pre + [w];
  }

  /** The first entry: its key segment opens it. */
  lemma {:induction false} FirstEntryReadBack(w: WhereEntry, all: seq<Segment>, n: nat)
    requires w.condition == None
    requires n + 3 <= |all| && all[n..n + 3] == EntrySegments(w)
    requires RebuildPrefix(all, n) == ReadBack([], all)
    ensures RebuildPrefix(all, n + 3) == ReadBack([w], all)
  {
    var es := EntrySegments(w);
    var e1 := NoEntry.(condition := w.condition, key := w.key);
    assert all[n] == es[0] && all[n + 1] == es[1] && all[n + 2] == es[2];
    assert [NoEntry][0 := e1] == [] + [e1];
    OperatorValueReadBack([], w, all, n + 1);
    assert [] + [w] == [w];
  }

  /** A later entry: its condition segment opens it. */
  lemma {:induction false} LaterEntryReadBack(ws: seq<WhereEntry>, w: WhereEntry, all: seq<Segment>, n: nat)
    requires ws != []
    requires n + 4 <= |all| && all[n] == Segment(Condition, w.condition) && all[n + 1] == Segment(Key, w.key)
    requires all[n + 2] == Segment(Operator, w.operator) && all[n + 3] == Segment(Value, w.value)
    requires RebuildPrefix(all, n) == ReadBack(ws, all)
    ensures RebuildPrefix(all, n + 4) == ReadBack(ws + [w], all)
  {
    var e0 := NoEntry.(condition := w.condition);
    var e1 := e0.(key := w.key);
    assert RebuildPrefix(all, n + 1) == RebuildState(ws + [e0], |ws|, all, None);
    assert (ws + [e0])[|ws| := e1] == ws + [e1];
    OperatorValueReadBack(ws, w, all, n + 2);
  }

  /** Reading one more entry's segments back appends that entry. */
  lemma {:induction false} EntryReadBack(ws: seq<WhereEntry>, w: WhereEntry, all: seq<Segment>, n: nat)
    requires WellFormedWheres(ws + [w])
    requires n + |EntrySegments(w)| <= |all| && all[n..n + |EntrySegments(w)|] == EntrySegments(w)
    requires RebuildPrefix(all, n) == ReadBack(ws, all)
    ensures RebuildPrefix(all, n + |EntrySegments(w)|) == ReadBack(ws + [w], all)
  {
    if ws == [] {
      assert (ws + [w])[0] == w;
      FirstEntryPlaced(w, all, n);
      SameRebuild(all, n + 3, n + |EntrySegments(w)|, [w], ws + [w]);
    } else {
      assert (ws + [w])[|ws|] == w;
      LaterEntryPlaced(ws, w, all, n);
    }
  }

  lemma FirstEntryPlaced(w: WhereEntry, all: seq<Segment>, n: nat)
    requires w.condition.None?
    requires n + |EntrySegments(w)| <= |all| && all[n..n + |EntrySegments(w)|] == EntrySegments(w)
    requires RebuildPrefix(all, n) == ReadBack([], all)
    ensures |EntrySegments(w)| == 3 && RebuildPrefix(all, n + 3) == ReadBack([w], all)
  {
    assert |EntrySegments(w)| == 3;
    FirstEntryReadBack(w, all, n);
  }

  lemma LaterEntryPlaced(ws: seq<WhereEntry>, w: WhereEntry, all: seq<Segment>, n: nat)
    requires ws != [] && TruthyText(w.condition)
    requires n + |EntrySegments(w)| <= |all| && all[n..n + |EntrySegments(w)|] == EntrySegments(w)
    requires RebuildPrefix(all, n) == ReadBack(ws, all)
    ensures RebuildPrefix(all, n + |EntrySegments(w)|) == ReadBack(ws + [w], all)
  {
    var es := EntrySegments(w);
    assert all[n] == es[0] && all[n + 1] == es[1] && all[n + 2] == es[2] && all[n + 3] == es[3];
    LaterEntryReadBack(ws, w, all, n);
    SameRebuild(all, n + 4, n + |es|, ws + [w], ws + [w]);
  }

  /** Rebuilding from the segments of a well-formed list of saved entries
      gives those entries back, and leaves the segments as they were. */
  lemma {:induction false} RebuildInitial(ws: seq<WhereEntry>, all: seq<Segment>)
    requires WellFormedWheres(ws)
    requires |InitialSegments(ws)| <= |all| && all[..|InitialSegments(ws)|] == InitialSegments(ws)
    ensures RebuildPrefix(all, |InitialSegments(ws)|) == ReadBack(ws, all)
    decreases |ws|
  {
    if ws != [] {
      var init, w := SplitLastEntry(ws);
      var whole := InitialSegments(ws);
      var n := |InitialSegments(init)|;
      PrefixOfPrefix(all, whole, n);
      RebuildInitial(init, all);
      SliceOfPrefix(all, whole, n);
      EntryReadBack(init, w, all, n);
      SameRebuild(all, n + |EntrySegments(w)|, |whole|, init + [w], ws);
    }
  }

  lemma SameRebuild(all: seq<Segment>, m: nat, m': nat, ws: seq<WhereEntry>, ws': seq<WhereEntry>)
    requires m == m' <= |all| && ws == ws'
    requires RebuildPrefix(all, m) == ReadBack(ws, all)
    ensures RebuildPrefix(all, m') == ReadBack(ws', all)
  {
  }

  /** The entries before the last are well formed, and their segments
      come first. */
  lemma SplitLastEntry(ws: seq<WhereEntry>) returns (init: seq<WhereEntry>, w: WhereEntry)
    requires WellFormedWheres(ws) && ws != []
    ensures ws == init + [w] && WellFormedWheres(init)
    ensures var whole := InitialSegments(ws);
      var n := |InitialSegments(init)|;
      && n + |EntrySegments(w)| == |whole|
      && whole[..n] == InitialSegments(init) && whole[n..] == EntrySegments(w)
  {
    init := ws[..|ws| - 1];
    w := ws[|ws| - 1];
    assert ws == init + [w];
    assert forall i :: 0 <= i < |init| ==> init[i] == ws[i];
    InitialSnoc(init, w);
  }

  lemma PrefixOfPrefix<T>(all: seq<T>, whole: seq<T>, n: nat)
    requires n <= |whole| <= |all| && all[..|whole|] == whole
    ensures all[..n] == whole[..n]
  {
    assert all[..|whole|][..n] == all[..n];
  }

  lemma SliceOfPrefix<T>(all: seq<T>, whole: seq<T>, n: nat)
    requires n <= |whole| <= |all| && all[..|whole|] == whole
    ensures all[n..|whole|] == whole[n..]
  {
    assert all[..|whole|][n..] == all[n..|whole|];
  }

  /** The round trip of `initialDefaultValues` and
      `rebuildTargetWhereConditions`. */
  lemma {:induction false} RoundTrip(ws: seq<WhereEntry>)
    requires WellFormedWheres(ws)
    ensures Rebuild(InitialSegments(ws)) == ReadBack(ws, InitialSegments(ws))
  {
    RebuildInitial(ws, InitialSegments(ws));
  }

  /** Plus buttons and untyped segments are passed over. */
  lemma {:induction false} PlusButtonsIgnored(all: seq<Segment>, n: nat)
    requires n < |all| && (all[n].kind == PlusButton || all[n].kind == Untyped)
    ensures RebuildPrefix(all, n + 1) == RebuildPrefix(all, n)
  {
  }

  /** Each condition segment opens a new entry holding its value. */
  lemma {:induction false} ConditionOpensEntry(all: seq<Segment>, n: nat)
    requires n < |all| && all[n].kind == Condition && RebuildPrefix(all, n).error.None?
    ensures var before := RebuildPrefix(all, n);
            RebuildPrefix(all, n + 1) == before.(
              wheres := before.wheres + [WhereEntry(all[n].value, None, None, None)],
              tagIndex := before.tagIndex + 1)
  {
  }

  // ---------------------------------------------------------------------
  // whereSegmentUpdated

  /** What `--remove--` does, after the segment was stored: three segments
      go, an emptied list gets a plus button, and a list of more than two
      loses the connective before the removed entry. */
  function RemoveStep(s: seq<Segment>, index: nat): seq<Segment> {
    var t := Splice(s, index, 3, []);
    var t1 := if |t| == 0 then t + [PlusButtonSegment] else t;
    if |t1| > 2 then
      var t2 := Splice(t1, if index >= 1 then index - 1 else 0, 1, []);
      if t2[|t2| - 1].kind != PlusButton then t2 + [PlusButtonSegment] else t2
    else t1
  }

  /** What choosing the plus button does: an `AND` before it when it is not
      the first entry, `=` and the value placeholder at the end, and the
      chosen segment (unless already removed) becomes a key. */
  function PlusStep(s: seq<Segment>, seg: Segment, index: nat, removed: bool): seq<Segment>
    requires !removed ==> index < |s|
  {
    var t := if index > 2 then Splice(s, index, 0, [AndSegment]) else s;
    var t1 := t + [EqualsSegment] + [InputValueSegment];
    var at := if index > 2 then index + 1 else index;
    if removed then t1 else t1[at := seg.(kind := Key)]
  }

  /** The segment list after `whereSegmentUpdated(seg, index)`. */
  function UpdatedSegments(segs: seq<Segment>, seg: Segment, index: nat): seq<Segment>
    requires index < |segs|
  {
    var s1 := segs[index := seg];
    var removed := seg.value == Some(RemoveValue);
    var s2 := if removed then RemoveStep(s1, index) else s1;
    var s3 := if seg.kind == PlusButton then PlusStep(s2, seg, index, removed) else s2;
    if index + 1 == |s3| && index >= 2 then s3 + [PlusButtonSegment] else s3
  }

  /** The new entry choosing the plus button with column `column` adds. */
  function AddedEntry(ws: seq<WhereEntry>, column: string): WhereEntry {
    WhereEntry(if ws == [] then None else Some("AND"), Some(column), Some("="), Some(InputValue))
  }

  /** In the editor's layout, choosing a column from the trailing plus button
      adds an entry for it (joined by `AND` unless it is the first), with
      `=` and the value placeholder. */
  lemma {:induction false} AddEntry(ws: seq<WhereEntry>, column: string)
    requires WellFormedWheres(ws) && column != RemoveValue
    ensures var segs := InitialSegments(ws) + [PlusButtonSegment];
            UpdatedSegments(segs, Segment(PlusButton, Some(column)), |segs| - 1)
              == InitialSegments(ws + [AddedEntry(ws, column)])
    ensures WellFormedWheres(ws + [AddedEntry(ws, column)])
  {
    var w := AddedEntry(ws, column);
    AddEntrySegments(ws, column);
    assert forall i :: 0 < i < |ws + [w]| ==> TruthyText((ws + [w])[i].condition) by {
      forall i | 0 < i < |ws + [w]| ensures TruthyText((ws + [w])[i].condition) {
        if i < |ws| {
          assert (ws + [w])[i] == ws[i];
        }
      }
    }
  }

  lemma AddEntrySegments(ws: seq<WhereEntry>, column: string)
    requires column != RemoveValue
    ensures var segs := InitialSegments(ws) + [PlusButtonSegment];
            UpdatedSegments(segs, Segment(PlusButton, Some(column)), |segs| - 1)
              == InitialSegments(ws + [AddedEntry(ws, column)])
  {
    var a := InitialSegments(ws);
    var segs := a + [PlusButtonSegment];
    var index := |a|;
    var seg := Segment(PlusButton, Some(column));
    var key := Segment(Key, Some(column));
    var w := AddedEntry(ws, column);
    InitialSnoc(ws, w);
    var s1 := segs[index := seg];
    assert s1 == a + [seg];
    var s3 := PlusStep(s1, seg, index, false);
    if ws == [] {
      assert s3 == [key, EqualsSegment, InputValueSegment];
      assert EntrySegments(w) == [key, EqualsSegment, InputValueSegment];
    } else {
      assert Splice(s1, index, 0, [AndSegment]) == a + [AndSegment] + [seg];
      assert s3 == a + [AndSegment, key, EqualsSegment, InputValueSegment];
      assert EntrySegments(w) == [AndSegment, key, EqualsSegment, InputValueSegment];
    }
    assert UpdatedSegments(segs, seg, index) == s3;
  }

  /** Setting the value of the last entry of a list that has no trailing
      plus button (as after `AddEntry`) stores it and appends a plus
      button. */
  lemma {:induction false} SetLastValue(ws: seq<WhereEntry>, v: string)
    requires ws != [] && v != RemoveValue
    ensures var segs := InitialSegments(ws);
            var last := ws[|ws| - 1];
            UpdatedSegments(segs, Segment(Value, Some(v)), |segs| - 1)
              == InitialSegments(ws[..|ws| - 1] + [last.(value := Some(v))]) + [PlusButtonSegment]
  {
    var init := ws[..|ws| - 1];
    var last := ws[|ws| - 1];
    var w := last.(value := Some(v));
    assert (init + [w])[..|init|] == init;
    assert InitialSegments(init + [w]) == InitialSegments(init) + EntrySegments(w);
    assert EntrySegments(w) == EntrySegments(last)[|EntrySegments(last)| - 1 := Segment(Value, Some(v))];
  }

  /** The entries left after removing the `k`-th: the next entry becomes the
      first and loses its condition when the first is removed. */
  function RemovedEntries(ws: seq<WhereEntry>, k: nat): seq<WhereEntry>
    requires k < |ws|
  {
    if k > 0 then ws[..k] + ws[k + 1..]
    else if |ws| == 1 then []
    else [ws[1].(condition := None)] + ws[2..]
  }

  /** Where the key segment of the `k`-th entry stands. */
  function KeyPosition(ws: seq<WhereEntry>, k: nat): nat
    requires k < |ws|
  {
    |InitialSegments(ws[..k])| + (if TruthyText(ws[k].condition) then 1 else 0)
  }

  /** Removing through a key segment never reaches the plus-button branch,
      and the plus button appended after a last-segment edit is decided on
      the reshaped list. */
  lemma {:induction false} RemoveChoice(segs: seq<Segment>, index: nat)
    requires index < |segs|
    ensures var s3 := RemoveStep(segs[index := Segment(Key, Some(RemoveValue))], index);
            UpdatedSegments(segs, Segment(Key, Some(RemoveValue)), index)
              == if index + 1 == |s3| && index >= 2 then s3 + [PlusButtonSegment] else s3
  {
  }

  /** Removing an entry that follows a connective takes the connective too. */
  lemma {:induction false} RemoveAfterConnective(a: seq<Segment>, entry: seq<Segment>, b: seq<Segment>, key: Segment)
    requires |a| >= 3 && |entry| == 4
    ensures RemoveStep(a + [entry[0], key, entry[2], entry[3]] + b + [PlusButtonSegment], |a| + 1)
      == a + b + [PlusButtonSegment]
  {
    var s := a + [entry[0], key, entry[2], entry[3]] + b + [PlusButtonSegment];
    var t := a + [entry[0]] + b + [PlusButtonSegment];
    assert Splice(s, |a| + 1, 3, []) == t by {
      assert s[..|a| + 1] == a + [entry[0]] && s[|a| + 4..] == b + [PlusButtonSegment];
    }
    assert Splice(t, |a|, 1, []) == a + b + [PlusButtonSegment] by {
      assert t[..|a|] == a && t[|a| + 1..] == b + [PlusButtonSegment];
    }
  }

  /** Removing the first entry takes the connective of the next one. */
  lemma {:induction false} RemoveLeading(entry: seq<Segment>, b: seq<Segment>, key: Segment)
    requires |entry| == 3
    ensures RemoveStep([key, entry[1], entry[2]] + b + [PlusButtonSegment], 0)
      == if |b| >= 2 then b[1..] + [PlusButtonSegment] else b + [PlusButtonSegment]
  {
    var s := [key, entry[1], entry[2]] + b + [PlusButtonSegment];
    var t := Splice(s, 0, 3, []);
    assert t == b + [PlusButtonSegment];
    if |b| >= 2 {
      assert Splice(t, 0, 1, []) == b[1..] + [PlusButtonSegment];
    }
  }

  /** The segments of the entries after the first, when the first is
      removed and the second loses its condition. */
  lemma {:induction false} SecondBecomesFirst(ws: seq<WhereEntry>)
    requires WellFormedWheres(ws) && |ws| >= 2
    ensures InitialSegments(ws[1..]) == [Segment(Condition, ws[1].condition)]
      + InitialSegments([ws[1].(condition := None)] + ws[2..])
  {
    var rest := ws[1..];
    InitialAround(rest, 0);
    assert rest[..0] == [] && rest[1..] == ws[2..];
    var first := ws[1].(condition := None);
    assert TruthyText(ws[1].condition);
    InitialConcat([first], ws[2..]);
    assert [first][..0] == [];
  }

  lemma {:induction false} RemovedWellFormed(ws: seq<WhereEntry>, k: nat)
    requires WellFormedWheres(ws) && k < |ws|
    ensures WellFormedWheres(RemovedEntries(ws, k))
  {
    var r := RemovedEntries(ws, k);
    if k > 0 {
      assert forall i :: 0 < i < |r| ==> r[i] == (if i < k then ws[i] else ws[i + 1]);
    } else if |ws| > 1 {
      assert forall i :: 0 < i < |r| ==> r[i] == ws[i + 1];
    }
  }

  /** Removing an entry after the first. */
  lemma {:induction false} RemoveLater(ws: seq<WhereEntry>, k: nat)
    requires WellFormedWheres(ws) && 0 < k < |ws|
    ensures var segs := InitialSegments(ws) + [PlusButtonSegment];
            KeyPosition(ws, k) < |segs| &&
            UpdatedSegments(segs, Segment(Key, Some(RemoveValue)), KeyPosition(ws, k))
              == InitialSegments(ws[..k] + ws[k + 1..]) + [PlusButtonSegment]
  {
    var a := InitialSegments(ws[..k]);
    var b := InitialSegments(ws[k + 1..]);
    var es := EntrySegments(ws[k]);
    InitialAround(ws, k);
    InitialConcat(ws[..k], ws[k + 1..]);
    var segs := InitialSegments(ws) + [PlusButtonSegment];
    var index := KeyPosition(ws, k);
    var seg := Segment(Key, Some(RemoveValue));
    assert TruthyText(ws[k].condition);
    assert index == |a| + 1;
    assert |es| == 4;
    KeyUpdated(a, es, b, seg);
    RemoveAfterConnective(a, es, b, seg);
    RemoveChoice(segs, index);
  }

  /** Overwriting the key of a four-segment entry between `a` and `b`. */
  lemma KeyUpdated(a: seq<Segment>, es: seq<Segment>, b: seq<Segment>, seg: Segment)
    requires |es| == 4
    ensures (a + es + b + [PlusButtonSegment])[|a| + 1 := seg]
      == a + [es[0], seg, es[2], es[3]] + b + [PlusButtonSegment]
  {
    var s := a + es + b + [PlusButtonSegment];
    var t := a + [es[0], seg, es[2], es[3]] + b + [PlusButtonSegment];
    assert forall i :: 0 <= i < |s| ==> s[|a| + 1 := seg][i] == t[i];
  }

  /** Removing the first entry. */
  lemma {:induction false} RemoveFirst(ws: seq<WhereEntry>)
    requires WellFormedWheres(ws) && 0 < |ws|
    ensures var segs := InitialSegments(ws) + [PlusButtonSegment];
            KeyPosition(ws, 0) == 0 &&
            UpdatedSegments(segs, Segment(Key, Some(RemoveValue)), 0)
              == InitialSegments(RemovedEntries(ws, 0)) + [PlusButtonSegment]
  {
    var b := InitialSegments(ws[1..]);
    var es := EntrySegments(ws[0]);
    InitialAround(ws, 0);
    assert ws[..0] == [];
    var segs := InitialSegments(ws) + [PlusButtonSegment];
    var seg := Segment(Key, Some(RemoveValue));
    assert !TruthyText(ws[0].condition);
    assert |es| == 3;
    assert segs[0 := seg] == [seg, es[1], es[2]] + b + [PlusButtonSegment];
    RemoveLeading(es, b, seg);
    RemoveChoice(segs, 0);
    if |ws| > 1 {
      SecondBecomesFirst(ws);
    } else {
      assert ws[1..] == [];
    }
  }

  /** In the editor's layout, choosing `--remove--` on the key of an entry
      removes exactly that entry and keeps the layout. */
  lemma {:induction false} RemoveEntry(ws: seq<WhereEntry>, k: nat)
    requires WellFormedWheres(ws) && k < |ws|
    ensures var segs := InitialSegments(ws) + [PlusButtonSegment];
            KeyPosition(ws, k) < |segs| &&
            UpdatedSegments(segs, Segment(Key, Some(RemoveValue)), KeyPosition(ws, k))
              == InitialSegments(RemovedEntries(ws, k)) + [PlusButtonSegment]
    ensures WellFormedWheres(RemovedEntries(ws, k))
  {
    if k > 0 {
      RemoveLater(ws, k);
    } else {
      RemoveFirst(ws);
    }
    RemovedWellFormed(ws, k);
  }

  // ---------------------------------------------------------------------
  // The controller

  class DataQueryCtrl {

    var target: Target
    /** `griddbWhereSegments`. */
    var segments: seq<Segment>

    constructor(target: Target)
      ensures this.target == target && segments == []
    {
      this.target := target;
      segments := [];
    }

    /** `initialDefaultValues`: the segments of the saved where entries. */
    method InitialDefaultValues()
      modifies this
      ensures target == old(target)
      ensures segments == InitialSegments(target.wheres)
    {
      segments := [];
      var i := 0;
      while i < |target.wheres|
        invariant 0 <= i <= |target.wheres|
        invariant segments == InitialSegments(target.wheres[..i])
        invariant target == old(target)
      {
        var w := target.wheres[i];
        var s := segments;
        if TruthyText(w.condition) {
          s := s + [Segment(Condition, w.condition)];
        }
        s := s + [Segment(Key, w.key)];
        s := s + [Segment(Operator, w.operator)];
        s := s + [Segment(Value, w.value)];
        assert s == segments + EntrySegments(w);
        PrefixSnoc(target.wheres, i);
        segments := s;
        i := i + 1;
      }
      assert target.wheres[..i] == target.wheres;
    }

    /** `fixSegments`: a plus button at the end unless one is there. */
    method FixSegments()
      modifies this
      ensures target == old(target)
      ensures |segments| > 0 && segments[|segments| - 1] ==
        (if old(segments) != [] && old(segments)[|old(segments)| - 1].kind == PlusButton
         then old(segments)[|old(segments)| - 1] else PlusButtonSegment)
      ensures segments[..|segments| - 1] == old(segments)
        || (segments == old(segments) && old(segments)[|old(segments)| - 1].kind == PlusButton)
    {
      if segments == [] || segments[|segments| - 1].kind != PlusButton {
        segments := segments + [PlusButtonSegment];
      }
    }

    /** `rebuildTargetWhereConditions`: reads the where entries back from
        the segments. */
    method RebuildTargetWhereConditions() returns (r: Result<()>)
      modifies this
      ensures segments == Rebuild(old(segments)).segments
      ensures Rebuild(old(segments)).error.None? ==>
        r.Success? && target == old(target).(wheres := Rebuild(old(segments)).wheres)
      ensures Rebuild(old(segments)).error.Some? ==>
        r == Failure(Rebuild(old(segments)).error.value) && target == old(target)
    {
      var wheres: seq<WhereEntry> := [];
      var tagIndex: nat := 0;
      var i := 0;
      while i < |segments|
        invariant 0 <= i <= |segments| == |old(segments)|
        invariant segments[i..] == old(segments)[i..]
        invariant RebuildPrefix(old(segments), i) == RebuildState(wheres, tagIndex, segments, None)
        invariant target == old(target)
      {
        assert segments[i] == old(segments)[i] by {
          assert segments[i..][0] == old(segments)[i..][0];
        }
        ghost var before := segments;
        var failed;
        wheres, tagIndex, failed := RebuildTurn(wheres, tagIndex, i);
        assert segments[i + 1..] == before[i + 1..];
        if failed {
          ErrorSticks(old(segments), i + 1, |old(segments)|);
          return Failure(UndefinedEntryMessage);
        }
        i := i + 1;
      }
      target := target.(wheres := wheres);
      return Success(());
    }

    /** One turn of the loop of `rebuildTargetWhereConditions`, on the
        segment at `i`; only a value segment may change `segments`, at
        `i - 1`. */
    method RebuildTurn(wheres: seq<WhereEntry>, tagIndex: nat, i: nat)
        returns (wheres': seq<WhereEntry>, tagIndex': nat, failed: bool)
      requires i < |segments|
      modifies this
      ensures target == old(target)
      ensures |segments| == |old(segments)| && segments[i..] == old(segments)[i..]
      ensures Step(RebuildState(wheres, tagIndex, old(segments), None), old(segments)[i], i)
        == RebuildState(wheres', tagIndex', segments, if failed then Some(UndefinedEntryMessage) else None)
    {
      var seg := segments[i];
      wheres', tagIndex', failed := wheres, tagIndex, false;
      match seg.kind {
        case Key =>
          if wheres' == [] {
            wheres' := wheres' + [NoEntry];
          }
          if tagIndex' >= |wheres'| {
            return wheres, tagIndex, true;
          }
          wheres' := wheres'[tagIndex' := wheres'[tagIndex'].(key := seg.value)];
        case Value =>
          if tagIndex' >= |wheres'| {
            return wheres, tagIndex, true;
          }
          var tagOperator := wheres'[tagIndex'].operator;
          if TruthyText(tagOperator) && 1 <= i {
            segments := segments[i - 1 := Segment(Operator, tagOperator)];
          }
          wheres' := wheres'[tagIndex' := wheres'[tagIndex'].(value := seg.value)];
        case Condition =>
          wheres' := wheres' + [NoEntry.(condition := seg.value)];
          tagIndex' := tagIndex' + 1;
        case Operator =>
          if tagIndex' >= |wheres'| {
            return wheres, tagIndex, true;
          }
          wheres' := wheres'[tagIndex' := wheres'[tagIndex'].(operator := seg.value)];
        case _ =>
      }
    }

    /** The `--remove--` branch of `whereSegmentUpdated`. */
    method RemoveAt(index: nat)
      modifies this
      ensures target == old(target)
      ensures segments == RemoveStep(old(segments), index)
    {
      segments := Splice(segments, index, 3, []);
      if |segments| == 0 {
        segments := segments + [PlusButtonSegment];
      }
      if |segments| > 2 {
        segments := Splice(segments, if index >= 1 then index - 1 else 0, 1, []);
        if segments[|segments| - 1].kind != PlusButton {
          segments := segments + [PlusButtonSegment];
        }
      }
    }

    /** The plus-button branch of `whereSegmentUpdated`. */
    method AddAfterPlusButton(seg: Segment, index: nat, removed: bool)
      requires !removed ==> index < |segments|
      modifies this
      ensures target == old(target)
      ensures segments == PlusStep(old(segments), seg, index, removed)
    {
      if index > 2 {
        segments := Splice(segments, index, 0, [AndSegment]);
      }
      segments := segments + [EqualsSegment];
      segments := segments + [InputValueSegment];
      if !removed {
        segments := segments[if index > 2 then index + 1 else index := seg.(kind := Key)];
      }
    }

    /** `whereSegmentUpdated(segment, index)`: a missing segment or a
        negative index throws; otherwise the segment is stored, the remove
        and plus-button choices reshape the list, a trailing plus button is
        added after an edit of the last segment, and the where entries are
        rebuilt. */
    method WhereSegmentUpdated(segment: Option<Segment>, index: int) returns (r: Result<()>)
      requires index < |segments|
      modifies this
      ensures segment.None? || index < 0 ==>
        r == Failure(UpdateFailMessage) && target == old(target) && segments == old(segments)
      ensures segment.Some? && index >= 0 ==>
        var edited := UpdatedSegments(old(segments), segment.value, index);
        && segments == Rebuild(edited).segments
        && (Rebuild(edited).error.None? ==>
              r.Success? && target == old(target).(wheres := Rebuild(edited).wheres))
        && (Rebuild(edited).error.Some? ==>
              r == Failure(Rebuild(edited).error.value) && target == old(target))
    {
      if segment.None? || index < 0 {
        return Failure(UpdateFailMessage);
      }
      var seg := segment.value;
      segments := segments[index := seg];
      var removed := seg.value == Some(RemoveValue);
      if removed {
        RemoveAt(index);
      }
      if seg.kind == PlusButton {
        AddAfterPlusButton(seg, index, removed);
      }
      if index + 1 == |segments| && index >= 2 {
        segments := segments + [PlusButtonSegment];
      }
      r := RebuildTargetWhereConditions();
    }

    /** `checkIfSpecifyContainerAndTimeColumn`: a chosen container (and, in
        time-series format, a real time column) clears the "not specified"
        flag; nothing sets it. */
    method CheckIfSpecifyContainerAndTimeColumn()
      modifies this
      ensures segments == old(segments)
      ensures target == old(target).(notSpecifiedContainerAndColumn := target.notSpecifiedContainerAndColumn)
      ensures target.notSpecifiedContainerAndColumn ==> old(target.notSpecifiedContainerAndColumn)
      ensures !target.notSpecifiedContainerAndColumn <==>
        || !old(target.notSpecifiedContainerAndColumn)
        || (old(target.format) == Constants.FORMAT_TIME_SERIES
            && old(target.container.value) != SelectContainerValue
            && old(target.timeColumn).Some? && !old(target.timeColumn).value.fake)
        || (old(target.format) == Constants.FORMAT_TABLE
            && old(target.container.value) != SelectContainerValue)
    {
      if target.format == Constants.FORMAT_TIME_SERIES {
        if target.container.value != SelectContainerValue
          && target.timeColumn.Some? && !target.timeColumn.value.fake
        {
          target := target.(notSpecifiedContainerAndColumn := false);
        }
      }
      if target.format == Constants.FORMAT_TABLE {
        if target.container.value != SelectContainerValue {
          target := target.(notSpecifiedContainerAndColumn := false);
        }
      }
    }

    /** `revertAllValueToDefaultAfterChangeContainer`. */
    method RevertAllValueToDefaultAfterChangeContainer()
      modifies this
      ensures segments == (if old(segments) == [] then [] else [PlusButtonSegment])
      ensures target == old(target).(
        viewColCurrent := ViewColCurrent(["$__all"], "All"),
        timeColumn := Some(SegmentItem("--select time column--", "time-column", true)),
        columns := [],
        selectedContainerType := "",
        notSpecifiedContainerAndColumn :=
          if old(target.format) == Constants.FORMAT_TABLE then false
          else if old(target.format) == Constants.FORMAT_TIME_SERIES then true
          else old(target.notSpecifiedContainerAndColumn),
        notTimeCols := [],
        limit := Some(10000),
        offset := Some(0),
        tableViewCols := [],
        timeSeriesViewCols := [],
        timeCols := [],
        wheres := [],
        isTimeSampling := false,
        griddbTQL := "",
        alias := "",
        selectedViewCols := [])
    {
      assert |Constants.FORMAT_TABLE| != |Constants.FORMAT_TIME_SERIES|;
      var t := target.(
        viewColCurrent := ViewColCurrent(["$__all"], "All"),
        timeColumn := Some(SegmentItem("--select time column--", "time-column", true)),
        columns := [],
        selectedContainerType := "");
      if t.format == Constants.FORMAT_TIME_SERIES {
        t := t.(notSpecifiedContainerAndColumn := true);
      }
      if t.format == Constants.FORMAT_TABLE {
        t := t.(notSpecifiedContainerAndColumn := false);
      }
      t := t.(notTimeCols := []);
      if |segments| != 0 {
        segments := [];
        segments := segments + [PlusButtonSegment];
        assert segments == [PlusButtonSegment];
      }
      t := t.(limit := Some(10000), offset := Some(0));
      target := t.(
        tableViewCols := [],
        timeSeriesViewCols := [],
        timeCols := [],
        wheres := [],
        isTimeSampling := false,
        griddbTQL := "",
        alias := "",
        selectedViewCols := []);
    }
  }
}
