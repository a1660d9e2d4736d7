/**
 * The JavaScript string operations the plugin relies on, written out:
 * `trim`, ASCII case mapping, `indexOf`, `split`/`join`, global and
 * first-occurrence `replace` with a literal pattern, and the decimal
 * rendering of integers.
 */
module Strings {

  import opened Wrappers

  /** The `\s` class of a JavaScript regular expression: the white space and
      line terminators that `String.prototype.trim` also removes. */
  predicate IsSpace(c: char) {
    || c == '\t' || c == '\n' || c == '\U{000B}' || c == '\U{000C}' || c == '\r'
    || c == ' ' || c == '\U{00A0}' || c == '\U{1680}'
    || ('\U{2000}' <= c <= '\U{200A}')
    || c == '\U{2028}' || c == '\U{2029}' || c == '\U{202F}' || c == '\U{205F}'
    || c == '\U{3000}' || c == '\U{FEFF}'
  }

  /** The characters `.` refuses to match in a JavaScript regular expression. */
  predicate IsLineTerminator(c: char) {
    c == '\n' || c == '\r' || c == '\U{2028}' || c == '\U{2029}'
  }

  /** `[A-Za-z0-9_]`, the `\w` class. */
  predicate IsWordChar(c: char) {
    ('a' <= c <= 'z') || ('A' <= c <= 'Z') || ('0' <= c <= '9') || c == '_'
  }

  predicate IsDigit(c: char) {
    '0' <= c <= '9'
  }

  predicate AllSpace(s: string) {
    forall i :: 0 <= i < |s| ==> IsSpace(s[i])
  }

  predicate AllDigits(s: string) {
    forall i :: 0 <= i < |s| ==> IsDigit(s[i])
  }

  predicate AllWordChars(s: string) {
    forall i :: 0 <= i < |s| ==> IsWordChar(s[i])
  }

  function TrimStart(s: string): (r: string)
    ensures |r| <= |s| && r == s[|s| - |r|..]
    ensures AllSpace(s[..|s| - |r|])
    ensures r == [] || !IsSpace(r[0])
  {
    if s == [] || !IsSpace(s[0]) then s
    else
      var r := TrimStart(s[1..]);
      assert s[..|s| - |r|] == [s[0]] + s[1..][..|s| - 1 - |r|];
      r
  }

  function TrimEnd(s: string): (r: string)
    ensures |r| <= |s| && r == s[..|r|]
    ensures AllSpace(s[|r|..])
    ensures r == [] || !IsSpace(r[|r| - 1])
  {
    if s == [] || !IsSpace(s[|s| - 1]) then s
    else
      var r := TrimEnd(s[..|s| - 1]);
      assert s[|r|..] == s[..|s| - 1][|r|..] + [s[|s| - 1]];
      r
  }

  /** `String.prototype.trim`. */
  function Trim(s: string): (r: string)
    ensures |r| <= |s|
    ensures r == [] || (!IsSpace(r[0]) && !IsSpace(r[|r| - 1]))
    ensures s == [] || (!IsSpace(s[0]) && !IsSpace(s[|s| - 1])) ==> r == s
  {
    var t := TrimStart(s);
    var r := TrimEnd(t);
    assert r != [] ==> r[0] == t[0];
    assert s == [] || (!IsSpace(s[0]) && !IsSpace(s[|s| - 1])) ==> t == s && r == s;
    r
  }

  /** The trimmed text is a slice of the original. */
  lemma TrimSlice(s: string) returns (lo: nat)
    ensures lo + |Trim(s)| <= |s| && Trim(s) == s[lo..lo + |Trim(s)|]
  {
    var t := TrimStart(s);
    var r := TrimEnd(t);
    assert Trim(s) == r;
    lo := |s| - |t|;
    assert t == s[lo..];
    assert r == t[..|r|];
  }

  lemma {:induction false} TrimEndSpace(x: string, y: string)
    requires x != [] && !IsSpace(x[|x| - 1])
    requires AllSpace(y)
    ensures TrimEnd(x + y) == x
    decreases |y|
  {
    if y == [] {
      assert x + y == x;
    } else {
      TrimEndSpace(x, y[..|y| - 1]);
      assert (x + y)[..|x + y| - 1] == x + y[..|y| - 1];
    }
  }

  /** Trailing white space after a trimmed text is removed. */
  lemma TrimTrailingSpace(x: string, y: string)
    requires x != [] && !IsSpace(x[0]) && !IsSpace(x[|x| - 1])
    requires AllSpace(y)
    ensures Trim(x + y) == x
  {
    assert TrimStart(x + y) == x + y;
    TrimEndSpace(x, y);
  }

  lemma {:induction false} TrimStartSpace(x: string, y: string)
    requires y == [] || !IsSpace(y[0])
    requires AllSpace(x)
    ensures TrimStart(x + y) == y
    decreases |x|
  {
    if x == [] {
      assert x + y == y;
    } else {
      var s := x + y;
      assert TrimStart(s) == TrimStart(x[1..] + y) by {
        assert s[0] == x[0] && IsSpace(s[0]);
        assert s[1..] == x[1..] + y;
      }
      assert AllSpace(x[1..]) by {
        assert forall i :: 0 <= i < |x| - 1 ==> x[1..][i] == x[i + 1];
      }
      TrimStartSpace(x[1..], y);
    }
  }

  /** White space on either side of a trimmed text is removed. */
  lemma TrimPadded(pre: string, x: string, post: string)
    requires x != [] && !IsSpace(x[0]) && !IsSpace(x[|x| - 1])
    requires AllSpace(pre) && AllSpace(post)
    ensures Trim(pre + x + post) == x
  {
    assert pre + x + post == pre + (x + post);
    TrimStartSpace(pre, x + post);
    TrimEndSpace(x, post);
  }

  lemma SliceOfSlice<T>(s: seq<T>, a: nat, b: nat, c: nat, d: nat)
    requires a <= b <= |s| && c <= d <= b - a
    ensures s[a..b][c..d] == s[a + c..a + d]
  {
    forall i | 0 <= i < d - c
      ensures s[a..b][c..d][i] == s[a + c..a + d][i]
    {
      assert s[a..b][c..d][i] == s[a..b][c + i] == s[a + c + i];
    }
  }

  function LowerChar(c: char): char {
    if 'A' <= c <= 'Z' then (c as int + 32) as char else c
  }

  function UpperChar(c: char): char {
    if 'a' <= c <= 'z' then (c as int - 32) as char else c
  }

  /** `toLowerCase`, on the ASCII letters. */
  function ToLower(s: string): (r: string)
    ensures |r| == |s|
  {
    seq(|s|, i requires 0 <= i < |s| => LowerChar(s[i]))
  }

  /** `toUpperCase`, on the ASCII letters. */
  function ToUpper(s: string): (r: string)
    ensures |r| == |s|
  {
    seq(|s|, i requires 0 <= i < |s| => UpperChar(s[i]))
  }

  /** `pat` stands in `s` at index `i`. */
  predicate OccursAt(s: string, pat: string, i: nat) {
    i + |pat| <= |s| && s[i..i + |pat|] == pat
  }

  predicate Contains(s: string, pat: string) {
    exists i: nat | i <= |s| :: OccursAt(s, pat, i)
  }

  /** `s.indexOf(pat, from)`, as an optional index. */
  function IndexOfFrom(s: string, pat: string, from: nat): (r: Option<nat>)
    ensures r.Some? ==> from <= r.value && OccursAt(s, pat, r.value)
    ensures r.Some? ==> forall k: nat :: from <= k < r.value ==> !OccursAt(s, pat, k)
    ensures r.None? ==> forall k: nat :: from <= k ==> !OccursAt(s, pat, k)
    decreases |s| - from
  {
    if from + |pat| > |s| then None
    else if OccursAt(s, pat, from) then Some(from)
    else IndexOfFrom(s, pat, from + 1)
  }

  /** The first occurrence from `from` on, named. */
  lemma IndexOfFromIs(s: string, pat: string, from: nat, i: nat)
    requires from <= i && OccursAt(s, pat, i)
    requires forall k: nat :: from <= k < i ==> !OccursAt(s, pat, k)
    ensures IndexOfFrom(s, pat, from) == Some(i)
  {
  }

  /** The index of the first element of `xs` equal to `x` (`indexOf`). */
  function IndexOf<T(==)>(xs: seq<T>, x: T): (r: Option<nat>)
    ensures r.Some? ==> r.value < |xs| && xs[r.value] == x && x !in xs[..r.value]
    ensures r.None? <==> x !in xs
  {
    if xs == [] then None
    else if xs[0] == x then Some(0)
    else
      var r := IndexOf(xs[1..], x);
      if r.None? then None
      else
        assert xs[..r.value + 1] == [xs[0]] + xs[1..][..r.value];
        Some(r.value + 1)
  }

  /** The first index of an element of a prefix is its first index in the
      whole sequence. */
  lemma IndexOfInPrefix<T>(xs: seq<T>, n: nat, x: T)
    requires n <= |xs| && x in xs[..n]
    ensures IndexOf(xs, x) == IndexOf(xs[..n], x)
  {
    var v := IndexOf(xs[..n], x).value;
    var w := IndexOf(xs, x).value;
    assert xs[..n][..v] == xs[..v];
  }

  predicate NoDuplicates<T(==)>(xs: seq<T>) {
    forall i, j :: 0 <= i < j < |xs| ==> xs[i] != xs[j]
  }

  /** `[...new Set(xs)]`: every element once, in the order of its first
      occurrence. */
  function Distinct<T(==)>(xs: seq<T>): (r: seq<T>)
    ensures forall i :: 0 <= i < |r| ==> r[i] in xs
    ensures forall i :: 0 <= i < |xs| ==> xs[i] in r
    ensures NoDuplicates(r)
    ensures forall i, j :: 0 <= i < j < |r| ==>
      IndexOf(xs, r[i]).value < IndexOf(xs, r[j]).value
  {
    if xs == [] then []
    else
      var init := xs[..|xs| - 1];
      var last := xs[|xs| - 1];
      var r := Distinct(init);
      assert xs == init + [last];
      DistinctSnoc(init, last, r);
      if last in r then r else r + [last]
  }

  /** `r` holds the elements of `xs` once each, in order of first occurrence. */
  ghost predicate DistinctOf<T>(xs: seq<T>, r: seq<T>) {
    && (forall i :: 0 <= i < |r| ==> r[i] in xs)
    && (forall i :: 0 <= i < |xs| ==> xs[i] in r)
    && NoDuplicates(r)
    && (forall i, j :: 0 <= i < j < |r| ==> IndexOf(xs, r[i]).value < IndexOf(xs, r[j]).value)
  }

  /** One more element keeps the list of first occurrences. */
  lemma DistinctSnoc<T>(init: seq<T>, last: T, r: seq<T>)
    requires DistinctOf(init, r)
    ensures DistinctOf(init + [last], if last in r then r else r + [last])
  {
    IndexesKept(init, last, r);
    if last in r {
      DistinctSnocSeen(init, last, r);
    } else {
      DistinctSnocNew(init, last, r);
    }
  }

  /** The elements already listed keep their first index. */
  lemma IndexesKept<T>(init: seq<T>, last: T, r: seq<T>)
    requires forall i :: 0 <= i < |r| ==> r[i] in init
    ensures forall i :: 0 <= i < |r| ==> IndexOf(init + [last], r[i]) == IndexOf(init, r[i])
  {
    var xs := init + [last];
    assert xs[..|xs| - 1] == init;
    forall i | 0 <= i < |r| ensures IndexOf(xs, r[i]) == IndexOf(init, r[i]) {
      IndexOfInPrefix(xs, |xs| - 1, r[i]);
    }
  }

  lemma DistinctSnocSeen<T>(init: seq<T>, last: T, r: seq<T>)
    requires DistinctOf(init, r) && last in r
    requires forall i :: 0 <= i < |r| ==> IndexOf(init + [last], r[i]) == IndexOf(init, r[i])
    ensures DistinctOf(init + [last], r)
  {
    var xs := init + [last];
    forall i | 0 <= i < |xs| ensures xs[i] in r {
      if i < |init| {
        assert xs[i] == init[i];
      }
    }
  }

  lemma DistinctSnocNew<T>(init: seq<T>, last: T, r: seq<T>)
    requires DistinctOf(init, r) && last !in r
    requires forall i :: 0 <= i < |r| ==> IndexOf(init + [last], r[i]) == IndexOf(init, r[i])
    ensures DistinctOf(init + [last], r + [last])
  {
    SnocCovered(init, last, r);
    NotInCovered(init, r, last);
    SnocOrdered(init, last, r);
  }

  lemma SnocCovered<T>(init: seq<T>, last: T, r: seq<T>)
    requires forall i :: 0 <= i < |init| ==> init[i] in r
    ensures forall i :: 0 <= i < |init + [last]| ==> (init + [last])[i] in r + [last]
  {
    var xs := init + [last];
    forall i | 0 <= i < |xs| ensures xs[i] in r + [last] {
      if i < |init| {
        assert xs[i] == init[i];
      }
    }
  }

  lemma NotInCovered<T>(init: seq<T>, r: seq<T>, last: T)
    requires forall i :: 0 <= i < |init| ==> init[i] in r
    requires last !in r
    ensures last !in init
  {
  }

  lemma SnocOrdered<T>(init: seq<T>, last: T, r: seq<T>)
    requires forall i :: 0 <= i < |r| ==> r[i] in init
    requires forall i, j :: 0 <= i < j < |r| ==> IndexOf(init, r[i]).value < IndexOf(init, r[j]).value
    requires last !in init
    requires forall i :: 0 <= i < |r| ==> IndexOf(init + [last], r[i]) == IndexOf(init, r[i])
    ensures forall i, j :: 0 <= i < j < |r + [last]| ==>
      IndexOf(init + [last], (r + [last])[i]).value < IndexOf(init + [last], (r + [last])[j]).value
  {
    var xs := init + [last];
    var r' := r + [last];
    assert IndexOf(xs, last) == Some(|init|);
    forall i, j | 0 <= i < j < |r'| ensures IndexOf(xs, r'[i]).value < IndexOf(xs, r'[j]).value {
      assert r'[i] == r[i];
      if j < |r| {
        assert r'[j] == r[j];
      }
    }
  }

  /** The first element comes first. */
  lemma {:induction false} DistinctKeepsFirst<T>(xs: seq<T>)
    requires xs != []
    ensures Distinct(xs) != [] && Distinct(xs)[0] == xs[0]
  {
    if |xs| > 1 {
      var init := xs[..|xs| - 1];
      DistinctKeepsFirst(init);
      assert init[0] == xs[0];
    }
  }

  /** `s.replace(/pat/g, rep)` for a pattern without metacharacters:
      occurrences are found from the left and do not overlap. */
  function ReplaceAll(s: string, pat: string, rep: string): string
    requires pat != []
    decreases |s|
  {
    if |s| < |pat| then s
    else if s[..|pat|] == pat then rep + ReplaceAll(s[|pat|..], pat, rep)
    else [s[0]] + ReplaceAll(s[1..], pat, rep)
  }

  /** `s.replace(pat, rep)` with a string pattern: only the first occurrence. */
  function ReplaceFirst(s: string, pat: string, rep: string): (r: string)
    ensures !Contains(s, pat) ==> r == s
  {
    match IndexOfFrom(s, pat, 0)
    case None => s
    case Some(i) => s[..i] + rep + s[i + |pat|..]
  }

  /** Where the first occurrence is, and the text around it. */
  lemma ReplaceFirstSplits(s: string, pat: string, rep: string, j: nat) returns (i: nat)
    requires OccursAt(s, pat, j)
    ensures i <= j && OccursAt(s, pat, i)
    ensures s == s[..i] + pat + s[i + |pat|..]
    ensures ReplaceFirst(s, pat, rep) == s[..i] + rep + s[i + |pat|..]
  {
    var found := IndexOfFrom(s, pat, 0);
    i := found.value;
    assert s[i..i + |pat|] == pat;
    assert s == s[..i] + s[i..i + |pat|] + s[i + |pat|..];
  }

  /** `s.split(sep)` with a non-empty string separator. */
  function Split(s: string, sep: string): (r: seq<string>)
    requires sep != []
    ensures |r| >= 1
    decreases |s|
  {
    if |s| < |sep| then [s]
    else if s[..|sep|] == sep then [""] + Split(s[|sep|..], sep)
    else
      var rest := Split(s[1..], sep);
      [[s[0]] + rest[0]] + rest[1..]
  }

  /** `parts.join(sep)`. */
  function Join(parts: seq<string>, sep: string): string {
    if parts == [] then ""
    else if |parts| == 1 then parts[0]
    else parts[0] + sep + Join(parts[1..], sep)
  }

  lemma {:induction false} JoinCons(p: string, parts: seq<string>, sep: string)
    requires parts != []
    ensures Join([p] + parts, sep) == p + sep + Join(parts, sep)
  {
    assert ([p] + parts)[1..] == parts;
  }

  lemma {:induction false} JoinHeadExtend(c: char, parts: seq<string>, sep: string)
    requires parts != []
    ensures Join([[c] + parts[0]] + parts[1..], sep) == [c] + Join(parts, sep)
  {
    if |parts| == 1 {
    } else {
      JoinCons([c] + parts[0], parts[1..], sep);
      JoinCons(parts[0], parts[1..], sep);
      assert [parts[0]] + parts[1..] == parts;
    }
  }

  /** Joining the pieces of a split with the same separator gives the text back. */
  lemma {:induction false} JoinSplit(s: string, sep: string)
    requires sep != []
    ensures Join(Split(s, sep), sep) == s
    decreases |s|
  {
    if |s| < |sep| {
    } else if s[..|sep|] == sep {
      JoinSplit(s[|sep|..], sep);
      SplitAtSeparator(s, sep);
      JoinCons("", Split(s[|sep|..], sep), sep);
      assert s == s[..|sep|] + s[|sep|..];
    } else {
      JoinSplit(s[1..], sep);
      SplitPastChar(s, sep);
      JoinHeadExtend(s[0], Split(s[1..], sep), sep);
      assert s == [s[0]] + s[1..];
    }
  }

  /** A split that starts at a separator starts with an empty piece. */
  lemma SplitAtSeparator(s: string, sep: string)
    requires sep != [] && |s| >= |sep| && s[..|sep|] == sep
    ensures Split(s, sep) == [""] + Split(s[|sep|..], sep)
  {
  }

  /** A split that does not start at a separator puts the first character
      in front of its first piece. */
  lemma SplitPastChar(s: string, sep: string)
    requires sep != [] && |s| >= |sep| && s[..|sep|] != sep
    ensures Split(s, sep) == [[s[0]] + Split(s[1..], sep)[0]] + Split(s[1..], sep)[1..]
  {
  }

  /** Global replacement keeps the text between occurrences and puts `rep`
      where each occurrence stood. */
  lemma {:induction false} ReplaceAllIsSplitJoin(s: string, pat: string, rep: string)
    requires pat != []
    ensures ReplaceAll(s, pat, rep) == Join(Split(s, pat), rep)
    decreases |s|
  {
    if |s| < |pat| {
    } else if s[..|pat|] == pat {
      var t := s[|pat|..];
      ReplaceAllIsSplitJoin(t, pat, rep);
      assert Split(s, pat) == [""] + Split(t, pat);
      JoinCons("", Split(t, pat), rep);
      assert "" + rep == rep;
    } else {
      var t := s[1..];
      ReplaceAllIsSplitJoin(t, pat, rep);
      var rest := Split(t, pat);
      assert Split(s, pat) == [[s[0]] + rest[0]] + rest[1..];
      JoinHeadExtend(s[0], rest, rep);
    }
  }

  lemma {:induction false} SplitHeadIsPrefix(s: string, sep: string)
    requires sep != []
    ensures |Split(s, sep)[0]| <= |s| && Split(s, sep)[0] == s[..|Split(s, sep)[0]|]
    decreases |s|
  {
    if |s| < |sep| {
    } else if s[..|sep|] == sep {
      SplitAtSeparator(s, sep);
    } else {
      SplitHeadIsPrefix(s[1..], sep);
      SplitPastChar(s, sep);
      ConsPrefix(s, |Split(s[1..], sep)[0]|);
    }
  }

  lemma ConsPrefix(s: string, n: nat)
    requires n < |s|
    ensures [s[0]] + s[1..][..n] == s[..n + 1]
  {
  }

  lemma NoOccurrenceInShorter(s: string, pat: string)
    requires |s| < |pat|
    ensures !Contains(s, pat)
  {
  }

  /** No piece of a split contains the separator. */
  lemma {:induction false} SplitPiecesAreFree(s: string, sep: string)
    requires sep != []
    ensures forall k :: 0 <= k < |Split(s, sep)| ==> !Contains(Split(s, sep)[k], sep)
    decreases |s|
  {
    var r := Split(s, sep);
    if |s| < |sep| {
      NoOccurrenceInShorter(s, sep);
    } else if s[..|sep|] == sep {
      SplitPiecesAreFree(s[|sep|..], sep);
      assert !OccursAt("", sep, 0);
      assert forall k :: 1 <= k < |r| ==> r[k] == Split(s[|sep|..], sep)[k - 1];
    } else {
      var rest := Split(s[1..], sep);
      SplitPiecesAreFree(s[1..], sep);
      SplitHeadIsPrefix(s[1..], sep);
      var head := [s[0]] + rest[0];
      assert head == s[..|head|];
      forall i: nat | OccursAt(head, sep, i)
        ensures false
      {
        if i > 0 {
          assert rest[0][i - 1..i - 1 + |sep|] == head[i..i + |sep|];
          assert OccursAt(rest[0], sep, i - 1);
        }
      }
      assert forall k :: 1 <= k < |r| ==> r[k] == rest[k];
    }
  }

  /** Text without the separator splits into itself alone. */
  lemma {:induction false} SplitWithoutSeparator(s: string, sep: string)
    requires sep != [] && !Contains(s, sep)
    ensures Split(s, sep) == [s]
    decreases |s|
  {
    if |s| < |sep| {
    } else {
      assert !OccursAt(s, sep, 0);
      assert s[..|sep|] != sep;
      forall i: nat | OccursAt(s[1..], sep, i) ensures false {
        assert s[i + 1..i + 1 + |sep|] == s[1..][i..i + |sep|];
        assert OccursAt(s, sep, i + 1);
      }
      SplitWithoutSeparator(s[1..], sep);
      assert [s[0]] + s[1..] == s;
    }
  }

  /** One step of a split at a one-character separator. */
  lemma SplitOneStep(s: string, c: char)
    requires s != []
    ensures s[0] == c ==> Split(s, [c]) == [""] + Split(s[1..], [c])
    ensures s[0] != c ==> Split(s, [c]) == [[s[0]] + Split(s[1..], [c])[0]] + Split(s[1..], [c])[1..]
  {
    assert s[..1] == [s[0]];
  }

  /** Splitting at a one-character separator treats the text on either side
      of one of its occurrences independently. */
  lemma {:induction false} SplitAroundChar(a: string, c: char, b: string)
    ensures Split(a + [c] + b, [c]) == Split(a, [c]) + Split(b, [c])
    decreases |a|
  {
    var s := a + [c] + b;
    var sb := Split(b, [c]);
    if a == [] {
      assert s[0] == c && s[1..] == b;
      SplitOneStep(s, c);
    } else {
      assert s[0] == a[0] && s[1..] == a[1..] + [c] + b;
      SplitAroundChar(a[1..], c, b);
      SplitOneStep(s, c);
      SplitOneStep(a, c);
      var ra := Split(a[1..], [c]);
      if a[0] == c {
        assert [""] + (ra + sb) == ([""] + ra) + sb;
      } else {
        HeadExtendAppend(a[0], ra, sb);
      }
    }
  }

  lemma HeadExtendAppend(x: char, ra: seq<string>, sb: seq<string>)
    requires ra != []
    ensures [[x] + (ra + sb)[0]] + (ra + sb)[1..] == ([[x] + ra[0]] + ra[1..]) + sb
  {
    assert (ra + sb)[1..] == ra[1..] + sb;
  }

  /** A run of digits holds no blank. */
  lemma DigitsHaveNoBlank(s: string)
    requires AllDigits(s)
    ensures !Contains(s, " ")
  {
    WithoutChar(s, ' ');
  }

  /** Text none of whose characters is `c` holds no occurrence of it. */
  lemma WithoutChar(s: string, c: char)
    requires forall i :: 0 <= i < |s| ==> s[i] != c
    ensures !Contains(s, [c])
  {
    forall i: nat | i <= |s| ensures !OccursAt(s, [c], i) {
      if i + 1 <= |s| {
        assert s[i..i + 1][0] == s[i];
      }
    }
  }

  /** A text without the first character of a pattern holds no occurrence
      of it. */
  lemma WithoutLead(s: string, pat: string)
    requires pat != [] && forall i :: 0 <= i < |s| ==> s[i] != pat[0]
    ensures !Contains(s, pat)
  {
    forall i: nat | i <= |s| ensures !OccursAt(s, pat, i) {
      if i + |pat| <= |s| {
        assert s[i..i + |pat|][0] == s[i];
      }
    }
  }

  /** A pattern whose first character occurs only at the start of a text is
      held by it only at the start. */
  lemma OnlyAtStart(s: string, pat: string)
    requires pat != [] && forall i :: 0 < i < |s| ==> s[i] != pat[0]
    requires !OccursAt(s, pat, 0)
    ensures !Contains(s, pat)
  {
    forall i: nat | 0 < i <= |s| ensures !OccursAt(s, pat, i) {
      if i + |pat| <= |s| {
        assert s[i..i + |pat|][0] == s[i];
      }
    }
  }

  /** A text no longer than a pattern holds it only by being it. */
  lemma ShortNotContains(s: string, pat: string)
    requires |s| < |pat| || (|s| == |pat| && s != pat)
    ensures !Contains(s, pat)
  {
    assert |s| == |pat| ==> s[0..|pat|] == s;
  }

  /** A global replacement of the whole text. */
  lemma ReplaceAllWhole(pat: string, rep: string)
    requires pat != []
    ensures ReplaceAll(pat, pat, rep) == rep
  {
    assert pat[..|pat|] == pat;
    assert pat[|pat|..] == [];
  }

  /** A first word without a blank splits off on its own. */
  lemma SplitLeadingWord(a: string, rest: string)
    requires !Contains(a, " ")
    ensures Split(a + " " + rest, " ") == [a] + Split(rest, " ")
  {
    SplitAroundChar(a, ' ', rest);
    SplitWithoutSeparator(a, " ");
  }

  /** The blank-separated words of ` a b`, when neither word holds a blank. */
  lemma SplitTwoWords(a: string, b: string)
    requires !Contains(a, " ") && !Contains(b, " ")
    ensures Split(" " + (a + " " + b), " ") == ["", a, b]
  {
    SplitLeadingWord([], a + " " + b);
    assert [] + " " + (a + " " + b) == " " + (a + " " + b);
    SplitLeadingWord(a, b);
    SplitWithoutSeparator(b, " ");
  }

  /** The blank-separated words of ` a b c d`, when no word holds a blank. */
  lemma SplitFourWords(a: string, b: string, c: string, d: string)
    requires !Contains(a, " ") && !Contains(b, " ") && !Contains(c, " ") && !Contains(d, " ")
    ensures Split(" " + (a + " " + (b + " " + (c + " " + d))), " ") == ["", a, b, c, d]
  {
    SplitLeadingWord([], a + " " + (b + " " + (c + " " + d)));
    assert [] + " " + (a + " " + (b + " " + (c + " " + d))) == " " + (a + " " + (b + " " + (c + " " + d)));
    SplitLeadingWord(a, b + " " + (c + " " + d));
    SplitLeadingWord(b, c + " " + d);
    SplitLeadingWord(c, d);
    SplitWithoutSeparator(d, " ");
  }

  /** A global replacement of a pattern that does not occur changes nothing. */
  lemma ReplaceAllAbsent(s: string, pat: string, rep: string)
    requires pat != [] && !Contains(s, pat)
    ensures ReplaceAll(s, pat, rep) == s
  {
    ReplaceAllIsSplitJoin(s, pat, rep);
    SplitWithoutSeparator(s, pat);
  }

  function DigitChar(d: nat): (c: char)
    requires d < 10
    ensures IsDigit(c) && c as int - '0' as int == d
  {
    ('0' as int + d) as char
  }

  /** The value of a run of decimal digits. */
  function DigitsValue(s: string): nat
    requires AllDigits(s)
  {
    if s == [] then 0
    else DigitsValue(s[..|s| - 1]) * 10 + (s[|s| - 1] as int - '0' as int)
  }

  /** The decimal text of a natural number, as `'' + n` writes it. */
  function NatToString(n: nat): (r: string)
    ensures r != [] && AllDigits(r)
    ensures DigitsValue(r) == n
    decreases n
  {
    if n < 10 then [DigitChar(n)]
    else
      var r := NatToString(n / 10) + [DigitChar(n % 10)];
      assert r[..|r| - 1] == NatToString(n / 10);
      r
  }

  /** The decimal text of an integer, with a leading `-` when negative. */
  function IntToString(i: int): (r: string)
    ensures r != []
  {
    if i < 0 then "-" + NatToString(-i) else NatToString(i)
  }
}
