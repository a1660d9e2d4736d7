/**
 * Recovering the container name from a raw TQL query
 * (src/datasource_process/data_query_parser.ts). Line breaks become blanks,
 * then the case-insensitive pattern
 *   ^\s*select.*[\s*)']from\s+([a-zA-Z0-9_]*)\s*(?:$|limit|order|where).*$
 * is matched and its group is the container. The pattern is not run by a
 * regular-expression engine here: the language it accepts is stated
 * directly (`IsMatch`), and the match a backtracking engine reports (the
 * last possible `from`, then the longest name) is characterised by
 * `Chosen` and computed by a search proved against both.
 */
module DataQueryParser {

  import opened Wrappers
  import opened Strings

  const EmptyQueryMessage := "Query must be not empty"
  const WrongFormatMessage := "Query is wrong format"
  const NoContainerMessage := "Cannot detect container name from query"

  /** How many characters the replacement consumes at the start of `s`. */
  function BreakLength(s: string): (n: nat)
    requires s != []
    ensures 1 <= n <= |s|
  {
    if |s| >= 2 && s[0] == '\r' && s[1] == '\n' then 2 else 1
  }

  /** What they are replaced by. */
  function BreakText(s: string): (t: string)
    requires s != []
    ensures |t| == 1 && t[0] != '\r' && t[0] != '\n'
  {
    if s[0] == '\n' || s[0] == '\r' then " " else [s[0]]
  }

  /** `query.replace(/(\r\n|\n|\r)/gm, ' ')`: each CRLF, LF or CR, scanned
      from the left, becomes one blank. */
  function NormalizeLineBreaks(s: string): (r: string)
    ensures |r| <= |s|
    decreases |s|
  {
    if s == [] then []
    else BreakText(s) + NormalizeLineBreaks(s[BreakLength(s)..])
  }

  /** No CR or LF is left once the line breaks are replaced. */
  lemma {:induction false} NoLineBreaksLeft(s: string)
    ensures forall i :: 0 <= i < |NormalizeLineBreaks(s)| ==>
      NormalizeLineBreaks(s)[i] != '\r' && NormalizeLineBreaks(s)[i] != '\n'
    decreases |s|
  {
    if s != [] {
      var rest := NormalizeLineBreaks(s[BreakLength(s)..]);
      NoLineBreaksLeft(s[BreakLength(s)..]);
      var r := NormalizeLineBreaks(s);
      assert r == BreakText(s) + rest;
      forall i | 1 <= i < |r|
        ensures r[i] == rest[i - 1]
      {
      }
    }
  }

  /** The line breaks of two texts are replaced independently unless a CR
      ending the first and an LF opening the second form one CRLF. */
  lemma {:induction false} NormalizeConcat(x: string, y: string)
    requires !(x != [] && x[|x| - 1] == '\r' && y != [] && y[0] == '\n')
    ensures NormalizeLineBreaks(x + y) == NormalizeLineBreaks(x) + NormalizeLineBreaks(y)
    decreases |x|
  {
    var xy := x + y;
    if x == [] {
      assert xy == y;
    } else {
      var n := BreakLength(x);
      NormalizeConcatStep(x, y);
      NormalizeConcat(x[n..], y);
      ConcatAssoc(BreakText(x), NormalizeLineBreaks(x[n..]), NormalizeLineBreaks(y));
    }
  }

  /** The first step on `x + y` is the first step on `x`, and what is left
      of `x` still does not end in the CR of a split CRLF. */
  lemma NormalizeConcatStep(x: string, y: string)
    requires x != [] && !(x[|x| - 1] == '\r' && y != [] && y[0] == '\n')
    ensures NormalizeLineBreaks(x) == BreakText(x) + NormalizeLineBreaks(x[BreakLength(x)..])
    ensures NormalizeLineBreaks(x + y) == BreakText(x) + NormalizeLineBreaks(x[BreakLength(x)..] + y)
    ensures var rest := x[BreakLength(x)..];
      !(rest != [] && rest[|rest| - 1] == '\r' && y != [] && y[0] == '\n')
  {
    BreakOfConcat(x, y);
    RestOfConcat(x, y, BreakLength(x));
    NormalizeUnfold(x + y);
    if BreakLength(x) < |x| {
      RestKeepsLast(x, BreakLength(x));
    }
  }

  lemma NormalizeUnfold(s: string)
    requires s != []
    ensures NormalizeLineBreaks(s) == BreakText(s) + NormalizeLineBreaks(s[BreakLength(s)..])
  {
  }

  lemma RestOfConcat(x: string, y: string, n: nat)
    requires n <= |x|
    ensures (x + y)[n..] == x[n..] + y
  {
  }

  lemma RestKeepsLast(x: string, n: nat)
    requires n < |x|
    ensures x[n..][|x[n..]| - 1] == x[|x| - 1]
  {
  }

  lemma ConcatAssoc(t: string, a: string, b: string)
    ensures t + (a + b) == (t + a) + b
  {
  }

  /** The first replacement of `x + y` is that of `x`, unless they split a
      CRLF. */
  lemma BreakOfConcat(x: string, y: string)
    requires x != [] && !(x[|x| - 1] == '\r' && y != [] && y[0] == '\n')
    ensures BreakLength(x + y) == BreakLength(x) && BreakText(x + y) == BreakText(x)
  {
    var xy := x + y;
    assert xy[0] == x[0];
    assert |x| >= 2 ==> xy[1] == x[1];
  }

  /** White space and nothing else trims to the empty text. */
  lemma TrimEmpty(s: string)
    ensures Trim(s) == [] <==> AllSpace(s)
  {
    var t := TrimStart(s);
    var r := TrimEnd(t);
    assert Trim(s) == r;
    if AllSpace(s) {
      TrimStartSpace(s, []);
      assert s + [] == s;
    } else {
      var i :| 0 <= i < |s| && !IsSpace(s[i]);
      var lo := |s| - |t|;
      assert t[i - lo] == s[i];
    }
  }

  /** `[\s*)']`, the character before `from`. */
  predicate IsClassChar(c: char) {
    IsSpace(c) || c == '*' || c == ')' || c == '\''
  }

  /** The number of white-space characters from index `i` on. */
  function SpaceRun(q: string, i: nat): (n: nat)
    requires i <= |q|
    ensures i + n <= |q| && AllSpace(q[i..i + n])
    ensures i + n == |q| || !IsSpace(q[i + n])
    decreases |q| - i
  {
    if i == |q| || !IsSpace(q[i]) then 0
    else
      var n := SpaceRun(q, i + 1);
      assert q[i..i + 1 + n] == [q[i]] + q[i + 1..i + 1 + n];
      1 + n
  }

  /** The number of `[a-zA-Z0-9_]` characters from index `i` on. */
  function WordRun(q: string, i: nat): (n: nat)
    requires i <= |q|
    ensures i + n <= |q| && AllWordChars(q[i..i + n])
    ensures i + n == |q| || !IsWordChar(q[i + n])
    decreases |q| - i
  {
    if i == |q| || !IsWordChar(q[i]) then 0
    else
      var n := WordRun(q, i + 1);
      assert q[i..i + 1 + n] == [q[i]] + q[i + 1..i + 1 + n];
      1 + n
  }

  /** `word` (in lower case) stands at index `i`, ignoring ASCII case. */
  predicate CiOccursAt(q: string, word: string, i: nat) {
    i + |word| <= |q| && ToLower(q[i..i + |word|]) == word
  }

  /** No character of `q[a..b]` is a line terminator, so `.*` spans it. */
  predicate NoLineTerminatorIn(q: string, a: nat, b: nat)
    requires a <= b <= |q|
  {
    forall k :: a <= k < b ==> !IsLineTerminator(q[k])
  }

  /** `(?:$|limit|order|where).*$` matches from index `p` to the end. */
  predicate TailAt(q: string, p: nat)
    requires p <= |q|
  {
    && (p == |q| || CiOccursAt(q, "limit", p) || CiOccursAt(q, "order", p) || CiOccursAt(q, "where", p))
    && NoLineTerminatorIn(q, p, |q|)
  }

  /** `\s*(?:$|limit|order|where).*$` matches from index `p`: a tail can
      only start where the blanks end, or at `p` itself. */
  predicate SpacedTailAt(q: string, p: nat)
    requires p <= |q|
  {
    TailAt(q, p) || TailAt(q, p + SpaceRun(q, p))
  }

  /** Where `.*` may start: after the leading blanks and `select`. */
  function DotsStart(q: string): nat {
    SpaceRun(q, 0) + 6
  }

  /** `^\s*select`. */
  predicate SelectAt(q: string) {
    CiOccursAt(q, "select", SpaceRun(q, 0))
  }

  /** `[\s*)']from\s+` with its first character at index `j`. */
  predicate FromAt(q: string, j: nat) {
    j < |q| && IsClassChar(q[j]) && CiOccursAt(q, "from", j + 1) && SpaceRun(q, j + 5) >= 1
  }

  /** Where the name after `from` at index `j` starts. */
  function NameStart(q: string, j: nat): (p: nat)
    requires FromAt(q, j)
    ensures p <= |q|
  {
    j + 5 + SpaceRun(q, j + 5)
  }

  /** A name of `w` characters from `p`, followed by the tail. */
  predicate NameAt(q: string, p: nat, w: nat) {
    p + w <= |q| && AllWordChars(q[p..p + w]) && SpacedTailAt(q, p + w)
  }

  /** The whole pattern matches `q` with the character before `from` at
      index `j` and a name of `w` characters. */
  predicate IsMatch(q: string, j: nat, w: nat) {
    && SelectAt(q)
    && DotsStart(q) <= j <= |q|
    && NoLineTerminatorIn(q, DotsStart(q), j)
    && FromAt(q, j)
    && NameAt(q, NameStart(q, j), w)
  }

  /** The match a backtracking engine reports: `.*` is greedy, so the last
      possible `from` wins, then the greedy name is the longest. */
  ghost predicate Chosen(q: string, j: nat, w: nat) {
    && IsMatch(q, j, w)
    && (forall j': nat, w': nat :: j < j' ==> !IsMatch(q, j', w'))
    && (forall w': nat :: w < w' ==> !IsMatch(q, j, w'))
  }

  /** The reported match is unique. */
  lemma ChosenUnique(q: string, j1: nat, w1: nat, j2: nat, w2: nat)
    requires Chosen(q, j1, w1) && Chosen(q, j2, w2)
    ensures j1 == j2 && w1 == w2
  {
  }

  /** The longest name of at most `w` characters from `p`. */
  function LongestName(q: string, p: nat, w: nat): (r: Option<nat>)
    requires p + w <= |q|
    ensures r.Some? ==> r.value <= w && NameAt(q, p, r.value)
    ensures r.Some? ==> forall v: nat :: r.value < v <= w ==> !NameAt(q, p, v)
    ensures r.None? ==> forall v: nat :: v <= w ==> !NameAt(q, p, v)
    decreases w
  {
    if NameAt(q, p, w) then Some(w)
    else if w == 0 then None
    else LongestName(q, p, w - 1)
  }

  /** No name is longer than the run of word characters. */
  lemma NameWithinRun(q: string, p: nat, v: nat)
    requires p <= |q| && NameAt(q, p, v)
    ensures v <= WordRun(q, p)
  {
  }

  /** The name after the `from` at `j`, as the greedy engine takes it. */
  function NameAfter(q: string, j: nat): (r: Option<nat>)
    requires FromAt(q, j)
    ensures r.Some? ==> NameAt(q, NameStart(q, j), r.value)
    ensures r.Some? ==> forall v: nat :: r.value < v ==> !NameAt(q, NameStart(q, j), v)
    ensures r.None? ==> forall v: nat :: !NameAt(q, NameStart(q, j), v)
  {
    var p := NameStart(q, j);
    var r := LongestName(q, p, WordRun(q, p));
    forall v: nat | NameAt(q, p, v) ensures v <= WordRun(q, p) {
      NameWithinRun(q, p, v);
    }
    r
  }

  /** At an index past `select` where `.*` does not reach, or no `from`
      or no name follows, the pattern does not match. */
  lemma NoMatchAt(q: string, j: nat)
    requires SelectAt(q) && DotsStart(q) <= j < |q|
    requires !(NoLineTerminatorIn(q, DotsStart(q), j) && FromAt(q, j) && NameAfter(q, j).Some?)
    ensures forall w: nat :: !IsMatch(q, j, w)
  {
  }

  /** Where `.*` reaches, `from` follows and a name follows that, the
      pattern matches with the longest such name and no longer one. */
  lemma MatchFoundAt(q: string, j: nat)
    requires SelectAt(q) && DotsStart(q) <= j < |q|
    requires NoLineTerminatorIn(q, DotsStart(q), j) && FromAt(q, j) && NameAfter(q, j).Some?
    ensures IsMatch(q, j, NameAfter(q, j).value)
    ensures forall w: nat :: NameAfter(q, j).value < w ==> !IsMatch(q, j, w)
  {
  }

  /** No match puts `from` before the end of `select`. */
  lemma NoMatchBefore(q: string, j: int)
    requires j < DotsStart(q)
    ensures forall j': nat, w: nat :: j' <= j ==> !IsMatch(q, j', w)
  {
  }

  /** A range of indices without a match grows by an index without one. */
  lemma NoMatchUpTo(q: string, i: int, j: nat)
    requires forall j': nat, w': nat :: i < j' <= j - 1 ==> !IsMatch(q, j', w')
    requires forall w: nat :: !IsMatch(q, j, w)
    ensures forall j': nat, w': nat :: i < j' <= j ==> !IsMatch(q, j', w')
  {
    forall j': nat, w': nat | i < j' <= j
      ensures !IsMatch(q, j', w')
    {
      if j' < j {
      }
    }
  }

  /** The match with the last `from` at or before index `j`. */
  function SearchDown(q: string, j: int): (r: Option<(nat, nat)>)
    requires SelectAt(q) && j < |q|
    ensures r.Some? ==> r.value.0 <= j && IsMatch(q, r.value.0, r.value.1)
    ensures r.Some? ==> forall w': nat :: r.value.1 < w' ==> !IsMatch(q, r.value.0, w')
    ensures r.Some? ==> forall j': nat, w': nat :: r.value.0 < j' <= j ==> !IsMatch(q, j', w')
    ensures r.None? ==> forall j': nat, w': nat :: j' <= j ==> !IsMatch(q, j', w')
    decreases j
  {
    if j < DotsStart(q) then
      NoMatchBefore(q, j);
      None
    else if NoLineTerminatorIn(q, DotsStart(q), j) && FromAt(q, j) && NameAfter(q, j).Some? then
      MatchFoundAt(q, j);
      Some((j, NameAfter(q, j).value))
    else
      var r := SearchDown(q, j - 1);
      NoMatchAt(q, j);
      NoMatchUpTo(q, if r.Some? then r.value.0 else -1, j);
      r
  }

  /** The match of the container pattern, as the engine reports it. */
  function ContainerMatch(q: string): (r: Option<(nat, nat)>)
    ensures r.Some? ==> Chosen(q, r.value.0, r.value.1)
    ensures r.None? ==> forall j: nat, w: nat :: !IsMatch(q, j, w)
  {
    if !SelectAt(q) || q == [] then None
    else SearchDown(q, |q| - 1)
  }

  /** The name a match captures. */
  function Capture(q: string, j: nat, w: nat): (name: string)
    requires IsMatch(q, j, w)
    ensures |name| == w && AllWordChars(name)
  {
    q[NameStart(q, j)..NameStart(q, j) + w]
  }

  /** `getContainer` once the query is known not to be blank and its line
      breaks are replaced. */
  function ContainerOf(q: string): (r: Result<string>)
    ensures (forall j: nat, w: nat :: !IsMatch(q, j, w)) ==> r == Failure(WrongFormatMessage)
    ensures forall j: nat, w: nat :: Chosen(q, j, w) ==>
      r == (if w == 0 then Failure(NoContainerMessage) else Success(Capture(q, j, w)))
    ensures r.Success? ==> r.value != [] && AllWordChars(r.value)
    ensures r != Failure(EmptyQueryMessage)
  {
    match ContainerMatch(q)
    case None => Failure(WrongFormatMessage)
    case Some((j, w)) =>
      forall j': nat, w': nat | Chosen(q, j', w') ensures j' == j && w' == w {
        ChosenUnique(q, j, w, j', w');
      }
      if w == 0 then Failure(NoContainerMessage)
      else
        var name := Capture(q, j, w);
        NameIsTrimmed(name);
        Success(Trim(name))
  }

  /** `getContainer`. */
  function GetContainer(query: string): (r: Result<string>)
    ensures r == Failure(EmptyQueryMessage) <==> AllSpace(query)
    ensures !AllSpace(query) ==> r == ContainerOf(NormalizeLineBreaks(query))
  {
    TrimEmpty(query);
    if Trim(query) == [] then Failure(EmptyQueryMessage)
    else ContainerOf(NormalizeLineBreaks(query))
  }

  lemma NameIsTrimmed(name: string)
    requires name != [] && AllWordChars(name)
    ensures Trim(name) == name
  {
    WordCharNotSpace(name[0]);
    WordCharNotSpace(name[|name| - 1]);
  }

  lemma WordCharNotSpace(c: char)
    requires IsWordChar(c)
    ensures !IsSpace(c)
  {
  }

  /** A CRLF, an LF not after a CR and a CR not before an LF each read as
      one blank. */
  lemma LineBreaksReadAsBlank(a: string, b: string)
    ensures GetContainer(a + "\r\n" + b) == GetContainer(a + " " + b)
    ensures (a == [] || a[|a| - 1] != '\r') ==> GetContainer(a + "\n" + b) == GetContainer(a + " " + b)
    ensures (b == [] || b[0] != '\n') ==> GetContainer(a + "\r" + b) == GetContainer(a + " " + b)
  {
    var crlf, lf, cr, blank := "\r\n", "\n", "\r", " ";
    BreakReadsAsBlank(crlf, b);
    BlankForBreak(a, crlf, b);
    if a == [] || a[|a| - 1] != '\r' {
      BreakReadsAsBlank(lf, b);
      BlankForBreak(a, lf, b);
    }
    if b == [] || b[0] != '\n' {
      BreakReadsAsBlank(cr, b);
      BlankForBreak(a, cr, b);
    }
  }

  /** One line break followed by `b` becomes a blank followed by `b`'s
      replacement. */
  lemma BreakReadsAsBlank(br: string, b: string)
    requires br == "\r\n" || br == "\n" || (br == "\r" && (b == [] || b[0] != '\n'))
    ensures NormalizeLineBreaks(br + b) == " " + NormalizeLineBreaks(b)
    ensures AllSpace(br) && br != [] && (br[0] == '\n' ==> br == "\n")
  {
    var s := br + b;
    if |br| == 2 {
      assert s[0] == '\r' && s[1] == '\n' && s[2..] == b;
    } else {
      assert s[1..] == b;
      assert s[0] == br[0];
    }
  }

  lemma AllSpaceConcat(x: string, y: string)
    ensures AllSpace(x + y) <==> AllSpace(x) && AllSpace(y)
  {
    if AllSpace(x + y) {
      assert forall i :: 0 <= i < |x| ==> x[i] == (x + y)[i];
      assert forall i :: 0 <= i < |y| ==> y[i] == (x + y)[|x| + i];
    }
  }

  lemma BlankForBreak(a: string, br: string, b: string)
    requires AllSpace(br) && br != []
    requires NormalizeLineBreaks(br + b) == " " + NormalizeLineBreaks(b)
    requires br[0] == '\n' ==> a == [] || a[|a| - 1] != '\r'
    ensures GetContainer(a + br + b) == GetContainer(a + " " + b)
  {
    var blank := " ";
    BreakNormalizedAsBlank(a, br, b);
    BreakBlankAsBlank(a, br, b);
    SameContainer(a + br + b, a + blank + b);
  }

  lemma BreakNormalizedAsBlank(a: string, br: string, b: string)
    requires br != [] && NormalizeLineBreaks(br + b) == " " + NormalizeLineBreaks(b)
    requires br[0] == '\n' ==> a == [] || a[|a| - 1] != '\r'
    ensures NormalizeLineBreaks(a + br + b) == NormalizeLineBreaks(a + " " + b)
  {
    NormalizeAround(a, br, b);
    NormalizeAround(a, " ", b);
    BlankFirst(b);
  }

  lemma NormalizeAround(a: string, c: string, b: string)
    requires c != [] && (c[0] == '\n' ==> a == [] || a[|a| - 1] != '\r')
    ensures NormalizeLineBreaks(a + c + b) == NormalizeLineBreaks(a) + NormalizeLineBreaks(c + b)
  {
    assert a + c + b == a + (c + b);
    assert (c + b)[0] == c[0];
    NormalizeConcat(a, c + b);
  }

  lemma BlankFirst(b: string)
    ensures NormalizeLineBreaks(" " + b) == " " + NormalizeLineBreaks(b)
  {
    var s := " " + b;
    assert s[1..] == b && s[0] == ' ';
  }

  lemma BreakBlankAsBlank(a: string, br: string, b: string)
    requires AllSpace(br)
    ensures AllSpace(a + br + b) == AllSpace(a + " " + b)
  {
    var blank := " ";
    assert a + br + b == a + (br + b);
    assert a + blank + b == a + (blank + b);
    AllSpaceConcat(a, br + b);
    AllSpaceConcat(br, b);
    AllSpaceConcat(a, blank + b);
    AllSpaceConcat(blank, b);
    assert AllSpace(blank);
  }

  /** `getContainer` looks at a text only through its replaced line breaks
      and whether it is blank. */
  lemma SameContainer(x1: string, x2: string)
    requires AllSpace(x1) == AllSpace(x2)
    requires NormalizeLineBreaks(x1) == NormalizeLineBreaks(x2)
    ensures GetContainer(x1) == GetContainer(x2)
  {
    TrimEmpty(x1);
    TrimEmpty(x2);
  }
}
