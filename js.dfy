/**
 * The JavaScript value semantics the plugin leans on: numeric conversion of
 * text (`+s`, `Number(s)`), concatenation with `''`, truthiness and the
 * relational `<` on the cells of a TQL result row.
 */
module Js {

  import opened Wrappers
  import opened Strings

  /** `'' + s` for a text that may be undefined. */
  function OrUndefined(s: Option<string>): string {
    match s
    case None => "undefined"
    case Some(v) => v
  }

  /** A JavaScript number restricted to the integers, plus NaN. */
  datatype Number = Int(i: int) | NaN

  /** `+s`: surrounding white space is ignored, the empty text is 0, an
      optionally signed run of decimal digits is its value, anything else
      is NaN. */
  function ToNumber(s: string): (n: Number)
    ensures AllDigits(Trim(s)) ==> n == Int(DigitsValue(Trim(s)))
  {
    var t := Trim(s);
    if AllDigits(t) then Int(DigitsValue(t))
    else if |t| > 1 && (t[0] == '-' || t[0] == '+') && AllDigits(t[1..]) then
      Int(if t[0] == '-' then 0 - DigitsValue(t[1..]) else DigitsValue(t[1..]))
    else NaN
  }

  /** `'' + n`. */
  function NumberToString(n: Number): string {
    match n
    case NaN => "NaN"
    case Int(i) => IntToString(i)
  }

  /** `a < b` on two numbers: false as soon as one is NaN. */
  predicate NumberLess(a: Number, b: Number) {
    a.Int? && b.Int? && a.i < b.i
  }

  /** A value of a TQL result row; `Undefined` is also what an index past the
      end of a row reads. */
  datatype Cell = Undefined | Null | Bool(b: bool) | Num(n: int) | Str(s: string)

  /** `row[i]`. */
  function At(row: seq<Cell>, i: int): Cell {
    if 0 <= i < |row| then row[i] else Undefined
  }

  predicate Truthy(c: Cell) {
    match c
    case Undefined => false
    case Null => false
    case Bool(b) => b
    case Num(n) => n != 0
    case Str(s) => s != ""
  }

  /** A text that may be undefined is truthy when present and not empty. */
  predicate TruthyText(s: Option<string>) {
    s.Some? && s.value != ""
  }

  /** `'' + c`. */
  function CellToString(c: Cell): string {
    match c
    case Undefined => "undefined"
    case Null => "null"
    case Bool(b) => if b then "true" else "false"
    case Num(n) => IntToString(n)
    case Str(s) => s
  }

  function CellToNumber(c: Cell): Number {
    match c
    case Undefined => NaN
    case Null => Int(0)
    case Bool(b) => Int(if b then 1 else 0)
    case Num(n) => Int(n)
    case Str(s) => ToNumber(s)
  }

  /** The UTF-16 code units of one character: itself below U+10000,
      otherwise its surrogate pair. */
  function CharUnits(c: char): (r: seq<int>)
    ensures 1 <= |r| <= 2
    ensures |r| == 1 <==> (c as int) < 0x1_0000
    ensures forall k :: 0 <= k < |r| ==> 0 <= r[k] < 0x1_0000
  {
    var v := c as int;
    if v < 0x1_0000 then [v]
    else [0xD800 + (v - 0x1_0000) / 0x400, 0xDC00 + (v - 0x1_0000) % 0x400]
  }

  /** The UTF-16 code units of a text, which JavaScript indexes and compares. */
  function CodeUnits(s: string): (r: seq<int>)
    ensures |r| >= |s|
  {
    if s == [] then [] else CharUnits(s[0]) + CodeUnits(s[1..])
  }

  /** Lexicographic order of code-unit sequences. */
  predicate UnitsLess(a: seq<int>, b: seq<int>)
    decreases |a|
  {
    if a == [] then b != []
    else if b == [] then false
    else if a[0] != b[0] then a[0] < b[0]
    else UnitsLess(a[1..], b[1..])
  }

  /** `a < b` on two strings: the order of their UTF-16 code units. */
  predicate StringLess(a: string, b: string) {
    UnitsLess(CodeUnits(a), CodeUnits(b))
  }

  /** A character above U+FFFF sorts by its high surrogate, below U+FFFF. */
  lemma AstralBelowLastBmp(a: string, b: string)
    requires a == "\U{1F600}" && b == "\U{FFFF}"
    ensures StringLess(a, b) && !StringLess(b, a)
    ensures |CodeUnits(a)| == 2
  {
    assert CodeUnits(a) == [0xD83D, 0xDE00];
    assert CodeUnits(b) == [0xFFFF];
  }

  /** `a < b`: two strings compare as text, anything else as numbers. */
  predicate LessThan(a: Cell, b: Cell) {
    if a.Str? && b.Str? then StringLess(a.s, b.s)
    else NumberLess(CellToNumber(a), CellToNumber(b))
  }

  /** No string is below itself, so a row whose start and end cells hold the
      same text never forms a region. */
  lemma StringLessIrreflexive(a: string)
    ensures !StringLess(a, a)
  {
    UnitsLessIrreflexive(CodeUnits(a));
  }

  lemma {:induction false} UnitsLessIrreflexive(a: seq<int>)
    ensures !UnitsLess(a, a)
    decreases |a|
  {
    if a != [] {
      UnitsLessIrreflexive(a[1..]);
    }
  }
}
