/** The data the privacy engine works on: a dataset is a sequence of rows,
    each row maps column names to a cell, and a cell is text, a number or
    null. This module also holds the JavaScript value conversions the engine
    relies on (truthiness, `String(v)`, `Array.join`, `trim`,
    `toLowerCase`, whitespace collapsing). */
module Records {

  datatype Option<T> = None | Some(value: T)

  /** A parsed cell. Numbers are exact rationals; `undefined` (a missing
      column) behaves like `Null` in every use the engine makes of it. */
  datatype Value = Null | Str(s: string) | Num(x: real)

  type Row = map<string, Value>

  /** `row[col]`, with a missing column read as undefined. */
  function Get(row: Row, col: string): Value {
    if col in row then row[col] else Null
  }

  /** JavaScript truthiness: null, undefined, "" and 0 are falsy. */
  predicate Truthy(v: Value) {
    match v
    case Null => false
    case Str(s) => s != ""
    case Num(x) => x != 0.0
  }

  /** `v !== null && v !== undefined && v !== ""`: the completeness test
      (0 counts as present here, unlike truthiness). */
  predicate Present(v: Value) {
    v != Null && v != Str("")
  }

  lemma TruthyIsPresent(v: Value)
    ensures Truthy(v) ==> Present(v)
  {
  }

  // ---------------------------------------------------------------------
  // `String(v)`

  function DigitChar(d: nat): char
    requires d < 10
  {
    "0123456789"[d]
  }

  function NatText(n: nat): (r: string)
    ensures |r| > 0
    ensures forall i :: 0 <= i < |r| ==> '0' <= r[i] <= '9'
  {
    if n < 10 then [DigitChar(n)] else NatText(n / 10) + [DigitChar(n % 10)]
  }

  /** Decimal text of an integer, as `String(i)` gives it. */
  function IntText(i: int): string {
    if i < 0 then "-" + NatText(-i) else NatText(i)
  }

  /** Up to `fuel` decimal digits of a fraction in [0, 1), without trailing
      zeros. */
  function FractionDigits(f: real, fuel: nat): string
    requires 0.0 <= f < 1.0
    decreases fuel
  {
    if fuel == 0 || f == 0.0 then ""
    else
      var d := (f * 10.0).Floor;
      [DigitChar(d)] + FractionDigits(f * 10.0 - d as real, fuel - 1)
  }

  /** `String(x)` for a number: integers in decimal, other numbers with their
      decimal fraction (at most 20 fraction digits). */
  function NumText(x: real): string {
    if x == x.Floor as real then IntText(x.Floor)
    else
      var a := if x < 0.0 then -x else x;
      var t := NatText(a.Floor) + "." + FractionDigits(a - a.Floor as real, 20);
      if x < 0.0 then "-" + t else t
  }

  /** `String(v)`. */
  function Text(v: Value): string {
    match v
    case Null => "null"
    case Str(s) => s
    case Num(x) => NumText(x)
  }

  /** `parts.join(sep)`. */
  function Join(parts: seq<string>, sep: string): string {
    if |parts| == 0 then ""
    else if |parts| == 1 then parts[0]
    else parts[0] + sep + Join(parts[1..], sep)
  }

  // ---------------------------------------------------------------------
  // Text normalisation: `trim()`, `toLowerCase()`, `replace(/\s+/g, " ")`

  /** Whitespace: space, tab, line feed, vertical tab, form feed, carriage
      return. */
  predicate IsSpace(c: char) {
    c == ' ' || 9 <= c as int <= 13
  }

  function TrimStart(s: string): (r: string)
    ensures |r| <= |s|
    ensures |r| > 0 ==> !IsSpace(r[0])
    ensures r == s[|s| - |r|..]
  {
    if |s| > 0 && IsSpace(s[0]) then TrimStart(s[1..]) else s
  }

  function TrimEnd(s: string): (r: string)
    ensures |r| <= |s|
    ensures |r| > 0 ==> !IsSpace(r[|r| - 1])
    ensures r == s[..|r|]
  {
    if |s| > 0 && IsSpace(s[|s| - 1]) then TrimEnd(s[..|s| - 1]) else s
  }

  /** `s.trim()`. */
  function Trim(s: string): (r: string)
    ensures |r| <= |s|
  {
    TrimEnd(TrimStart(s))
  }

  lemma {:induction false} TrimStartOfTrimEnd(s: string)
    requires |s| > 0 ==> !IsSpace(s[|s| - 1])
    ensures |TrimStart(s)| > 0 ==> !IsSpace(TrimStart(s)[|TrimStart(s)| - 1])
  {
    if |s| > 0 && IsSpace(s[0]) {
      TrimStartOfTrimEnd(s[1..]);
    }
  }

  lemma {:induction false} TrimEndKeepsStart(s: string)
    requires |s| > 0 ==> !IsSpace(s[0])
    ensures |TrimEnd(s)| > 0 ==> !IsSpace(TrimEnd(s)[0])
  {
  }

  /** Trimming an already trimmed text changes nothing. */
  lemma TrimIdempotent(s: string)
    ensures Trim(Trim(s)) == Trim(s)
  {
    var t := Trim(s);
    TrimEndKeepsStart(TrimStart(s));
    assert TrimStart(t) == t;
    assert TrimEnd(t) == t;
  }

  function LowerChar(c: char): char {
    if 'A' <= c <= 'Z' then (c as int + 32) as char else c
  }

  /** `s.toLowerCase()` on ASCII letters. */
  function Lower(s: string): (r: string)
    ensures |r| == |s|
  {
    seq(|s|, i requires 0 <= i < |s| => LowerChar(s[i]))
  }

  function DropSpaces(s: string): (r: string)
    ensures |r| <= |s|
  {
    if |s| > 0 && IsSpace(s[0]) then DropSpaces(s[1..]) else s
  }

  /** `s.replace(/\s+/g, " ")`: every run of whitespace becomes one space. */
  function CollapseSpaces(s: string): (r: string)
    ensures |s| > 0 ==> |r| > 0
    decreases |s|
  {
    if |s| == 0 then ""
    else if IsSpace(s[0]) then " " + CollapseSpaces(DropSpaces(s[1..]))
    else [s[0]] + CollapseSpaces(s[1..])
  }

  /** The form two spellings of one category share:
      `val.toLowerCase().replace(/\s+/g, " ")`. */
  function Normalize(s: string): (r: string)
    ensures r == "" <==> s == ""
  {
    CollapseSpaces(Lower(s))
  }

  // ---------------------------------------------------------------------
  // Column typing by the first row: `typeof data[0][col] === ...`

  /** `columns.filter(col => data.length > 0 && typeof data[0][col] === "string")` */
  function StringColumns(data: seq<Row>, columns: seq<string>): (r: seq<string>)
    ensures forall c :: c in r <==> c in columns && |data| > 0 && Get(data[0], c).Str?
    ensures |r| <= |columns|
  {
    if |columns| == 0 then []
    else
      var rest := StringColumns(data, columns[1..]);
      if |data| > 0 && Get(data[0], columns[0]).Str? then [columns[0]] + rest else rest
  }

  /** `columns.filter(col => data.length > 0 && typeof data[0][col] === "number")` */
  function NumericColumns(data: seq<Row>, columns: seq<string>): (r: seq<string>)
    ensures forall c :: c in r <==> c in columns && |data| > 0 && Get(data[0], c).Num?
    ensures |r| <= |columns|
  {
    if |columns| == 0 then []
    else
      var rest := NumericColumns(data, columns[1..]);
      if |data| > 0 && Get(data[0], columns[0]).Num? then [columns[0]] + rest else rest
  }

  /** `Math.round`: halves round up. */
  function Round(x: real): int {
    (x + 0.5).Floor
  }

  lemma RoundMonotone(x: real, y: real)
    requires x <= y
    ensures Round(x) <= Round(y)
  {
  }

  function RealMin(a: real, b: real): (r: real)
    ensures r <= a && r <= b && (r == a || r == b)
  {
    if a <= b then a else b
  }

  function RealMax(a: real, b: real): (r: real)
    ensures r >= a && r >= b && (r == a || r == b)
  {
    if a >= b then a else b
  }
}
