/**
 * Loosely typed table cells as the CSV and spreadsheet readers produce them,
 * Python's truthiness and conversions on them, and the single emptiness rule
 * (`_empty`) every other component relies on.
 */
module Cells {
  import opened Wrappers
  import opened Text

  /** One cell of a row: a string, an int, a float NaN, Python's None, or a bool. */
  datatype Cell = Str(s: string) | Int(i: int) | NaN | Null | Bool(b: bool)

  /** Everything that aborts a load. */
  datatype LoadError =
    | ConversionError             // int() refused the value
    | NotText(field: string)      // .split called on a value that is not a str
    | MissingKey(key: string)     // row['name'] on a row without that column
    | EmptyName                   // a host or group row whose name is empty
    | UnknownGroup(name: string)  // a group name that no group row defines

  /** `_empty`: None, a float NaN, or the empty string. */
  predicate Empty(c: Cell) {
    c.Null? || c.NaN? || c == Str("")
  }

  /** Python's `bool(c)`; a NaN float is truthy. */
  predicate Truthy(c: Cell) {
    match c
    case Str(s) => s != ""
    case Int(i) => i != 0
    case NaN => true
    case Null => false
    case Bool(b) => b
  }

  /** `v if not _empty(v) else None`. */
  function NullIfEmpty(c: Cell): Cell {
    if Empty(c) then Null else c
  }

  /** Python's `str(c)`. */
  function PyStr(c: Cell): string {
    match c
    case Str(s) => s
    case Int(i) => IntToString(i)
    case NaN => "nan"
    case Null => "None"
    case Bool(b) => if b then "True" else "False"
  }

  /** Python's `int(c)`: a bool is 0 or 1; NaN and None cannot be converted. */
  function PyInt(c: Cell): Result<int, LoadError> {
    match c
    case Str(s) => if ParseInt(s).Some? then Ok(ParseInt(s).value) else Err(ConversionError)
    case Int(i) => Ok(i)
    case NaN => Err(ConversionError)
    case Null => Err(ConversionError)
    case Bool(b) => Ok(if b then 1 else 0)
  }

  /** A cell is empty exactly when it is None, NaN or ""; zero, False and blanks are values. */
  lemma EmptyExactly(c: Cell)
    ensures Empty(c) <==> c == Null || c == NaN || c == Str("")
    ensures !Empty(Int(0)) && !Empty(Bool(false)) && !Empty(Str(" "))
  {
  }

  /**
   * Emptiness and Python truthiness differ on four kinds of cell: NaN is
   * empty yet truthy, while 0 and False are falsy yet not empty.
   */
  lemma EmptyVersusTruthy(c: Cell)
    ensures Empty(c) && Truthy(c) <==> c == NaN
    ensures !Empty(c) && !Truthy(c) <==> c == Int(0) || c == Bool(false)
  {
  }

  /** `str()` of a truthy cell is never the empty string. */
  lemma PyStrOfTruthy(c: Cell)
    ensures Truthy(c) ==> PyStr(c) != ""
  {
    if c.Int? {
      IntToStringShape(c.i);
    }
  }

  /** `int(str(n)) == n` on cells, and `int()` agrees with the cell's own value on ints and bools. */
  lemma PyIntOfDecimal(n: int)
    ensures PyInt(Str(IntToString(n))) == Ok(n)
    ensures PyInt(Int(n)) == Ok(n)
    ensures PyInt(Bool(true)) == Ok(1) && PyInt(Bool(false)) == Ok(0)
    ensures PyInt(NaN).Err? && PyInt(Null).Err? && PyInt(Str("")).Err?
  {
    ParseIntRoundTrip(n);
  }
}
