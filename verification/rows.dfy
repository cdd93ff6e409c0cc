/** The rows the script reads and writes. */
module Rows {

  /** A cell of an output row: text read from the CSV, the geocodable flag,
      a coordinate returned by the geocoder (only ever copied, never computed
      with), or Python's None. */
  datatype Value = Str(text: string) | Bool(flag: bool) | Num(number: real) | Null

  /** A record as csv.DictReader yields it: column name to cell text. */
  type InputRow = map<string, string>

  /** A record as csv.DictWriter receives it. */
  type OutputRow = map<string, Value>

  /** The input row seen as an output row: every column kept, every cell as text. */
  function Cells(row: InputRow): (r: OutputRow)
    ensures r.Keys == row.Keys
    ensures forall k :: k in row ==> r[k] == Str(row[k])
  {
    map k | k in row :: Str(row[k])
  }
}
