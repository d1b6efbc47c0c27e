/** The decoded form of a delimited file, as pandas reads it with
    `dtype=str`: a header and rows of text cells, where a missing value
    (NaN) is `None`. */
module Tables {
  import opened Wrappers
  import opened Seqs

  type Cell = Option<string>

  datatype Table = Table(header: seq<string>, rows: seq<seq<Cell>>)

  /** The cell of `row` under column `name`: None when the header has no
      such column, a missing value when the row stops short of it. With a
      repeated column name the first one is read. */
  function Field(header: seq<string>, row: seq<Cell>, name: string): (r: Option<Cell>)
    ensures r.None? <==> name !in header
  {
    match IndexOf(header, name)
    case None => None
    case Some(k) => Some(if k < |row| then row[k] else None)
  }

  /** Python's `str()` of a cell: a missing value prints as "nan". */
  function CellText(c: Cell): string
  {
    match c
    case None => "nan"
    case Some(s) => s
  }

  /** The cell under column `name`, missing when there is no such column
      (as `row.get(name)` gives). */
  function Get(header: seq<string>, row: seq<Cell>, name: string): Cell
  {
    match Field(header, row, name)
    case None => None
    case Some(c) => c
  }
}
