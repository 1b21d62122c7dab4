/** Tabular review data as the recommender sees it. A table is the ordered
    list of its columns, each a label and one cell per row; a cell is a
    string or null (`None`), as in a pandas DataFrame read from CSV. */
module Tables {
  import opened Wrappers

  type Cell = Option<string>

  datatype Column = Column(name: string, cells: seq<Cell>)

  datatype Table = Table(nrows: nat, columns: seq<Column>)

  /** Every column has one cell per row. */
  ghost predicate WellFormed(t: Table) {
    forall c :: c in t.columns ==> |c.cells| == t.nrows
  }

  /** `df.columns` */
  function Names(cols: seq<Column>): (r: seq<string>)
    ensures |r| == |cols|
    ensures forall i :: 0 <= i < |cols| ==> r[i] == cols[i].name
  {
    seq(|cols|, i requires 0 <= i < |cols| => cols[i].name)
  }

  /** `df[name]`: the first column carrying that label. */
  function ColumnNamed(cols: seq<Column>, name: string): (c: Column)
    requires name in Names(cols)
    ensures c in cols && c.name == name
  {
    if cols[0].name == name then cols[0] else ColumnNamed(cols[1..], name)
  }

  /** One normalised review row: its `Place`, `Location` and `Review` cells. */
  datatype Record = Record(place: string, location: string, review: string)
}
