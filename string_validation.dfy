/** The StringValidation rules on character length. `str.len_chars()` of a
    null is null, so null rows never violate; on a non-string column it raises. */
module StringValidation {
  import opened Common
  import opened Frames
  import opened Grouping
  import opened MinMax

  predicate IsStr(v: Value)
  {
    v.StrV?
  }

  const NotString: QueryError := InvalidOperation("string length of a non-string column")

  /** A cell holding a string whose length is bad. */
  predicate LengthBad(bad: int -> bool, c: Cell)
  {
    c.Some? && c.value.StrV? && bad(|c.value.s|)
  }

  function KeepLength(bad: int -> bool): Cell -> bool
  {
    c => LengthBad(bad, c)
  }

  /** The rows with a bad length grouped by their string: one group per
      distinct such string, counting its rows; the counts sum to the number of
      such rows. */
  function LengthViolations(cells: seq<Cell>, bad: int -> bool): (r: seq<Tally<Cell>>)
    ensures Tallies(r, cells, KeepLength(bad), Identity)
    ensures forall t :: t in r ==> t.key.Some? && t.key.value.StrV? && bad(|t.key.value.s|)
    ensures Total(r) == |set i | 0 <= i < |cells| && LengthBad(bad, cells[i])|
  {
    CountByValue(cells, KeepLength(bad));
    assert Kept(cells, KeepLength(bad)) == set i | 0 <= i < |cells| && LengthBad(bad, cells[i]);
    GroupCount(cells, KeepLength(bad), Identity)
  }

  function LengthQuery(f: Frame, column: string, bad: int -> bool): (r: Result<seq<Tally<Cell>>, QueryError>)
    ensures r.Ok? <==> ColumnCells(f, column, IsStr, NotString).Ok?
    ensures r.Ok? ==> r.value == LengthViolations(ColumnCells(f, column, IsStr, NotString).value, bad)
  {
    match ColumnCells(f, column, IsStr, NotString)
    case Err(e) => Err(e)
    case Ok(cells) => Ok(LengthViolations(cells, bad))
  }

  function OutsideOf(b: Bounds): int -> bool
  {
    n => Outside(n, b)
  }

  function NotEqualTo(v: int): int -> bool
  {
    n => n != v
  }

  function Above(m: int): int -> bool
  {
    n => n > m
  }

  /** `LengthToBeBetween.__call__`: lengths outside the inclusive range. */
  function LengthToBeBetweenQuery(f: Frame, column: string, b: Bounds): (r: Result<seq<Tally<Cell>>, QueryError>)
    ensures r.Ok? ==> forall t :: t in r.value ==> t.key.Some? && t.key.value.StrV? && Outside(|t.key.value.s|, b)
  {
    LengthQuery(f, column, OutsideOf(b))
  }

  /** `LengthToBeEqualTo.__call__`: lengths different from `value`. */
  function LengthToBeEqualToQuery(f: Frame, column: string, value: int): (r: Result<seq<Tally<Cell>>, QueryError>)
    ensures r.Ok? ==> forall t :: t in r.value ==> t.key.Some? && t.key.value.StrV? && |t.key.value.s| != value
  {
    LengthQuery(f, column, NotEqualTo(value))
  }

  /** `LengthToBeLessThanOrEqualTo.__call__`: lengths above `max`; equality passes. */
  function LengthToBeLessThanOrEqualToQuery(f: Frame, column: string, max: int): (r: Result<seq<Tally<Cell>>, QueryError>)
    ensures r.Ok? ==> forall t :: t in r.value ==> t.key.Some? && t.key.value.StrV? && |t.key.value.s| > max
  {
    LengthQuery(f, column, Above(max))
  }

  function LengthToBeBetweenMessage(column: string, min: Option<int>, max: Option<int>): (m: string)
    ensures NamesColumn(m, column)
  {
    "The column '" + column + "'" + " has string lengths outside the range[" + PyOptInt(min) + ", " + PyOptInt(max) + "]."
  }

  function LengthToBeEqualToMessage(column: string, value: int): (m: string)
    ensures NamesColumn(m, column)
  {
    "The column '" + column + "'" + " has entries with length not equal to " + IntToString(value) + "."
  }

  function LengthToBeLessThanOrEqualToMessage(column: string, max: int): (m: string)
    ensures NamesColumn(m, column)
  {
    "The column '" + column + "'" + " has string lengths greater than " + IntToString(max) + "."
  }
}
