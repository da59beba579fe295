/** The ValuesValidation rules: a value range on one column, and four checks on
    the row-wise sum of a list of columns. Each query returns the violating
    groups as (key, count) tallies. */
module ValuesValidation {
  import opened Common
  import opened Frames
  import opened Grouping
  import opened MinMax

  predicate IsInt(v: Value)
  {
    v.IntV?
  }

  const NotNumeric: QueryError := InvalidOperation("numeric comparison on a non-numeric column")

  // ---------------------------------------------------------------- ColumnValuesToBeBetween

  /** A cell `min_max_filter` keeps: a number outside the range. A null cell
      compares as null and is dropped. */
  predicate ValueOutside(b: Bounds, c: Cell)
  {
    c.Some? && c.value.IntV? && Outside(c.value.i, b)
  }

  function KeepOutside(b: Bounds): Cell -> bool
  {
    c => ValueOutside(b, c)
  }

  /** The out-of-range rows grouped by value: one group per distinct
      out-of-range value, counting its rows; the counts sum to the number of
      out-of-range rows. */
  function ValuesOutside(cells: seq<Cell>, b: Bounds): (r: seq<Tally<Cell>>)
    ensures Tallies(r, cells, KeepOutside(b), Identity)
    ensures forall t :: t in r ==> t.key.Some? && t.key.value.IntV? && Outside(t.key.value.i, b)
    ensures Total(r) == |set i | 0 <= i < |cells| && ValueOutside(b, cells[i])|
  {
    CountByValue(cells, KeepOutside(b));
    assert Kept(cells, KeepOutside(b)) == set i | 0 <= i < |cells| && ValueOutside(b, cells[i]);
    GroupCount(cells, KeepOutside(b), Identity)
  }

  /** With both bounds, a number is reported exactly when it lies outside the
      closed range `[lo, hi]`: both ends pass. */
  lemma BetweenInclusive(cells: seq<Cell>, lo: int, hi: int, i: nat)
    requires i < |cells| && cells[i].Some? && cells[i].value.IntV?
    ensures cells[i] in Keys(ValuesOutside(cells, Bounds(Some(lo), Some(hi)))) <==> !(lo <= cells[i].value.i <= hi)
  {
    ReportedIffOutside(cells, Bounds(Some(lo), Some(hi)), i);
    InsideIffBetween(cells[i].value.i, lo, hi);
  }

  /** With one bound, the other side is open: only values below `min_value`,
      or only values above `max_value`, are reported. */
  lemma OneSidedBounds(cells: seq<Cell>, bound: int, i: nat)
    requires i < |cells| && cells[i].Some? && cells[i].value.IntV?
    ensures cells[i] in Keys(ValuesOutside(cells, Bounds(Some(bound), None))) <==> cells[i].value.i < bound
    ensures cells[i] in Keys(ValuesOutside(cells, Bounds(None, Some(bound)))) <==> cells[i].value.i > bound
  {
    ReportedIffOutside(cells, Bounds(Some(bound), None), i);
    ReportedIffOutside(cells, Bounds(None, Some(bound)), i);
    OpenEnds(cells[i].value.i, bound, bound);
  }

  /** A number in the column is a reported group exactly when it is out of range. */
  lemma ReportedIffOutside(cells: seq<Cell>, b: Bounds, i: nat)
    requires i < |cells| && cells[i].Some? && cells[i].value.IntV?
    ensures cells[i] in Keys(ValuesOutside(cells, b)) <==> Outside(cells[i].value.i, b)
  {
    var r := ValuesOutside(cells, b);
    if cells[i] in Keys(r) {
      var j :| 0 <= j < |r| && Keys(r)[j] == cells[i];
      assert r[j] in r;
    }
    if Outside(cells[i].value.i, b) {
      assert KeepOutside(b)(cells[i]);
    }
  }

  /** `ColumnValuesToBeBetween.__call__`. */
  function ColumnValuesToBeBetweenQuery(f: Frame, column: string, b: Bounds): (r: Result<seq<Tally<Cell>>, QueryError>)
    ensures r.Ok? <==> ColumnCells(f, column, IsInt, NotNumeric).Ok?
    ensures r.Ok? ==> r.value == ValuesOutside(ColumnCells(f, column, IsInt, NotNumeric).value, b)
  {
    match ColumnCells(f, column, IsInt, NotNumeric)
    case Err(e) => Err(e)
    case Ok(cells) => Ok(ValuesOutside(cells, b))
  }

  function ColumnValuesToBeBetweenMessage(column: string, min: Option<int>, max: Option<int>): (m: string)
    ensures NamesColumn(m, column)
  {
    "The column '" + column + "'" + " has values that are not between " + PyOptInt(min) + " and " + PyOptInt(max) + "."
  }

  // ---------------------------------------------------------------- column sums

  /** `nw.sum_horizontal` over one row of the selected columns; nulls add nothing. */
  function RowSum(row: seq<Cell>): int
  {
    if |row| == 0 then 0
    else (if row[0].Some? && row[0].value.IntV? then row[0].value.i else 0) + RowSum(row[1..])
  }

  /** The group key of a summed row: its values joined by " - ", null as soon as
      one of them is null. */
  function SumKey(row: seq<Cell>): Cell
  {
    ConcatStr(row, " - ")
  }

  function SumViolates(bad: int -> bool): seq<Cell> -> bool
  {
    row => bad(RowSum(row))
  }

  /** The composite target id of the sum rules. */
  function CombinedTarget(columns: seq<string>): (r: string)
    ensures |r| >= 9 && r[|r| - 9..] == "-combined"
    ensures |columns| > 0 ==> columns[0] <= r
    ensures |columns| == 2 ==> r == columns[0] + "-" + columns[1] + "-combined"
  {
    Join(columns, "-") + "-combined"
  }

  /** The rows whose sum is bad, grouped by their joined values and counted with
      `count()`: a row with a null cell has a null key and counts nothing. */
  function SumViolations(rows: seq<seq<Cell>>, bad: int -> bool): (r: seq<Tally<Cell>>)
    ensures TalliesNonNull(r, rows, SumViolates(bad), SumKey)
    ensures forall t :: t in r ==> exists i :: 0 <= i < |rows| && bad(RowSum(rows[i])) && SumKey(rows[i]) == t.key
    ensures Total(r) == |set i | 0 <= i < |rows| && bad(RowSum(rows[i]))|
                        - |set i | 0 <= i < |rows| && bad(RowSum(rows[i])) && SumKey(rows[i]).None?|
  {
    var keep := SumViolates(bad);
    GroupPickNonNull(rows, keep, SumKey);
    SumViolationsWitness(rows, bad);
    SumViolationsSets(rows, bad);
    GroupCount(rows, keep, SumKey)
  }

  lemma SumViolationsWitness(rows: seq<seq<Cell>>, bad: int -> bool)
    requires TalliesNonNull(GroupCount(rows, SumViolates(bad), SumKey), rows, SumViolates(bad), SumKey)
    ensures forall t :: t in GroupCount(rows, SumViolates(bad), SumKey) ==>
              exists i :: 0 <= i < |rows| && bad(RowSum(rows[i])) && SumKey(rows[i]) == t.key
  {
    forall t | t in GroupCount(rows, SumViolates(bad), SumKey)
      ensures exists i :: 0 <= i < |rows| && bad(RowSum(rows[i])) && SumKey(rows[i]) == t.key
    {
      TallyWitness(rows, SumViolates(bad), SumKey, t.key);
    }
  }

  lemma SumViolationsSets(rows: seq<seq<Cell>>, bad: int -> bool)
    ensures Kept(rows, SumViolates(bad)) == set i | 0 <= i < |rows| && bad(RowSum(rows[i]))
    ensures Hits(rows, SumViolates(bad), SumKey, None)
            == set i | 0 <= i < |rows| && bad(RowSum(rows[i])) && SumKey(rows[i]).None?
  {
  }

  const NoColumns: QueryError := InvalidOperation("sum_horizontal needs at least one column")

  /** Select the listed columns, sum each row and keep the bad sums. An empty
      list, a missing column or a non-numeric column raises. */
  function SumQuery(f: Frame, columns: seq<string>, bad: int -> bool): (r: Result<seq<Tally<Cell>>, QueryError>)
    ensures |columns| == 0 ==> r == Err(NoColumns)
    ensures (exists j :: 0 <= j < |columns| && ColumnNamed(f, columns[j]).Err?) ==> r.Err?
    ensures r.Ok? ==> |columns| > 0 && Select(f, columns).Ok?
    ensures r.Ok? ==> var cols := Select(f, columns).value;
                      && (forall j :: 0 <= j < |cols| ==> NonNullAll(cols[j].cells, IsInt))
                      && r.value == SumViolations(Rows(cols, f.height), bad)
  {
    if |columns| == 0 then Err(NoColumns)
    else
      match Select(f, columns)
      case Err(e) => Err(e)
      case Ok(cols) =>
        if forall j :: 0 <= j < |cols| ==> NonNullAll(cols[j].cells, IsInt)
        then Ok(SumViolations(Rows(cols, f.height), bad))
        else Err(NotNumeric)
  }

  function NotEqualTo(v: int): int -> bool
  {
    s => s != v
  }

  function OutsideOf(b: Bounds): int -> bool
  {
    s => Outside(s, b)
  }

  function Above(m: int): int -> bool
  {
    s => s > m
  }

  function Below(m: int): int -> bool
  {
    s => s < m
  }

  /** `ColumnsSumToBeEqualTo.__call__`: rows whose sum differs from `sum`. */
  function ColumnsSumToBeEqualToQuery(f: Frame, columns: seq<string>, sum: int): (r: Result<seq<Tally<Cell>>, QueryError>)
    ensures r.Ok? ==> Select(f, columns).Ok? && forall t :: t in r.value ==>
              exists row :: row in Rows(Select(f, columns).value, f.height) && RowSum(row) != sum && SumKey(row) == t.key
  {
    SumQuery(f, columns, NotEqualTo(sum))
  }

  /** `ColumnsSumToBeBetween.__call__`: rows whose sum is outside the inclusive range. */
  function ColumnsSumToBeBetweenQuery(f: Frame, columns: seq<string>, b: Bounds): (r: Result<seq<Tally<Cell>>, QueryError>)
    ensures r.Ok? ==> Select(f, columns).Ok? && forall t :: t in r.value ==>
              exists row :: row in Rows(Select(f, columns).value, f.height) && Outside(RowSum(row), b) && SumKey(row) == t.key
  {
    SumQuery(f, columns, OutsideOf(b))
  }

  /** `ColumnsSumToBeLessEqualTo.__call__`: its `min_sum_value` is an upper
      bound; rows whose sum exceeds it violate, equality passes. */
  function ColumnsSumToBeLessEqualToQuery(f: Frame, columns: seq<string>, minSum: int): (r: Result<seq<Tally<Cell>>, QueryError>)
    ensures r.Ok? ==> Select(f, columns).Ok? && forall t :: t in r.value ==>
              exists row :: row in Rows(Select(f, columns).value, f.height) && RowSum(row) > minSum && SumKey(row) == t.key
  {
    SumQuery(f, columns, Above(minSum))
  }

  /** `ColumnsSumToBeGreaterEqualTo.__call__`: its `max_sum_value` is a lower
      bound; rows whose sum falls short of it violate, equality passes. */
  function ColumnsSumToBeGreaterEqualToQuery(f: Frame, columns: seq<string>, maxSum: int): (r: Result<seq<Tally<Cell>>, QueryError>)
    ensures r.Ok? ==> Select(f, columns).Ok? && forall t :: t in r.value ==>
              exists row :: row in Rows(Select(f, columns).value, f.height) && RowSum(row) < maxSum && SumKey(row) == t.key
  {
    SumQuery(f, columns, Below(maxSum))
  }

  function ColumnsSumToBeEqualToMessage(columns: seq<string>, sum: int): (m: string)
    ensures "The columns " + PyStrList(columns) <= m
  {
    "The columns " + PyStrList(columns) + " do not sum to " + IntToString(sum) + "."
  }

  function ColumnsSumToBeBetweenMessage(columns: seq<string>, min: Option<int>, max: Option<int>): (m: string)
    ensures "The columns " + PyStrList(columns) <= m
  {
    "The columns " + PyStrList(columns) + " are not between " + PyOptInt(min) + " and " + PyOptInt(max) + "."
  }

  function ColumnsSumToBeLessEqualToMessage(columns: seq<string>, minSum: int): (m: string)
    ensures "The columns " + PyStrList(columns) <= m
  {
    "The columns " + PyStrList(columns) + " are not equal or less than " + IntToString(minSum) + "."
  }

  function ColumnsSumToBeGreaterEqualToMessage(columns: seq<string>, maxSum: int): (m: string)
    ensures "The columns " + PyStrList(columns) <= m
  {
    "The columns " + PyStrList(columns) + " are not equal or greater than " + IntToString(maxSum) + "."
  }
}
