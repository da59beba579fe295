/** The UniqueValidation rules: per-value frequencies within a range, unique
    combinations of several columns, and values drawn from an allowed list. */
module UniqueValidation {
  import opened Common
  import opened Frames
  import opened Grouping
  import opened MinMax

  predicate KeepAll<T>(x: T)
  {
    true
  }

  /** The number of rows holding `k`. */
  ghost function Occurrences<T>(rows: seq<T>, k: T): nat
  {
    |set i | 0 <= i < |rows| && rows[i] == k|
  }

  lemma HitsAreOccurrences<T>(rows: seq<T>, k: T)
    ensures |Hits(rows, KeepAll, Identity, k)| == Occurrences(rows, k)
  {
    assert Hits(rows, KeepAll, Identity, k) == set i | 0 <= i < |rows| && rows[i] == k;
  }

  /** `group_by(col).agg(nw.col(col).count())` over a whole column: every
      distinct value with its number of rows, the null group counting 0. */
  function ValueCounts(cells: seq<Cell>): (r: seq<Tally<Cell>>)
    ensures DistinctKeys(r)
    ensures forall i :: 0 <= i < |cells| ==> cells[i] in Keys(r)
    ensures forall t :: t in r ==> t.key in cells && t.count == if t.key.None? then 0 else Occurrences(cells, t.key)
  {
    var r := GroupCount(cells, KeepAll, Identity);
    GroupPickNonNull(cells, KeepAll, Identity);
    forall t | t in r ensures t.key in cells && t.count == if t.key.None? then 0 else Occurrences(cells, t.key) {
      TallyWitness(cells, KeepAll, Identity, t.key);
      HitsAreOccurrences(cells, t.key);
    }
    r
  }

  // ---------------------------------------------------------------- ColumnUniqueValueCountToBeBetween

  function CountOutside(b: Bounds): Tally<Cell> -> bool
  {
    (t: Tally<Cell>) => Outside(t.count, b)
  }

  /** The values whose frequency is outside the inclusive range, each with its
      frequency. A null group counts 0, so it is kept exactly when 0 is out of range. */
  function FrequencyViolations(cells: seq<Cell>, b: Bounds): (r: seq<Tally<Cell>>)
    ensures DistinctKeys(r)
    ensures forall t :: t in r ==> t.key in cells && Outside(t.count, b)
    ensures forall t :: t in r ==> t.count == if t.key.None? then 0 else Occurrences(cells, t.key)
    ensures forall i :: 0 <= i < |cells| && cells[i].Some? && Outside(Occurrences(cells, cells[i]), b) ==> cells[i] in Keys(r)
    ensures (None in cells && Outside(0, b)) ==> None in Keys(r)
  {
    var ts := ValueCounts(cells);
    var r := FilterTallies(ts, CountOutside(b));
    forall i | 0 <= i < |cells| && cells[i].Some? && Outside(Occurrences(cells, cells[i]), b) ensures cells[i] in Keys(r) {
      FilterKeeps(ts, CountOutside(b), cells[i]);
    }
    assert (None in cells && Outside(0, b)) ==> None in Keys(r) by {
      if None in cells && Outside(0, b) {
        var i :| 0 <= i < |cells| && cells[i] == None;
        FilterKeeps(ts, CountOutside(b), None);
      }
    }
    r
  }

  /** `ColumnUniqueValueCountToBeBetween.__call__`. */
  function ColumnUniqueValueCountToBeBetweenQuery(f: Frame, column: string, b: Bounds): (r: Result<seq<Tally<Cell>>, QueryError>)
    ensures r.Err? <==> ColumnNamed(f, column).Err?
    ensures r.Ok? ==> r.value == FrequencyViolations(ColumnNamed(f, column).value.cells, b)
  {
    match ColumnNamed(f, column)
    case Err(e) => Err(e)
    case Ok(c) => Ok(FrequencyViolations(c.cells, b))
  }

  function ColumnUniqueValueCountToBeBetweenMessage(column: string, min: Option<int>, max: Option<int>): (m: string)
    ensures NamesColumn(m, column)
  {
    "The column '" + column + "'" + " has a number of unique values that is not between "
    + PyOptInt(min) + " and " + PyOptInt(max) + "."
  }

  // ---------------------------------------------------------------- ColumnUniquePair

  /** The combination key: the row's values joined by " - ", or null. */
  function PairKey(row: seq<Cell>): Cell
  {
    ConcatStr(row, " - ")
  }

  predicate Repeated<K>(t: Tally<K>)
  {
    t.count > 1
  }

  /** The indices of the rows whose key is `k`. */
  ghost function Carriers<T, K>(rows: seq<T>, key: T -> K, k: K): set<int>
  {
    set i | 0 <= i < |rows| && key(rows[i]) == k
  }

  /** The duplicated combinations: the keys carried by more than one row, each
      with the number of rows carrying it, first occurrence included. A null
      combination is a key like any other, and `nw.len()` counts its rows. */
  function DuplicateCombinations(rows: seq<seq<Cell>>): (r: seq<Tally<Cell>>)
    ensures DistinctKeys(r)
    ensures forall t :: t in r ==> t.count > 1 && t.count == |Carriers(rows, PairKey, t.key)|
    ensures forall i, j :: 0 <= i < j < |rows| && PairKey(rows[i]) == PairKey(rows[j]) ==> PairKey(rows[i]) in Keys(r)
  {
    RepeatedCounts(rows, PairKey);
    RepeatedComplete(rows, PairKey);
    FilterTallies(GroupLen(Pick(rows, KeepAll, PairKey)), Repeated)
  }

  lemma HitsAreCarriers<T, K>(rows: seq<T>, key: T -> K, k: K)
    ensures Hits(rows, KeepAll, key, k) == Carriers(rows, key, k)
  {
  }

  /** Every repeated group counts the rows carrying its key, more than one. */
  lemma RepeatedCounts<T, K>(rows: seq<T>, key: T -> K)
    ensures DistinctKeys(FilterTallies(GroupLen(Pick(rows, KeepAll, key)), Repeated))
    ensures forall t :: t in FilterTallies(GroupLen(Pick(rows, KeepAll, key)), Repeated) ==>
              t.count > 1 && t.count == |Carriers(rows, key, t.key)|
  {
    var ts := GroupLen(Pick(rows, KeepAll, key));
    GroupPick(rows, KeepAll, key);
    forall t | t in FilterTallies(ts, Repeated) ensures t.count > 1 && t.count == |Carriers(rows, key, t.key)| {
      HitsAreCarriers(rows, key, t.key);
    }
  }

  /** Two rows with the same key put that key among the repeated groups. */
  lemma RepeatedComplete<T, K>(rows: seq<T>, key: T -> K)
    ensures forall i, j :: 0 <= i < j < |rows| && key(rows[i]) == key(rows[j]) ==>
              key(rows[i]) in Keys(FilterTallies(GroupLen(Pick(rows, KeepAll, key)), Repeated))
  {
    var ts := GroupLen(Pick(rows, KeepAll, key));
    GroupPick(rows, KeepAll, key);
    forall i, j | 0 <= i < j < |rows| && key(rows[i]) == key(rows[j])
      ensures key(rows[i]) in Keys(FilterTallies(ts, Repeated))
    {
      var k := key(rows[i]);
      assert KeepAll(rows[i]);
      forall t | t in ts && t.key == k ensures Repeated(t) {
        TwoMembers(Hits(rows, KeepAll, key, k), i, j);
      }
      FilterKeeps(ts, Repeated, k);
    }
  }

  lemma TwoMembers(a: set<int>, i: int, j: int)
    requires i in a && j in a && i != j
    ensures |a| > 1
  {
    var rest := a - {i};
    assert j in rest;
    assert a == rest + {i};
  }

  /** `ColumnUniquePair.__call__`. A missing column raises. */
  function ColumnUniquePairQuery(f: Frame, columns: seq<string>): (r: Result<seq<Tally<Cell>>, QueryError>)
    ensures r.Ok? <==> Select(f, columns).Ok?
    ensures r.Ok? ==> r.value == DuplicateCombinations(Rows(Select(f, columns).value, f.height))
  {
    match Select(f, columns)
    case Err(e) => Err(e)
    case Ok(cols) => Ok(DuplicateCombinations(Rows(cols, f.height)))
  }

  /** The target id: the column names joined by " - ". */
  function PairTarget(columns: seq<string>): (r: string)
    ensures |columns| > 0 ==> columns[0] <= r
    ensures |columns| == 2 ==> r == columns[0] + " - " + columns[1]
  {
    Join(columns, " - ")
  }

  function ColumnUniquePairMessage(target: string): (m: string)
    ensures "Duplicate entries found: The combination of columns [" + target + "]" <= m
  {
    "Duplicate entries found: The combination of columns [" + target + "] contains non-unique values."
  }

  // ---------------------------------------------------------------- ColumnUniqueValuesToBeInList

  /** `is_in(values) == False`: a null value is never kept. */
  function NotListed(values: seq<Cell>): Tally<Cell> -> bool
  {
    (t: Tally<Cell>) => t.key.Some? && t.key !in values
  }

  /** The distinct non-null values missing from the allowed list, each with its
      number of rows. Listed values that do not occur change nothing. */
  function UnlistedValues(cells: seq<Cell>, values: seq<Cell>): (r: seq<Tally<Cell>>)
    ensures DistinctKeys(r)
    ensures forall t :: t in r ==> t.key.Some? && t.key in cells && t.key !in values && t.count == Occurrences(cells, t.key)
    ensures forall i :: 0 <= i < |cells| && cells[i].Some? && cells[i] !in values ==> cells[i] in Keys(r)
  {
    var ts := ValueCounts(cells);
    var r := FilterTallies(ts, NotListed(values));
    forall i | 0 <= i < |cells| && cells[i].Some? && cells[i] !in values ensures cells[i] in Keys(r) {
      FilterKeeps(ts, NotListed(values), cells[i]);
    }
    r
  }

  /** `ColumnUniqueValuesToBeInList.__call__`. */
  function ColumnUniqueValuesToBeInListQuery(f: Frame, column: string, values: seq<Cell>): (r: Result<seq<Tally<Cell>>, QueryError>)
    ensures r.Err? <==> ColumnNamed(f, column).Err?
    ensures r.Ok? ==> r.value == UnlistedValues(ColumnNamed(f, column).value.cells, values)
  {
    match ColumnNamed(f, column)
    case Err(e) => Err(e)
    case Ok(c) => Ok(UnlistedValues(c.cells, values))
  }

  function ColumnUniqueValuesToBeInListMessage(column: string): (m: string)
    ensures NamesColumn(m, column)
  {
    "The column '" + column + "'" + " has unique values that are not in the list."
  }
}
