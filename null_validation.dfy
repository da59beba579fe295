/** The NullValidation rules: a column without nulls, and a column of nulls only. */
module NullValidation {
  import opened Common
  import opened Frames
  import opened Grouping

  predicate IsNull(c: Cell)
  {
    c.None?
  }

  predicate IsPresent(c: Cell)
  {
    c.Some?
  }

  /** The indices of the null cells. */
  ghost function NullRows(cells: seq<Cell>): set<int>
  {
    set i | 0 <= i < |cells| && cells[i].None?
  }

  // ---------------------------------------------------------------- ColumnNotBeNull

  /** The null rows as one group: a literal 1 per null row, summed under the null
      key. No nulls, no group. */
  function NullGroups(cells: seq<Cell>): (r: seq<Tally<Cell>>)
    ensures |r| <= 1
    ensures forall t :: t in r ==> t.key.None? && t.count > 0
    ensures |r| == 0 <==> forall i :: 0 <= i < |cells| ==> cells[i].Some?
    ensures Total(r) == |NullRows(cells)|
  {
    var s := Pick(cells, IsNull, Identity);
    NullPick(cells);
    GroupLenFacts(s);
    OnlyNone(s);
    GroupLen(s)
  }

  /** The picked keys of the null filter: all null, one per null row. */
  lemma NullPick(cells: seq<Cell>)
    ensures forall k :: k in Pick(cells, IsNull, Identity) ==> k == None
    ensures |Pick(cells, IsNull, Identity)| == |NullRows(cells)|
    ensures |Pick(cells, IsNull, Identity)| == 0 <==> forall i :: 0 <= i < |cells| ==> cells[i].Some?
  {
    PickKeys(cells, IsNull, Identity);
    PickLength(cells, IsNull, Identity);
    assert Kept(cells, IsNull) == NullRows(cells);
    if exists i :: 0 <= i < |cells| && cells[i].None? {
      var i :| 0 <= i < |cells| && cells[i].None?;
      assert i in NullRows(cells);
    }
  }

  /** Every picked key is the key of a kept row. */
  lemma {:induction false} PickKeys<T, K>(rows: seq<T>, keep: T -> bool, key: T -> K)
    ensures forall k :: k in Pick(rows, keep, key) ==> exists i :: 0 <= i < |rows| && keep(rows[i]) && key(rows[i]) == k
  {
    if |rows| > 0 {
      var n := |rows| - 1;
      PickKeys(rows[..n], keep, key);
      forall k | k in Pick(rows, keep, key) ensures exists i :: 0 <= i < |rows| && keep(rows[i]) && key(rows[i]) == k {
        if k in Pick(rows[..n], keep, key) {
          var i :| 0 <= i < n && keep(rows[..n][i]) && key(rows[..n][i]) == k;
          assert rows[..n][i] == rows[i];
        } else {
          assert keep(rows[n]) && key(rows[n]) == k;
        }
      }
    }
  }

  /** Grouping a sequence of one repeated key gives at most one group. */
  lemma {:induction false} OnlyNone(s: seq<Cell>)
    requires forall k :: k in s ==> k == None
    ensures |GroupLen(s)| <= 1
    ensures forall t :: t in GroupLen(s) ==> t.key.None?
  {
    if |s| > 0 {
      var init := s[..|s| - 1];
      assert forall k :: k in init ==> k in s;
      OnlyNone(init);
      GroupLenFacts(s);
      assert s[|s| - 1] in s;
      var g := GroupLen(init);
      if |g| == 1 {
        assert g[0] in g;
      }
    }
  }

  /** `ColumnNotBeNull.__call__`. */
  function ColumnNotBeNullQuery(f: Frame, column: string): (r: Result<seq<Tally<Cell>>, QueryError>)
    ensures r.Err? <==> ColumnNamed(f, column).Err?
    ensures r.Ok? ==> r.value == NullGroups(ColumnNamed(f, column).value.cells)
  {
    match ColumnNamed(f, column)
    case Err(e) => Err(e)
    case Ok(c) => Ok(NullGroups(c.cells))
  }

  function ColumnNotBeNullMessage(column: string): (m: string)
    ensures NamesColumn(m, column)
  {
    "The column '" + column + "'" + " has values that are null."
  }

  // ---------------------------------------------------------------- ColumnBeNull

  /** The non-null values grouped by value, each with its number of rows; the
      counts sum to the number of non-null rows. */
  function PresentValues(cells: seq<Cell>): (r: seq<Tally<Cell>>)
    ensures Tallies(r, cells, IsPresent, Identity)
    ensures forall t :: t in r ==> t.key.Some?
    ensures Total(r) == |cells| - |NullRows(cells)|
  {
    CountByValue(cells, IsPresent);
    NullsAndPresent(cells);
    GroupCount(cells, IsPresent, Identity)
  }

  lemma NullsAndPresent(cells: seq<Cell>)
    ensures |Kept(cells, IsPresent)| == |cells| - |NullRows(cells)|
  {
    PickLength(cells, IsPresent, Identity);
    PickLength(cells, IsNull, Identity);
    assert Kept(cells, IsNull) == NullRows(cells);
    PickSplit(cells);
  }

  /** Every row passes exactly one of the two filters. */
  lemma {:induction false} PickSplit(cells: seq<Cell>)
    ensures |Pick(cells, IsPresent, Identity)| + |Pick(cells, IsNull, Identity)| == |cells|
  {
    if |cells| > 0 {
      PickSplit(cells[..|cells| - 1]);
    }
  }

  /** `ColumnBeNull.__call__`. */
  function ColumnBeNullQuery(f: Frame, column: string): (r: Result<seq<Tally<Cell>>, QueryError>)
    ensures r.Err? <==> ColumnNamed(f, column).Err?
    ensures r.Ok? ==> r.value == PresentValues(ColumnNamed(f, column).value.cells)
  {
    match ColumnNamed(f, column)
    case Err(e) => Err(e)
    case Ok(c) => Ok(PresentValues(c.cells))
  }

  function ColumnBeNullMessage(column: string): (m: string)
    ensures NamesColumn(m, column)
  {
    "The column '" + column + "'" + " doesn't have values that are null."
  }

  // ---------------------------------------------------------------- an all-null column

  /** When every row passes the filter, every row is picked. */
  lemma {:induction false} PickAll<T, K>(rows: seq<T>, keep: T -> bool, key: T -> K)
    requires forall i :: 0 <= i < |rows| ==> keep(rows[i])
    ensures |Pick(rows, keep, key)| == |rows|
  {
    if |rows| > 0 {
      var n := |rows| - 1;
      assert forall i :: 0 <= i < n ==> rows[..n][i] == rows[i];
      PickAll(rows[..n], keep, key);
    }
  }

  lemma AllNullRows(cells: seq<Cell>)
    requires forall i :: 0 <= i < |cells| ==> cells[i].None?
    ensures |NullRows(cells)| == |cells|
  {
    PickAll(cells, IsNull, Identity);
    NullPick(cells);
  }

  /** A column of nulls fails `ColumnNotBeNull` on every row ... */
  lemma AllNullFailsNotBeNull(cells: seq<Cell>)
    requires forall i :: 0 <= i < |cells| ==> cells[i].None?
    ensures Total(NullGroups(cells)) == |cells|
  {
    AllNullRows(cells);
  }

  /** ... and passes `ColumnBeNull` with nothing counted. */
  lemma AllNullPassesBeNull(cells: seq<Cell>)
    requires forall i :: 0 <= i < |cells| ==> cells[i].None?
    ensures PresentValues(cells) == []
  {
    AllNullRows(cells);
  }
}
