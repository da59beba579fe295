/** The EqualityValidation rule: two columns equal row by row. */
module EqualityValidation {
  import opened Common
  import opened Frames
  import opened Grouping

  /** The two cells of one row, from the checked and the target column. */
  type CellPair = (Cell, Cell)

  function Pairs(a: seq<Cell>, b: seq<Cell>): (r: seq<CellPair>)
    requires |a| == |b|
    ensures |r| == |a|
    ensures forall i :: 0 <= i < |a| ==> r[i] == (a[i], b[i])
  {
    seq(|a|, i requires 0 <= i < |a| => (a[i], b[i]))
  }

  /** `column != target_column` holds: both present and different. A null on
      either side compares as null and the filter drops the row. */
  predicate Differs(p: CellPair)
  {
    p.0.Some? && p.1.Some? && p.0 != p.1
  }

  /** Two present values the backend cannot compare. */
  predicate Incomparable(p: CellPair)
  {
    p.0.Some? && p.1.Some? && !SameKind(p.0.value, p.1.value)
  }

  predicate SameKind(x: Value, y: Value)
  {
    (x.IntV? && y.IntV?) || (x.StrV? && y.StrV?) || (x.DateV? && y.DateV?)
  }

  const NotComparable: QueryError := InvalidOperation("cannot compare columns of different types")

  /** The rows where the two columns differ. */
  ghost function Unequal(a: seq<Cell>, b: seq<Cell>): set<int>
    requires |a| == |b|
  {
    set i | 0 <= i < |a| && Differs((a[i], b[i]))
  }

  lemma KeptIsUnequal(a: seq<Cell>, b: seq<Cell>)
    requires |a| == |b|
    ensures Kept(Pairs(a, b), Differs) == Unequal(a, b)
  {
  }

  function First(p: CellPair): Cell
  {
    p.0
  }

  /** The separator `group_by_combined` joins the pair with. */
  function CombinedSeparator(column: string, target: string): string
  {
    " - column " + column + " - column " + target + " - "
  }

  function Combine(sep: string): CellPair -> Cell
  {
    (p: CellPair) => ConcatStr([p.0, p.1], sep)
  }

  /** Grouped by the pair, then each pair written as one text key. The count is
      `count()` of the checked column, which the filter left without nulls. */
  function CombinedViolations(a: seq<Cell>, b: seq<Cell>, sep: string): (r: seq<Tally<Cell>>)
    requires |a| == |b|
    ensures Total(r) == |Unequal(a, b)|
    ensures forall t :: t in r ==> t.key.Some? && exists i :: i in Unequal(a, b) && t.key == ConcatStr([a[i], b[i]], sep)
    ensures forall i :: i in Unequal(a, b) ==> ConcatStr([a[i], b[i]], sep) in Keys(r)
  {
    CombinedWitness(a, b, sep);
    CombinedComplete(a, b, sep);
    MapKeys(GroupLen(Pick(Pairs(a, b), Differs, Identity)), Combine(sep))
  }

  lemma CombinedWitness(a: seq<Cell>, b: seq<Cell>, sep: string)
    requires |a| == |b|
    ensures var r := MapKeys(GroupLen(Pick(Pairs(a, b), Differs, Identity)), Combine(sep));
            && Total(r) == |Unequal(a, b)|
            && forall t :: t in r ==> t.key.Some? && exists i :: i in Unequal(a, b) && t.key == ConcatStr([a[i], b[i]], sep)
  {
    var ps := Pairs(a, b);
    GroupMapped(ps, Differs, Combine(sep));
    KeptIsUnequal(a, b);
    var r := MapKeys(GroupLen(Pick(ps, Differs, Identity)), Combine(sep));
    forall t | t in r ensures t.key.Some? && exists i :: i in Unequal(a, b) && t.key == ConcatStr([a[i], b[i]], sep) {
      var i :| 0 <= i < |ps| && Differs(ps[i]) && t.key == Combine(sep)(ps[i]);
      CombinePresent(ps[i], sep);
      assert i in Unequal(a, b);
    }
  }

  /** Two present cells combine into a present key. */
  lemma CombinePresent(p: CellPair, sep: string)
    requires Differs(p)
    ensures Combine(sep)(p).Some?
  {
    var parts := [p.0, p.1];
    assert forall j :: 0 <= j < |parts| ==> parts[j].Some?;
  }

  lemma CombinedComplete(a: seq<Cell>, b: seq<Cell>, sep: string)
    requires |a| == |b|
    ensures forall i :: i in Unequal(a, b) ==>
              ConcatStr([a[i], b[i]], sep) in Keys(MapKeys(GroupLen(Pick(Pairs(a, b), Differs, Identity)), Combine(sep)))
  {
    var ps := Pairs(a, b);
    GroupMapped(ps, Differs, Combine(sep));
    forall i | i in Unequal(a, b)
      ensures ConcatStr([a[i], b[i]], sep) in Keys(MapKeys(GroupLen(Pick(ps, Differs, Identity)), Combine(sep)))
    {
      assert Differs(ps[i]);
    }
  }

  /** Grouped by the checked column's value alone. */
  function SingleViolations(a: seq<Cell>, b: seq<Cell>): (r: seq<Tally<Cell>>)
    requires |a| == |b|
    ensures Tallies(r, Pairs(a, b), Differs, First)
    ensures Total(r) == |Unequal(a, b)|
    ensures forall t :: t in r ==> t.key.Some? && exists i :: i in Unequal(a, b) && t.key == a[i]
    ensures forall i :: i in Unequal(a, b) ==> a[i] in Keys(r)
  {
    SingleWitness(a, b);
    SingleComplete(a, b);
    GroupCount(Pairs(a, b), Differs, First)
  }

  lemma SingleWitness(a: seq<Cell>, b: seq<Cell>)
    requires |a| == |b|
    ensures var r := GroupCount(Pairs(a, b), Differs, First);
            && Tallies(r, Pairs(a, b), Differs, First)
            && Total(r) == |Unequal(a, b)|
            && forall t :: t in r ==> t.key.Some? && exists i :: i in Unequal(a, b) && t.key == a[i]
  {
    GroupCountNoNulls(Pairs(a, b), Differs, First);
    KeptIsUnequal(a, b);
    SingleKeys(a, b);
  }

  /** Every key of the single grouping is the checked value of a differing row. */
  lemma SingleKeys(a: seq<Cell>, b: seq<Cell>)
    requires |a| == |b|
    ensures forall t :: t in GroupCount(Pairs(a, b), Differs, First) ==>
              t.key.Some? && exists i :: i in Unequal(a, b) && t.key == a[i]
  {
    var ps := Pairs(a, b);
    GroupCountNoNulls(ps, Differs, First);
    var r := GroupCount(ps, Differs, First);
    forall t | t in r ensures t.key.Some? && exists i :: i in Unequal(a, b) && t.key == a[i] {
      TallyWitness(ps, Differs, First, t.key);
      var i :| 0 <= i < |ps| && Differs(ps[i]) && First(ps[i]) == t.key;
      assert i in Unequal(a, b);
    }
  }

  lemma SingleComplete(a: seq<Cell>, b: seq<Cell>)
    requires |a| == |b|
    ensures forall i :: i in Unequal(a, b) ==> a[i] in Keys(GroupCount(Pairs(a, b), Differs, First))
  {
    var ps := Pairs(a, b);
    GroupCountNoNulls(ps, Differs, First);
    forall i | i in Unequal(a, b) ensures a[i] in Keys(GroupCount(ps, Differs, First)) {
      assert Differs(ps[i]);
    }
  }

  /** `PairColumnEquality.__call__`. Either column missing, or a row whose two
      values cannot be compared, raises. */
  function PairColumnEqualityQuery(f: Frame, column: string, target: string, combined: bool): (r: Result<seq<Tally<Cell>>, QueryError>)
    ensures r.Ok? <==> (&& ColumnNamed(f, column).Ok? && ColumnNamed(f, target).Ok?
                        && forall i :: 0 <= i < f.height ==>
                             !Incomparable((ColumnNamed(f, column).value.cells[i], ColumnNamed(f, target).value.cells[i])))
    ensures ColumnNamed(f, column).Err? ==> r == Err(ColumnNotFound(column))
    ensures r.Ok? && combined ==>
              r.value == CombinedViolations(ColumnNamed(f, column).value.cells, ColumnNamed(f, target).value.cells,
                                            CombinedSeparator(column, target))
    ensures r.Ok? && !combined ==>
              r.value == SingleViolations(ColumnNamed(f, column).value.cells, ColumnNamed(f, target).value.cells)
  {
    match ColumnNamed(f, column)
    case Err(e) => Err(e)
    case Ok(ca) =>
      match ColumnNamed(f, target)
      case Err(e) => Err(e)
      case Ok(cb) =>
        if exists i :: 0 <= i < f.height && Incomparable((ca.cells[i], cb.cells[i])) then Err(NotComparable)
        else if combined then Ok(CombinedViolations(ca.cells, cb.cells, CombinedSeparator(column, target)))
        else Ok(SingleViolations(ca.cells, cb.cells))
  }

  /** The source's wording, without a space before the second quote. */
  function PairColumnEqualityMessage(column: string, target: string): (m: string)
    ensures NamesColumn(m, column)
  {
    "The column '" + column + "'" + " is not equal to the column'" + target + "'."
  }
}
