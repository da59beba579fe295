/** The DateValidation rules: a date range on one column, and conformance of a
    string column to a date format. Dates are day ordinals. */
module DateValidation {
  import opened Common
  import opened Frames
  import opened Grouping
  import opened MinMax
  import opened DateFormat

  predicate IsDate(v: Value)
  {
    v.DateV?
  }

  predicate IsStr(v: Value)
  {
    v.StrV?
  }

  const NotDate: QueryError := InvalidOperation("date comparison on a non-date column")

  const NotString: QueryError := InvalidOperation("str.contains on a non-string column")

  // ---------------------------------------------------------------- DateToBeBetween

  /** A date before the lower or after the upper bound; nulls are dropped. */
  predicate DateOutside(b: Bounds, c: Cell)
  {
    c.Some? && c.value.DateV? && Outside(c.value.day, b)
  }

  function KeepDateOutside(b: Bounds): Cell -> bool
  {
    c => DateOutside(b, c)
  }

  /** The out-of-range dates grouped by date: one group per distinct such date,
      counting its rows; the counts sum to the number of such rows. */
  function DatesOutside(cells: seq<Cell>, b: Bounds): (r: seq<Tally<Cell>>)
    ensures Tallies(r, cells, KeepDateOutside(b), Identity)
    ensures forall t :: t in r ==> t.key.Some? && t.key.value.DateV? && Outside(t.key.value.day, b)
    ensures Total(r) == |set i | 0 <= i < |cells| && DateOutside(b, cells[i])|
  {
    CountByValue(cells, KeepDateOutside(b));
    assert Kept(cells, KeepDateOutside(b)) == set i | 0 <= i < |cells| && DateOutside(b, cells[i]);
    GroupCount(cells, KeepDateOutside(b), Identity)
  }

  /** `DateToBeBetween.__call__`. */
  function DateToBeBetweenQuery(f: Frame, column: string, b: Bounds): (r: Result<seq<Tally<Cell>>, QueryError>)
    ensures r.Ok? <==> ColumnCells(f, column, IsDate, NotDate).Ok?
    ensures r.Ok? ==> r.value == DatesOutside(ColumnCells(f, column, IsDate, NotDate).value, b)
  {
    match ColumnCells(f, column, IsDate, NotDate)
    case Err(e) => Err(e)
    case Ok(cells) => Ok(DatesOutside(cells, b))
  }

  function DateToBeBetweenMessage(column: string, min: Option<int>, max: Option<int>): (m: string)
    ensures NamesColumn(m, column)
  {
    "The column '" + column + "'" + " has date range outside [" + PyOptInt(min) + ", " + PyOptInt(max) + "]."
  }

  // ---------------------------------------------------------------- ColumnMatchDateFormat

  /** A string the pattern does not match. A null gives a null match flag, which
      the `== False` filter drops. */
  predicate Mismatch(pattern: seq<Piece>, c: Cell)
  {
    c.Some? && c.value.StrV? && !Matches(pattern, c.value.s)
  }

  function KeepMismatch(pattern: seq<Piece>): Cell -> bool
  {
    c => Mismatch(pattern, c)
  }

  /** The strings rejected by the pattern `__call__` builds from the stored format, grouped by
      value: one group per distinct such string, counting its rows. */
  function FormatViolations(cells: seq<Cell>, fmt: string): (r: seq<Tally<Cell>>)
    ensures Tallies(r, cells, KeepMismatch(AsWrittenPattern(fmt)), Identity)
    ensures forall t :: t in r ==> t.key.Some? && t.key.value.StrV? && !Matches(AsWrittenPattern(fmt), t.key.value.s)
    ensures forall i :: 0 <= i < |cells| && Mismatch(AsWrittenPattern(fmt), cells[i]) ==> cells[i] in Keys(r)
    ensures Total(r) == |set i | 0 <= i < |cells| && Mismatch(AsWrittenPattern(fmt), cells[i])|
  {
    var keep := KeepMismatch(AsWrittenPattern(fmt));
    CountByValue(cells, keep);
    var r := GroupCount(cells, keep, Identity);
    forall i | 0 <= i < |cells| && Mismatch(AsWrittenPattern(fmt), cells[i]) ensures cells[i] in Keys(r) {
      assert keep(cells[i]);
    }
    assert Kept(cells, keep) == set i | 0 <= i < |cells| && Mismatch(AsWrittenPattern(fmt), cells[i]);
    r
  }

  /** For an empty or date-first format the built pattern is the intended one:
      the rule reports exactly the strings that do not conform to the format. */
  lemma DateFirstViolations(cells: seq<Cell>, fmt: string)
    requires |fmt| == 0 || IsDateChar(fmt[0])
    ensures forall t :: t in FormatViolations(cells, fmt) ==> !Conforms(fmt, t.key.value.s)
    ensures forall i :: 0 <= i < |cells| && cells[i].Some? && cells[i].value.StrV? && !Conforms(fmt, cells[i].value.s)
              ==> cells[i] in Keys(FormatViolations(cells, fmt))
  {
    var r := FormatViolations(cells, fmt);
    AsWrittenIsCorrectWhenDateFirst(fmt);
    forall t | t in r ensures !Conforms(fmt, t.key.value.s) {
      CorrectPatternMatches(fmt, t.key.value.s);
    }
    forall i | 0 <= i < |cells| && cells[i].Some? && cells[i].value.StrV? && !Conforms(fmt, cells[i].value.s)
      ensures cells[i] in Keys(r)
    {
      CorrectPatternMatches(fmt, cells[i].value.s);
      assert Mismatch(AsWrittenPattern(fmt), cells[i]);
    }
  }

  /** `ColumnMatchDateFormat.__call__`, with the pattern it builds from the stored format. */
  function ColumnMatchDateFormatQuery(f: Frame, column: string, fmt: string): (r: Result<seq<Tally<Cell>>, QueryError>)
    ensures r.Ok? <==> ColumnCells(f, column, IsStr, NotString).Ok?
    ensures r.Ok? ==> r.value == FormatViolations(ColumnCells(f, column, IsStr, NotString).value, fmt)
  {
    match ColumnCells(f, column, IsStr, NotString)
    case Err(e) => Err(e)
    case Ok(cells) => Ok(FormatViolations(cells, fmt))
  }

  /** The rule as intended, with the pattern in format order: the groups are
      exactly the strings that do not conform to the format, whatever kind of
      character the format starts with. */
  function CorrectedFormatViolations(cells: seq<Cell>, fmt: string): (r: seq<Tally<Cell>>)
    ensures Tallies(r, cells, KeepMismatch(CorrectPattern(fmt)), Identity)
    ensures forall t :: t in r ==> t.key.Some? && t.key.value.StrV? && !Conforms(fmt, t.key.value.s)
    ensures forall i :: 0 <= i < |cells| && cells[i].Some? && cells[i].value.StrV? && !Conforms(fmt, cells[i].value.s)
              ==> cells[i] in Keys(r)
  {
    var keep := KeepMismatch(CorrectPattern(fmt));
    CountByValue(cells, keep);
    var r := GroupCount(cells, keep, Identity);
    forall t | t in r ensures t.key.Some? && t.key.value.StrV? && !Conforms(fmt, t.key.value.s) {
      CorrectPatternMatches(fmt, t.key.value.s);
    }
    forall i | 0 <= i < |cells| && cells[i].Some? && cells[i].value.StrV? && !Conforms(fmt, cells[i].value.s)
      ensures cells[i] in Keys(r)
    {
      CorrectPatternMatches(fmt, cells[i].value.s);
      assert keep(cells[i]);
    }
    r
  }

  /** On "/YYYY" the rule passes "2024/" and reports "/2024". */
  lemma SlashYearRule(cells: seq<Cell>)
    requires Some(StrV("2024/")) in cells && Some(StrV("/2024")) in cells
    ensures Some(StrV("2024/")) !in Keys(FormatViolations(cells, "/YYYY"))
    ensures Some(StrV("/2024")) in Keys(FormatViolations(cells, "/YYYY"))
  {
    LeadingSeparatorCounterexample();
    var p := AsWrittenPattern("/YYYY");
    var r := FormatViolations(cells, "/YYYY");
    var i :| 0 <= i < |cells| && cells[i] == Some(StrV("/2024"));
    assert Mismatch(p, cells[i]);
  }

  /** On "/YYYY" the corrected rule does the opposite: it reports "2024/" and
      passes "/2024". */
  lemma SlashYearCorrected(cells: seq<Cell>)
    requires Some(StrV("2024/")) in cells && Some(StrV("/2024")) in cells
    ensures Some(StrV("2024/")) in Keys(CorrectedFormatViolations(cells, "/YYYY"))
    ensures Some(StrV("/2024")) !in Keys(CorrectedFormatViolations(cells, "/YYYY"))
  {
    LeadingSeparatorCounterexample();
    var c := CorrectedFormatViolations(cells, "/YYYY");
    var i :| 0 <= i < |cells| && cells[i] == Some(StrV("2024/"));
    assert !Conforms("/YYYY", cells[i].value.s);
  }

  /** The rule reuses the unique-values wording. */
  function ColumnMatchDateFormatMessage(column: string): (m: string)
    ensures NamesColumn(m, column)
  {
    "The column '" + column + "'" + " has unique values that are not in the list."
  }
}
