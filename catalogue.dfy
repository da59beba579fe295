/** The rule catalogue as one datatype, with the per-rule facts the session
    needs: the class name, the target id, the fail message, the violation
    query and the denominator of the failing share. Running a rule is the
    shared step of the Engine module applied to these. */
module Catalogue {
  import opened Common
  import opened Frames
  import opened Grouping
  import opened Results
  import opened Engine
  import opened MinMax
  import opened DTypes
  import ValuesValidation
  import StringValidation
  import DateValidation
  import UniqueValidation
  import NullValidation
  import EqualityValidation
  import TypeValidation

  datatype Rule =
    | ColumnValuesToBeBetween(column: string, bounds: Bounds)
    | ColumnsSumToBeEqualTo(columns: seq<string>, sum: int)
    | ColumnsSumToBeBetween(columns: seq<string>, bounds: Bounds)
    | ColumnsSumToBeLessEqualTo(columns: seq<string>, minSum: int)
    | ColumnsSumToBeGreaterEqualTo(columns: seq<string>, maxSum: int)
    | LengthToBeBetween(column: string, bounds: Bounds)
    | LengthToBeEqualTo(column: string, value: int)
    | LengthToBeLessThanOrEqualTo(column: string, max: int)
    | DateToBeBetween(column: string, bounds: Bounds)
    | ColumnMatchDateFormat(column: string, format: string)
    | ColumnUniqueValueCountToBeBetween(column: string, bounds: Bounds)
    | ColumnUniquePair(columns: seq<string>)
    | ColumnUniqueValuesToBeInList(column: string, values: seq<Cell>)
    | ColumnNotBeNull(column: string)
    | ColumnBeNull(column: string)
    | PairColumnEquality(column: string, target: string, combined: bool)
    | TypeCheck(config: TypeValidation.Config)

  /** The errors a rule's constructor raises. */
  datatype BuildError =
    | BoundError(bound: ConfigError)
    | AssertionError(message: string)
    | InitFailure(init: TypeValidation.InitError)

  /** The rules whose constructor runs `min_max_arg_check`. */
  predicate HasBounds(rule: Rule)
  {
    || rule.ColumnValuesToBeBetween? || rule.ColumnsSumToBeBetween? || rule.LengthToBeBetween?
    || rule.DateToBeBetween? || rule.ColumnUniqueValueCountToBeBetween?
  }

  /** What `TypeCheck.__init__` guarantees of the fields it sets. */
  predicate ValidTypeConfig(c: TypeValidation.Config)
  {
    && |c.definition| > 0
    && (forall k :: 0 <= k < |c.definition| ==> IsSubclass(c.definition[k].1, DType))
    && (c.column == TypeValidation.SchemaTarget || c.columnType.Some?)
  }

  /** The argument checks of the constructors. A type-check configuration
      that breaks the constructor's guarantees is refused with the error the
      constructor raises for it: the TypeError naming the first declared class
      outside DType, or else the mode ValueError. */
  function Admit(rule: Rule): (r: Result<Rule, BuildError>)
    ensures r.Ok? ==> r.value == rule
    ensures HasBounds(rule) ==> (r.Err? <==> rule.bounds.min.None? && rule.bounds.max.None?)
    ensures rule.ColumnUniquePair? ==> (r.Err? <==> |rule.columns| == 0)
    ensures rule.TypeCheck? ==> (r.Err? <==> !ValidTypeConfig(rule.config))
    ensures rule.TypeCheck? && r.Err? ==> r.error.InitFailure?
    ensures rule.TypeCheck? && r.Err? ==>
              (r.error.init.TypeError? <==> TypeValidation.FirstBad(rule.config.definition).Some?)
    ensures !HasBounds(rule) && !rule.ColumnUniquePair? && !rule.TypeCheck? ==> r.Ok?
  {
    if HasBounds(rule) then
      match MinMaxArgCheck(rule.bounds.min, rule.bounds.max)
      case Err(e) => Err(BoundError(e))
      case Ok(_) => Ok(rule)
    else if rule.ColumnUniquePair? && |rule.columns| == 0 then
      Err(AssertionError("At least two columns are required."))
    else if rule.TypeCheck? && !ValidTypeConfig(rule.config) then
      match TypeValidation.FirstBad(rule.config.definition)
      case Some(k) =>
        var e := rule.config.definition[k];
        Err(InitFailure(TypeValidation.TypeError(TypeValidation.NotDTypeMessage(e.0, e.1))))
      case None => Err(InitFailure(TypeValidation.ValueError(TypeValidation.ModeMessage)))
    else Ok(rule)
  }

  /** `TypeCheck(column, column_type, frame_schema_definition)`. */
  function TypeCheckRule(column: Option<string>, columnType: Option<TypeClass>,
                         definition: Option<seq<TypeValidation.Entry>>): (r: Result<Rule, BuildError>)
    ensures r.Ok? <==> TypeValidation.InitOutcome(column, columnType, definition).Ok?
    ensures r.Ok? ==> r.value == TypeCheck(TypeValidation.InitOutcome(column, columnType, definition).value)
                      && Admit(r.value) == r
  {
    match TypeValidation.InitOutcome(column, columnType, definition)
    case Err(e) => Err(InitFailure(e))
    case Ok(c) => Ok(TypeCheck(c))
  }

  /** The sum rules, whose target id is built from a list of columns. */
  predicate IsSumRule(rule: Rule)
  {
    || rule.ColumnsSumToBeEqualTo? || rule.ColumnsSumToBeBetween?
    || rule.ColumnsSumToBeLessEqualTo? || rule.ColumnsSumToBeGreaterEqualTo?
  }

  /** The rules on one column, whose target id is that column. */
  predicate IsSingleColumn(rule: Rule)
  {
    !IsSumRule(rule) && !rule.ColumnUniquePair? && !rule.TypeCheck?
  }

  /** The class name, the first half of the record key. No class name holds
      an underscore. */
  function ClassName(rule: Rule): (r: string)
    ensures |r| > 0 && '_' !in r
  {
    match rule
    case ColumnValuesToBeBetween(_, _) => "ColumnValuesToBeBetween"
    case ColumnsSumToBeEqualTo(_, _) => "ColumnsSumToBeEqualTo"
    case ColumnsSumToBeBetween(_, _) => "ColumnsSumToBeBetween"
    case ColumnsSumToBeLessEqualTo(_, _) => "ColumnsSumToBeLessEqualTo"
    case ColumnsSumToBeGreaterEqualTo(_, _) => "ColumnsSumToBeGreaterEqualTo"
    case LengthToBeBetween(_, _) => "LengthToBeBetween"
    case LengthToBeEqualTo(_, _) => "LengthToBeEqualTo"
    case LengthToBeLessThanOrEqualTo(_, _) => "LengthToBeLessThanOrEqualTo"
    case DateToBeBetween(_, _) => "DateToBeBetween"
    case ColumnMatchDateFormat(_, _) => "ColumnMatchDateFormat"
    case ColumnUniqueValueCountToBeBetween(_, _) => "ColumnUniqueValueCountToBeBetween"
    case ColumnUniquePair(_) => "ColumnUniquePair"
    case ColumnUniqueValuesToBeInList(_, _) => "ColumnUniqueValuesToBeInList"
    case ColumnNotBeNull(_) => "ColumnNotBeNull"
    case ColumnBeNull(_) => "ColumnBeNull"
    case PairColumnEquality(_, _, _) => "PairColumnEquality"
    case TypeCheck(_) => "TypeCheck"
  }

  /** The rule's `column` attribute: the checked column, the dash-joined
      columns with "-combined" for a sum rule, the " - "-joined columns for the
      pair rule, and the configured target of a type check. */
  function TargetId(rule: Rule): (r: string)
    ensures IsSingleColumn(rule) ==> r == rule.column
    ensures IsSumRule(rule) ==> r == ValuesValidation.CombinedTarget(rule.columns)
    ensures rule.ColumnUniquePair? ==> r == UniqueValidation.PairTarget(rule.columns)
    ensures rule.TypeCheck? ==> r == rule.config.column
  {
    match rule
    case ColumnsSumToBeEqualTo(columns, _) => ValuesValidation.CombinedTarget(columns)
    case ColumnsSumToBeBetween(columns, _) => ValuesValidation.CombinedTarget(columns)
    case ColumnsSumToBeLessEqualTo(columns, _) => ValuesValidation.CombinedTarget(columns)
    case ColumnsSumToBeGreaterEqualTo(columns, _) => ValuesValidation.CombinedTarget(columns)
    case ColumnUniquePair(columns) => UniqueValidation.PairTarget(columns)
    case TypeCheck(c) => c.column
    case _ => rule.column
  }

  /** The key the session files the record under: class name, "_", target id. */
  function RecordKey(rule: Rule): (k: string)
    ensures k == ClassName(rule) + "_" + TargetId(rule)
    ensures k != SummaryKey
  {
    var k := ClassName(rule) + "_" + TargetId(rule);
    assert k[|ClassName(rule)|] == '_';
    assert '_' !in SummaryKey;
    k
  }

  /** The rule's `fail_message`: a one-column rule names its column. */
  function FailMessage(rule: Rule): (m: string)
    ensures IsSingleColumn(rule) ==> NamesColumn(m, rule.column)
  {
    match rule
    case ColumnValuesToBeBetween(c, b) => ValuesValidation.ColumnValuesToBeBetweenMessage(c, b.min, b.max)
    case ColumnsSumToBeEqualTo(cs, s) => ValuesValidation.ColumnsSumToBeEqualToMessage(cs, s)
    case ColumnsSumToBeBetween(cs, b) => ValuesValidation.ColumnsSumToBeBetweenMessage(cs, b.min, b.max)
    case ColumnsSumToBeLessEqualTo(cs, m) => ValuesValidation.ColumnsSumToBeLessEqualToMessage(cs, m)
    case ColumnsSumToBeGreaterEqualTo(cs, m) => ValuesValidation.ColumnsSumToBeGreaterEqualToMessage(cs, m)
    case LengthToBeBetween(c, b) => StringValidation.LengthToBeBetweenMessage(c, b.min, b.max)
    case LengthToBeEqualTo(c, v) => StringValidation.LengthToBeEqualToMessage(c, v)
    case LengthToBeLessThanOrEqualTo(c, m) => StringValidation.LengthToBeLessThanOrEqualToMessage(c, m)
    case DateToBeBetween(c, b) => DateValidation.DateToBeBetweenMessage(c, b.min, b.max)
    case ColumnMatchDateFormat(c, _) => DateValidation.ColumnMatchDateFormatMessage(c)
    case ColumnUniqueValueCountToBeBetween(c, b) => UniqueValidation.ColumnUniqueValueCountToBeBetweenMessage(c, b.min, b.max)
    case ColumnUniquePair(cs) => UniqueValidation.ColumnUniquePairMessage(UniqueValidation.PairTarget(cs))
    case ColumnUniqueValuesToBeInList(c, _) => UniqueValidation.ColumnUniqueValuesToBeInListMessage(c)
    case ColumnNotBeNull(c) => NullValidation.ColumnNotBeNullMessage(c)
    case ColumnBeNull(c) => NullValidation.ColumnBeNullMessage(c)
    case PairColumnEquality(c, t, _) => EqualityValidation.PairColumnEqualityMessage(c, t)
    case TypeCheck(config) => TypeValidation.ConfigFailMessage(config)
  }

  /** The rule's `__call__`: its violating groups, or the error it raises. A
      one-column rule on a column the frame lacks raises ColumnNotFoundError
      naming it; a type check never raises. */
  function Query(rule: Rule, f: Frame): (r: Result<seq<Tally<Cell>>, QueryError>)
    ensures IsSingleColumn(rule) && ColumnNamed(f, rule.column).Err? ==> r == Err(ColumnNotFound(rule.column))
    ensures rule.TypeCheck? ==> r.Ok?
  {
    match rule
    case ColumnValuesToBeBetween(c, b) => ValuesValidation.ColumnValuesToBeBetweenQuery(f, c, b)
    case ColumnsSumToBeEqualTo(cs, s) => ValuesValidation.ColumnsSumToBeEqualToQuery(f, cs, s)
    case ColumnsSumToBeBetween(cs, b) => ValuesValidation.ColumnsSumToBeBetweenQuery(f, cs, b)
    case ColumnsSumToBeLessEqualTo(cs, m) => ValuesValidation.ColumnsSumToBeLessEqualToQuery(f, cs, m)
    case ColumnsSumToBeGreaterEqualTo(cs, m) => ValuesValidation.ColumnsSumToBeGreaterEqualToQuery(f, cs, m)
    case LengthToBeBetween(c, b) => StringValidation.LengthToBeBetweenQuery(f, c, b)
    case LengthToBeEqualTo(c, v) => StringValidation.LengthToBeEqualToQuery(f, c, v)
    case LengthToBeLessThanOrEqualTo(c, m) => StringValidation.LengthToBeLessThanOrEqualToQuery(f, c, m)
    case DateToBeBetween(c, b) => DateValidation.DateToBeBetweenQuery(f, c, b)
    case ColumnMatchDateFormat(c, fmt) => DateValidation.ColumnMatchDateFormatQuery(f, c, fmt)
    case ColumnUniqueValueCountToBeBetween(c, b) => UniqueValidation.ColumnUniqueValueCountToBeBetweenQuery(f, c, b)
    case ColumnUniquePair(cs) => UniqueValidation.ColumnUniquePairQuery(f, cs)
    case ColumnUniqueValuesToBeInList(c, vs) => UniqueValidation.ColumnUniqueValuesToBeInListQuery(f, c, vs)
    case ColumnNotBeNull(c) => NullValidation.ColumnNotBeNullQuery(f, c)
    case ColumnBeNull(c) => NullValidation.ColumnBeNullQuery(f, c)
    case PairColumnEquality(c, t, combined) => EqualityValidation.PairColumnEqualityQuery(f, c, t, combined)
    case TypeCheck(config) => TypeValidation.TypeCheckQuery(config.definition, f)
  }

  /** The failing share is over the rows, or over the schema for a type check. */
  function Denominator(rule: Rule, f: Frame): (n: nat)
    ensures rule.TypeCheck? ==> n == TypeValidation.TypeCheckDenominator(f)
    ensures !rule.TypeCheck? ==> n == f.height
  {
    if rule.TypeCheck? then TypeValidation.TypeCheckDenominator(f) else f.height
  }

  /** `__execute_check__` of one rule on one frame. */
  function Run(rule: Rule, settings: Settings, f: Frame, timestamp: string): (r: ValidationRecord)
    ensures r.validation == ClassName(rule) && r.column == TargetId(rule)
    ensures r.impact == Lower(settings.impact) && r.timestamp == timestamp
    ensures Query(rule, f).Err? ==> r.result.status == Fail
    ensures Query(rule, f).Ok? ==>
              (r.result.status == Fail <==> Decide(Total(Query(rule, f).value), Denominator(rule, f), settings.threshold) == Fail)
    ensures r.result.status == Fail && Query(rule, f).Ok? ==> r.result.message == FailMessage(rule)
  {
    Execute(ClassName(rule), TargetId(rule), settings, FailMessage(rule), Query(rule, f), Denominator(rule, f), timestamp)
  }

  /** Two records share a key exactly when their rules share the class name
      and the target id, so a rerun replaces its own record and no other. */
  lemma RecordKeyInjective(r1: Rule, r2: Rule)
    ensures RecordKey(r1) == RecordKey(r2) <==> ClassName(r1) == ClassName(r2) && TargetId(r1) == TargetId(r2)
  {
    KeySplit(ClassName(r1), TargetId(r1), ClassName(r2), TargetId(r2));
  }

  /** The first underscore of `c + "_" + t` tells `c` and `t` apart when `c` has none. */
  lemma KeySplit(c1: string, t1: string, c2: string, t2: string)
    requires '_' !in c1 && '_' !in c2
    ensures c1 + "_" + t1 == c2 + "_" + t2 <==> c1 == c2 && t1 == t2
  {
    var k1, k2 := c1 + "_" + t1, c2 + "_" + t2;
    if k1 == k2 {
      if |c1| < |c2| {
        KeyChars(c1, t1);
        KeyChars(c2, t2);
        assert false;
      } else if |c2| < |c1| {
        KeyChars(c1, t1);
        KeyChars(c2, t2);
        assert false;
      }
      assert c1 == k1[..|c1|] && c2 == k2[..|c2|];
      assert t1 == k1[|c1| + 1..] && t2 == k2[|c2| + 1..];
    }
  }

  /** The key holds the class name, then the underscore. */
  lemma KeyChars(c: string, t: string)
    ensures |c| < |c + "_" + t| && (c + "_" + t)[|c|] == '_'
    ensures forall i :: 0 <= i < |c| ==> (c + "_" + t)[i] == c[i]
  {
  }

  /** A one-column rule on a column the frame lacks fails its check, with the
      ColumnNotFoundError text as its message, whatever its threshold. */
  lemma MissingColumnFails(rule: Rule, settings: Settings, f: Frame, timestamp: string)
    requires IsSingleColumn(rule) && ColumnNamed(f, rule.column).Err?
    ensures Run(rule, settings, f, timestamp).result.status == Fail
    ensures Run(rule, settings, f, timestamp).result.message == "ColumnNotFoundError: " + rule.column
  {
    QueryErrorFails(rule, settings, f, timestamp);
  }

  /** The fail message of a sum rule lists its columns, that of the pair rule
      shows its target id, and that of a type check is the configuration's. */
  lemma FailMessageNamesTarget(rule: Rule)
    ensures IsSumRule(rule) ==> "The columns " + PyStrList(rule.columns) <= FailMessage(rule)
    ensures rule.ColumnUniquePair? ==>
              "Duplicate entries found: The combination of columns [" + TargetId(rule) + "]" <= FailMessage(rule)
    ensures rule.TypeCheck? ==> FailMessage(rule) == TypeValidation.ConfigFailMessage(rule.config)
  {
  }

  /** A rule whose query finds nothing always passes, whatever its threshold. */
  lemma NoViolationsPass(rule: Rule, settings: Settings, f: Frame, timestamp: string)
    requires Query(rule, f).Ok? && Total(Query(rule, f).value) == 0
    ensures Run(rule, settings, f, timestamp).result.status == Success
  {
  }

  /** A rule whose query raises fails, whatever its threshold and impact. */
  lemma QueryErrorFails(rule: Rule, settings: Settings, f: Frame, timestamp: string)
    requires Query(rule, f).Err?
    ensures Run(rule, settings, f, timestamp).result.status == Fail
    ensures Run(rule, settings, f, timestamp).result.message == QueryErrorText(Query(rule, f).error)
  {
  }
}
