/** The TypeValidation rule: declared dtypes against a frame's schema. The
    constructor picks a single-column or a whole-schema mode and checks every
    declared type; a call walks the declaration and lists the failing columns. */
module TypeValidation {
  import opened Common
  import opened Frames
  import opened Grouping
  import opened DTypes

  /** One declared column and the class it must be an instance of. */
  type Entry = (string, TypeClass)

  /** The two exceptions the constructor raises. */
  datatype InitError = TypeError(message: string) | ValueError(message: string)

  /** The target id of the whole-schema mode. */
  const SchemaTarget: string := "DataTypeColumnValidation"

  /** The ValueError's argument is a one-element tuple (a trailing comma in the
      source), so its text is the tuple's repr. */
  const ModeMessage: string :=
    "('Either `column` and `validation_type` should be provided or `frame_schema_definition` should be provided.',)"

  function NotDTypeMessage(column: string, t: TypeClass): string
  {
    "Validation type must be a subclass of DType, column: " + column + ", type: " + Name(t) + "."
  }

  /** Python truthiness of an optional string: None and "" are false. */
  predicate Truthy(s: Option<string>)
  {
    s.Some? && s.value != ""
  }

  /** Python truthiness of an optional dict: None and {} are false. */
  predicate NonEmpty(d: Option<seq<Entry>>)
  {
    d.Some? && |d.value| > 0
  }

  /** The index of the first declared type outside the DType hierarchy. */
  function FirstBad(definition: seq<Entry>): (r: Option<nat>)
    ensures r.None? <==> forall k :: 0 <= k < |definition| ==> IsSubclass(definition[k].1, DType)
    ensures r.Some? ==> && r.value < |definition| && !IsSubclass(definition[r.value].1, DType)
                        && forall k :: 0 <= k < r.value ==> IsSubclass(definition[k].1, DType)
  {
    if |definition| == 0 then None
    else if !IsSubclass(definition[0].1, DType) then Some(0)
    else match FirstBad(definition[1..])
      case None => None
      case Some(k) => Some(k + 1)
  }

  /** The `for` loop of the whole-schema mode: stop at the first bad entry. */
  method CheckDefinition(definition: seq<Entry>) returns (bad: Option<nat>)
    ensures bad == FirstBad(definition)
  {
    var i := 0;
    while i < |definition|
      invariant 0 <= i <= |definition|
      invariant forall k :: 0 <= k < i ==> IsSubclass(definition[k].1, DType)
    {
      if !IsSubclass(definition[i].1, DType) {
        return Some(i);
      }
      i := i + 1;
    }
    bad := None;
  }

  /** The fields the constructor sets. */
  datatype Config = Config(definition: seq<Entry>, column: string, columnType: Option<TypeClass>)

  /** `TypeCheck.__init__`: a truthy column with a type selects the single-column
      mode; no column, no type and a non-empty declaration select the
      whole-schema mode; anything else raises ValueError. A declared type
      outside the hierarchy raises TypeError. */
  function InitOutcome(column: Option<string>, columnType: Option<TypeClass>, definition: Option<seq<Entry>>): (r: Result<Config, InitError>)
    ensures r.Ok? ==> |r.value.definition| > 0
    ensures r.Ok? ==> forall k :: 0 <= k < |r.value.definition| ==> IsSubclass(r.value.definition[k].1, DType)
    ensures r.Ok? ==> r.value.column == SchemaTarget || r.value.columnType.Some?
    ensures Truthy(column) && columnType.Some? ==>
              (r.Ok? <==> IsSubclass(columnType.value, DType))
              && (r.Ok? ==> r.value == Config([(column.value, columnType.value)], column.value, columnType))
    ensures !Truthy(column) && columnType.None? && NonEmpty(definition) ==>
              (r.Ok? <==> forall k :: 0 <= k < |definition.value| ==> IsSubclass(definition.value[k].1, DType))
              && (r.Ok? ==> r.value == Config(definition.value, SchemaTarget, None))
    ensures (r.Err? && r.error.ValueError?) <==>
              !(Truthy(column) && columnType.Some?) && !(!Truthy(column) && columnType.None? && NonEmpty(definition))
    ensures r.Err? && r.error.ValueError? ==> r.error.message == ModeMessage
  {
    if Truthy(column) && columnType.Some? then
      if IsSubclass(columnType.value, DType)
      then Ok(Config([(column.value, columnType.value)], column.value, columnType))
      else Err(TypeError(NotDTypeMessage(column.value, columnType.value)))
    else if !Truthy(column) && columnType.None? && NonEmpty(definition) then
      match FirstBad(definition.value)
      case Some(k) => Err(TypeError(NotDTypeMessage(definition.value[k].0, definition.value[k].1)))
      case None => Ok(Config(definition.value, SchemaTarget, None))
    else Err(ValueError(ModeMessage))
  }

  /** A declared column fails when the schema lacks it or its dtype is not an
      instance of the declared class. */
  predicate EntryFails(e: Entry, f: Frame)
  {
    ColumnNamed(f, e.0).Err? || !IsSubclass(ColumnNamed(f, e.0).value.dtype, e.1)
  }

  /** The failing columns in declaration order. */
  function TypeFailures(definition: seq<Entry>, f: Frame): (r: seq<string>)
    ensures |r| <= |definition|
  {
    if |definition| == 0 then []
    else (if EntryFails(definition[0], f) then [definition[0].0] else []) + TypeFailures(definition[1..], f)
  }

  /** A name is listed exactly when one of its declarations fails. */
  lemma {:induction false} TypeFailuresMembers(definition: seq<Entry>, f: Frame)
    ensures forall x :: x in TypeFailures(definition, f) <==>
              exists k :: 0 <= k < |definition| && definition[k].0 == x && EntryFails(definition[k], f)
  {
    if |definition| > 0 {
      TypeFailuresMembers(definition[1..], f);
      assert forall k :: 1 <= k < |definition| ==> definition[k] == definition[1..][k - 1];
      forall x | exists k :: 0 <= k < |definition| && definition[k].0 == x && EntryFails(definition[k], f)
        ensures x in TypeFailures(definition, f)
      {
        var k :| 0 <= k < |definition| && definition[k].0 == x && EntryFails(definition[k], f);
        if k > 0 {
          assert definition[1..][k - 1] == definition[k];
        }
      }
    }
  }

  lemma {:induction false} TypeFailuresStep(definition: seq<Entry>, f: Frame, i: nat)
    requires i < |definition|
    ensures TypeFailures(definition[i..], f)
            == (if EntryFails(definition[i], f) then [definition[i].0] else []) + TypeFailures(definition[i + 1..], f)
  {
    assert definition[i..][1..] == definition[i + 1..];
  }

  /** Moving the next part of the remainder onto the accumulated prefix. */
  lemma ShiftPart<X>(done: seq<X>, part: seq<X>, rest: seq<X>, tail: seq<X>, whole: seq<X>)
    requires done + tail == whole && tail == part + rest
    ensures (done + part) + rest == whole
  {
    assert done + (part + rest) == (done + part) + rest;
  }

  /** `TypeCheck`: the configured rule and the schema width its last call saw. */
  class TypeCheck {
    var definition: seq<Entry>
    var column: string
    var columnType: Option<TypeClass>
    var schemaLength: Option<nat>

    ghost predicate Valid()
      reads this
    {
      && |definition| > 0
      && (forall k :: 0 <= k < |definition| ==> IsSubclass(definition[k].1, DType))
      && (column == SchemaTarget || columnType.Some?)
    }

    constructor (c: Config)
      requires |c.definition| > 0
      requires forall k :: 0 <= k < |c.definition| ==> IsSubclass(c.definition[k].1, DType)
      requires c.column == SchemaTarget || c.columnType.Some?
      ensures Valid()
      ensures definition == c.definition && column == c.column && columnType == c.columnType
      ensures schemaLength.None?
    {
      definition := c.definition;
      column := c.column;
      columnType := c.columnType;
      schemaLength := None;
    }

    /** The configuration the fields hold: under the constructor's guarantees a
        non-empty declaration of DType subclasses, in schema mode or with a type. */
    function Settings(): (c: Config)
      reads this
      ensures c.definition == definition && c.column == column && c.columnType == columnType
      ensures Valid() ==> |c.definition| > 0 && (c.column == SchemaTarget || c.columnType.Some?)
      ensures Valid() ==> forall k :: 0 <= k < |c.definition| ==> IsSubclass(c.definition[k].1, DType)
    {
      Config(definition, column, columnType)
    }

    /** `TypeCheck.__call__`: records the schema width and lists the failing
        columns, in declaration order. */
    method Call(f: Frame) returns (failed: seq<string>)
      requires Valid()
      modifies this
      ensures Valid()
      ensures definition == old(definition) && column == old(column) && columnType == old(columnType)
      ensures schemaLength == Some(|f.columns|)
      ensures failed == TypeFailures(definition, f)
    {
      schemaLength := Some(|f.columns|);
      failed := FailingColumns(definition, f);
    }
  }

  /** The `for` loop of `__call__`, appending each failing column. */
  method FailingColumns(definition: seq<Entry>, f: Frame) returns (failed: seq<string>)
    ensures failed == TypeFailures(definition, f)
  {
    failed := [];
    var i := 0;
    while i < |definition|
      invariant 0 <= i <= |definition|
      invariant failed + TypeFailures(definition[i..], f) == TypeFailures(definition, f)
    {
      var here := if EntryFails(definition[i], f) then [definition[i].0] else [];
      TypeFailuresStep(definition, f, i);
      ShiftPart(failed, here, TypeFailures(definition[i + 1..], f), TypeFailures(definition[i..], f), TypeFailures(definition, f));
      failed := failed + here;
      i := i + 1;
    }
  }

  /** The constructor: the mode and type checks of `InitOutcome`, with the
      declaration checked by its loop. */
  method NewTypeCheck(column: Option<string>, columnType: Option<TypeClass>, definition: Option<seq<Entry>>)
    returns (r: Result<TypeCheck, InitError>)
    ensures r.Err? <==> InitOutcome(column, columnType, definition).Err?
    ensures r.Err? ==> r.error == InitOutcome(column, columnType, definition).error
    ensures r.Ok? ==> var c := InitOutcome(column, columnType, definition).value;
                      && fresh(r.value) && r.value.Valid() && r.value.schemaLength.None?
                      && r.value.definition == c.definition && r.value.column == c.column
                      && r.value.columnType == c.columnType
  {
    if Truthy(column) && columnType.Some? {
      if !IsSubclass(columnType.value, DType) {
        return Err(TypeError(NotDTypeMessage(column.value, columnType.value)));
      }
      var t := new TypeCheck(Config([(column.value, columnType.value)], column.value, columnType));
      return Ok(t);
    } else if !Truthy(column) && columnType.None? && NonEmpty(definition) {
      var bad := CheckDefinition(definition.value);
      if bad.Some? {
        var e := definition.value[bad.value];
        return Err(TypeError(NotDTypeMessage(e.0, e.1)));
      }
      var t := new TypeCheck(Config(definition.value, SchemaTarget, None));
      return Ok(t);
    }
    return Err(ValueError(ModeMessage));
  }

  const SchemaFailMessage: string :=
    "The data type of the column(s) is not correct. Please check `column_type_definitions`."

  function ColumnFailMessage(column: string, t: TypeClass): (m: string)
    ensures NamesColumn(m, column)
  {
    "The column '" + column + "'" + " has failed the Validation, expected type: " + Name(t) + "."
  }

  /** `fail_message`: the schema text when the target id is the schema id,
      otherwise the column and its expected class. A configuration with neither
      cannot come out of the constructor; it gets the schema text. */
  function ConfigFailMessage(c: Config): (m: string)
    ensures c.column == SchemaTarget ==> m == SchemaFailMessage
    ensures c.column != SchemaTarget && c.columnType.Some? ==> m == ColumnFailMessage(c.column, c.columnType.value)
  {
    if c.column == SchemaTarget || c.columnType.None? then SchemaFailMessage
    else ColumnFailMessage(c.column, c.columnType.value)
  }

  /** The frame `__call__` returns: one row per failing column, with a count of 1. */
  function FailureTallies(names: seq<string>): (r: seq<Tally<Cell>>)
    ensures |r| == |names|
    ensures forall i :: 0 <= i < |names| ==> r[i] == Tally(Some(StrV(names[i])), 1)
    ensures Total(r) == |names|
  {
    if |names| == 0 then [] else [Tally(Some(StrV(names[0])), 1)] + FailureTallies(names[1..])
  }

  /** The query the shared step runs; the schema check cannot raise. */
  function TypeCheckQuery(definition: seq<Entry>, f: Frame): (r: Result<seq<Tally<Cell>>, QueryError>)
    ensures r.Ok?
    ensures Total(r.value) == |TypeFailures(definition, f)|
    ensures forall x :: Some(StrV(x)) in Keys(r.value) <==>
              exists k :: 0 <= k < |definition| && definition[k].0 == x && EntryFails(definition[k], f)
  {
    var names := TypeFailures(definition, f);
    var r := FailureTallies(names);
    TypeFailuresMembers(definition, f);
    forall x ensures Some(StrV(x)) in Keys(r) <==> x in names {
      if Some(StrV(x)) in Keys(r) {
        var i :| 0 <= i < |r| && Keys(r)[i] == Some(StrV(x));
        assert names[i] == x;
      }
      if x in names {
        var i :| 0 <= i < |names| && names[i] == x;
        assert Keys(r)[i] == Some(StrV(x));
      }
    }
    Ok(r)
  }

  /** The failure share of a schema check is taken over the schema width. */
  function TypeCheckDenominator(f: Frame): nat
  {
    |f.columns|
  }

  /** A declared column the schema lacks always fails. */
  lemma MissingColumnFails(definition: seq<Entry>, f: Frame, k: nat)
    requires k < |definition| && ColumnNamed(f, definition[k].0).Err?
    ensures definition[k].0 in TypeFailures(definition, f)
  {
    TypeFailuresMembers(definition, f);
    assert EntryFails(definition[k], f);
  }

  /** A column passes exactly when every declaration of its name is met by its dtype. */
  lemma PresentColumnFailsIff(definition: seq<Entry>, f: Frame, x: string)
    requires ColumnNamed(f, x).Ok?
    ensures x in TypeFailures(definition, f) <==>
              exists k :: 0 <= k < |definition| && definition[k].0 == x && !IsSubclass(ColumnNamed(f, x).value.dtype, definition[k].1)
  {
    TypeFailuresMembers(definition, f);
  }
}
