/** An abstract picture of the dataframe library's dtype class hierarchy, enough
    for `issubclass` checks: a few abstract classes, a few concrete leaves, and
    classes from outside the hierarchy (Python's own `int`, `str`, ...). */
module DTypes {
  import opened Common

  datatype TypeClass =
    | DType
    | NumericType | IntegerType | SignedIntegerType | UnsignedIntegerType | FloatType
    | TemporalType | NestedType
    | Int64 | Int32 | UInt64 | UInt32 | Float64 | Float32
    | String | Boolean | Categorical | Object
    | Date | Datetime | Duration | List | Struct
    | Foreign(name: string)

  /** The direct base class inside the hierarchy, if any. */
  function Parent(c: TypeClass): Option<TypeClass>
  {
    match c
    case DType => None
    case Foreign(_) => None
    case NumericType | TemporalType | NestedType => Some(DType)
    case String | Boolean | Categorical | Object => Some(DType)
    case IntegerType | FloatType => Some(NumericType)
    case SignedIntegerType | UnsignedIntegerType => Some(IntegerType)
    case Int64 | Int32 => Some(SignedIntegerType)
    case UInt64 | UInt32 => Some(UnsignedIntegerType)
    case Float64 | Float32 => Some(FloatType)
    case Date | Datetime | Duration => Some(TemporalType)
    case List | Struct => Some(NestedType)
  }

  function Depth(c: TypeClass): nat
  {
    match c
    case DType | Foreign(_) => 0
    case NumericType | TemporalType | NestedType | String | Boolean | Categorical | Object => 1
    case IntegerType | FloatType | Date | Datetime | Duration | List | Struct => 2
    case SignedIntegerType | UnsignedIntegerType | Float64 | Float32 => 3
    case Int64 | Int32 | UInt64 | UInt32 => 4
  }

  lemma ParentIsShallower(c: TypeClass)
    ensures Parent(c).Some? ==> Depth(Parent(c).value) + 1 == Depth(c)
  {
  }

  /** `issubclass(a, b)`: `b` is `a` or one of its ancestors. */
  predicate IsSubclass(a: TypeClass, b: TypeClass)
    decreases Depth(a)
  {
    a == b || (Parent(a).Some? && (ParentIsShallower(a); IsSubclass(Parent(a).value, b)))
  }

  /** The class's `__name__`. */
  function Name(c: TypeClass): string
  {
    match c
    case DType => "DType"
    case NumericType => "NumericType"
    case IntegerType => "IntegerType"
    case SignedIntegerType => "SignedIntegerType"
    case UnsignedIntegerType => "UnsignedIntegerType"
    case FloatType => "FloatType"
    case TemporalType => "TemporalType"
    case NestedType => "NestedType"
    case Int64 => "Int64"
    case Int32 => "Int32"
    case UInt64 => "UInt64"
    case UInt32 => "UInt32"
    case Float64 => "Float64"
    case Float32 => "Float32"
    case String => "String"
    case Boolean => "Boolean"
    case Categorical => "Categorical"
    case Object => "Object"
    case Date => "Date"
    case Datetime => "Datetime"
    case Duration => "Duration"
    case List => "List"
    case Struct => "Struct"
    case Foreign(name) => name
  }

  /** The classes a column's dtype can be an instance of. */
  predicate IsConcrete(c: TypeClass)
  {
    c in {Int64, Int32, UInt64, UInt32, Float64, Float32, String, Boolean, Categorical,
          Object, Date, Datetime, Duration, List, Struct}
  }

  lemma {:induction false} SubclassTransitive(a: TypeClass, b: TypeClass, c: TypeClass)
    requires IsSubclass(a, b) && IsSubclass(b, c)
    ensures IsSubclass(a, c)
    decreases Depth(a)
  {
    if a != b {
      ParentIsShallower(a);
      SubclassTransitive(Parent(a).value, b, c);
    }
  }

  /** Every class of the hierarchy is a `DType`; nothing from outside is. */
  lemma {:induction false} DTypeIsRoot(c: TypeClass)
    ensures IsSubclass(c, DType) <==> !c.Foreign?
    decreases Depth(c)
  {
    if Parent(c).Some? {
      ParentIsShallower(c);
      DTypeIsRoot(Parent(c).value);
    }
  }

  /** A concrete dtype is never a subclass of a different concrete dtype. */
  lemma {:induction false} ConcreteLeaves(a: TypeClass, b: TypeClass)
    requires IsConcrete(a) && IsConcrete(b) && a != b
    ensures !IsSubclass(a, b)
    decreases Depth(a)
  {
    if Parent(a).Some? {
      ParentIsShallower(a);
      AncestorsAbstract(Parent(a).value, b);
    }
  }

  lemma {:induction false} AncestorsAbstract(a: TypeClass, b: TypeClass)
    requires !IsConcrete(a) && IsConcrete(b)
    ensures !IsSubclass(a, b)
    decreases Depth(a)
  {
    if Parent(a).Some? {
      ParentIsShallower(a);
      AncestorsAbstract(Parent(a).value, b);
    }
  }
}
