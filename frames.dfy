/** An abstract dataframe: named columns of equal height whose cells are
    integers, strings, dates (as day ordinals) or null. This stands for the
    uniform frame interface the rules are written against. */
module Frames {
  import opened Common
  import opened DTypes

  datatype Value = IntV(i: int) | StrV(s: string) | DateV(day: int)

  /** A cell: `None` is null. */
  type Cell = Option<Value>

  datatype Column = Column(name: string, dtype: TypeClass, cells: seq<Cell>)

  datatype RawFrame = Frame(columns: seq<Column>, height: nat)

  /** A frame: every column holds one cell per row. */
  type Frame = f: RawFrame | forall j :: 0 <= j < |f.columns| ==> |f.columns[j].cells| == f.height
    witness Frame([], 0)

  /** Errors the frame backend raises while a rule's pipeline runs. */
  datatype QueryError = ColumnNotFound(name: string) | InvalidOperation(reason: string)

  function QueryErrorText(e: QueryError): string
  {
    match e
    case ColumnNotFound(n) => "ColumnNotFoundError: " + n
    case InvalidOperation(r) => "InvalidOperationError: " + r
  }

  /** `frame[name]`: the first column called `name`. */
  function ColumnNamed(f: Frame, name: string): (r: Result<Column, QueryError>)
    ensures r.Ok? ==> r.value in f.columns && r.value.name == name && |r.value.cells| == f.height
    ensures r.Err? <==> forall j :: 0 <= j < |f.columns| ==> f.columns[j].name != name
    ensures r.Err? ==> r.error == ColumnNotFound(name)
  {
    FindColumn(f.columns, name)
  }

  function FindColumn(cs: seq<Column>, name: string): (r: Result<Column, QueryError>)
    ensures r.Ok? ==> r.value in cs && r.value.name == name
    ensures r.Err? <==> forall j :: 0 <= j < |cs| ==> cs[j].name != name
    ensures r.Err? ==> r.error == ColumnNotFound(name)
  {
    if |cs| == 0 then Err(ColumnNotFound(name))
    else if cs[0].name == name then Ok(cs[0])
    else
      var r := FindColumn(cs[1..], name);
      assert forall j :: 1 <= j < |cs| ==> cs[j] == cs[1..][j - 1];
      r
  }

  /** `frame.select(names)`: the named columns in the order given. */
  function Select(f: Frame, names: seq<string>): (r: Result<seq<Column>, QueryError>)
    ensures r.Ok? ==> |r.value| == |names|
    ensures r.Ok? ==> forall j :: 0 <= j < |names| ==> r.value[j] in f.columns && r.value[j].name == names[j]
    ensures r.Ok? ==> forall j :: 0 <= j < |names| ==> |r.value[j].cells| == f.height
    ensures r.Ok? <==> forall j :: 0 <= j < |names| ==> ColumnNamed(f, names[j]).Ok?
  {
    if |names| == 0 then Ok([])
    else
      match ColumnNamed(f, names[0])
      case Err(e) => Err(e)
      case Ok(c) =>
        match Select(f, names[1..])
        case Err(e) => Err(e)
        case Ok(rest) => Ok([c] + rest)
  }

  /** Row `i` of the given columns. */
  function RowOf(cols: seq<Column>, i: nat): (r: seq<Cell>)
    requires forall j :: 0 <= j < |cols| ==> i < |cols[j].cells|
    ensures |r| == |cols|
    ensures forall j :: 0 <= j < |cols| ==> r[j] == cols[j].cells[i]
  {
    seq(|cols|, j requires 0 <= j < |cols| => cols[j].cells[i])
  }

  /** All rows of the given columns, each as the list of its cells. */
  function Rows(cols: seq<Column>, height: nat): (r: seq<seq<Cell>>)
    requires forall j :: 0 <= j < |cols| ==> |cols[j].cells| == height
    ensures |r| == height
    ensures forall i :: 0 <= i < height ==> r[i] == RowOf(cols, i)
  {
    seq(height, i requires 0 <= i < height => RowOf(cols, i))
  }

  /** How a value is written when a column is cast to text. */
  function Render(v: Value): string
  {
    match v
    case IntV(i) => IntToString(i)
    case StrV(s) => s
    case DateV(d) => IntToString(d)
  }

  function RenderAll(vs: seq<Cell>): (r: seq<string>)
    requires forall j :: 0 <= j < |vs| ==> vs[j].Some?
    ensures |r| == |vs|
    ensures forall j :: 0 <= j < |vs| ==> r[j] == Render(vs[j].value)
  {
    seq(|vs|, j requires 0 <= j < |vs| => Render(vs[j].value))
  }

  /** `nw.concat_str(cells, separator=sep)`: null as soon as one part is null,
      otherwise the parts rendered as text and joined. */
  function ConcatStr(cells: seq<Cell>, sep: string): (r: Cell)
    ensures r.None? <==> exists j :: 0 <= j < |cells| && cells[j].None?
    ensures r.Some? ==> r.value.StrV?
  {
    if exists j :: 0 <= j < |cells| && cells[j].None? then None
    else Some(StrV(Join(RenderAll(cells), sep)))
  }

  /** The numeric view of a value, for comparisons and sums. */
  function AsNumber(v: Value): Option<real>
  {
    if v.IntV? then Some(v.i as real) else None
  }

  /** True when every non-null cell passes `ok`: the backend raises otherwise. */
  predicate NonNullAll(cells: seq<Cell>, ok: Value -> bool)
  {
    forall j :: 0 <= j < |cells| && cells[j].Some? ==> ok(cells[j].value)
  }

  /** The cells of column `name`, provided every non-null one passes `ok`;
      a column that does not is a type error of the operation applied to it. */
  function ColumnCells(f: Frame, name: string, ok: Value -> bool, err: QueryError): (r: Result<seq<Cell>, QueryError>)
    ensures r.Ok? <==> ColumnNamed(f, name).Ok? && NonNullAll(ColumnNamed(f, name).value.cells, ok)
    ensures r.Ok? ==> r.value == ColumnNamed(f, name).value.cells && |r.value| == f.height
    ensures ColumnNamed(f, name).Err? ==> r == Err(ColumnNotFound(name))
    ensures ColumnNamed(f, name).Ok? && r.Err? ==> r.error == err
  {
    match ColumnNamed(f, name)
    case Err(e) => Err(e)
    case Ok(c) => if NonNullAll(c.cells, ok) then Ok(c.cells) else Err(err)
  }
}
