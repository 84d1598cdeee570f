/** The static type lattice of the checker (the classes at the top of
    ScopeTable.py). Scalar types may carry the constant value known at
    check time; vector and matrix types carry their element types when
    they were built from a literal, and their dimensions. */
module Types {
  import opened Base

  /** The `value` attribute of a VectorType or MatrixType: Python None,
      a list of element (or row) types, or the UnknownType object that
      the negation visitor writes into it. */
  datatype Payload = NoValue | Items(items: seq<Type>) | Clobbered

  datatype Type =
    | IntType(ival: Option<int>)
    | FloatType(fval: Option<real>)
    | StringType(sval: Option<string>)
    | VectorType(elems: Payload, size: Option<nat>)
    | MatrixType(rows: Payload, width: Option<nat>, height: Option<nat>)
    | UnknownType
    | VoidType

  /** `VectorType(value, size)`: a given element list fixes the size. */
  function NewVectorType(value: Option<seq<Type>>, size: Option<nat>): (t: Type)
    ensures t.VectorType?
    ensures value.Some? ==> t.elems == Items(value.value) && t.size == Some(|value.value|)
    ensures value.None? ==> t.elems == NoValue && t.size == size
  {
    match value
    case Some(vs) => VectorType(Items(vs), Some(|vs|))
    case None => VectorType(NoValue, size)
  }

  /** `MatrixType(value, width, height)`: a given row list fixes the height
      to the number of rows and the width to the size of the first row. */
  function NewMatrixType(value: Option<seq<Type>>, width: Option<nat>, height: Option<nat>): (t: Type)
    requires value.Some? ==> |value.value| > 0 && value.value[0].VectorType?
    ensures t.MatrixType?
    ensures value.Some? ==>
      t.rows == Items(value.value) && t.height == Some(|value.value|) && t.width == value.value[0].size
    ensures value.None? ==> t.rows == NoValue && t.width == width && t.height == height
  {
    match value
    case Some(rs) => MatrixType(Items(rs), rs[0].size, Some(|rs|))
    case None => MatrixType(NoValue, width, height)
  }

  /** `VectorType()`: the size defaults to 0, not to None. */
  const DefaultVector: Type := NewVectorType(None, Some(0))

  /** `MatrixType()`: width and height default to 0, not to None. */
  const DefaultMatrix: Type := NewMatrixType(None, Some(0), Some(0))

  /** The `value` attribute of a type, as far as the index checks look at it. */
  datatype Scalar = SInt(i: int) | SFloat(r: real) | SNone | SOther | SMissing

  function ValueOf(t: Type): (s: Scalar)
    ensures s.SInt? <==> t.IntType? && t.ival.Some?
    ensures s.SMissing? <==> t.VoidType?
  {
    match t
    case IntType(v) => if v.Some? then SInt(v.value) else SNone
    case FloatType(v) => if v.Some? then SFloat(v.value) else SNone
    case StringType(v) => if v.Some? then SOther else SNone
    case VectorType(p, _) => if p.NoValue? then SNone else SOther
    case MatrixType(p, _, _) => if p.NoValue? then SNone else SOther
    case UnknownType => SNone
    case VoidType => SMissing
  }

  /** The constant value of an Int or Float type as a number, if known. */
  function NumValue(t: Type): (r: Option<real>)
    ensures r.Some? ==> t.IntType? || t.FloatType?
    ensures t.IntType? ==> r == (if t.ival.Some? then Some(t.ival.value as real) else None)
    ensures t.FloatType? ==> r == t.fval
  {
    match t
    case IntType(v) => if v.Some? then Some(v.value as real) else None
    case FloatType(v) => v
    case _ => None
  }

  predicate IsNumeric(t: Type) { t.IntType? || t.FloatType? }
}
