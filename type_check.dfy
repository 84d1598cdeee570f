/** The visitor rules of TypeChecker.py as pure functions of the scope
    stack: the specification the TypeChecker object's methods are proved
    against. Diagnostics are returned as a log of kinds, in print order. */
module TypeCheck {
  import opened Base
  import opened Types
  import opened Ast
  import opened TypeRules
  import opened Scopes

  /** Types of a list of expressions and what visiting them printed. */
  datatype TypesLog = TypesLog(ts: seq<Type>, log: seq<Diag>)

  /** The state a statement visit leaves behind. */
  datatype Checking = Checking(env: Env<Type>, log: seq<Diag>)

  /** visit_ConstValueNode */
  function LiteralType(lit: Literal): (t: Type)
    ensures lit.IntLit? <==> t.IntType?
    ensures lit.FloatLit? <==> t.FloatType?
    ensures lit.StringLit? <==> t.StringType?
    ensures lit.IntLit? ==> t.ival == Some(lit.i)
    ensures lit.FloatLit? ==> t.fval == Some(lit.r)
    ensures lit.StringLit? ==> t.sval == Some(lit.s)
  {
    match lit
    case IntLit(i) => IntType(Some(i))
    case FloatLit(r) => FloatType(Some(r))
    case StringLit(s) => StringType(Some(s))
  }

  /** visit_IdNode: the innermost binding, or a report and Unknown. */
  function IdType(env: Env<Type>, name: string): (r: Typed)
    requires Wf(env)
    ensures Lookup(env, name).Some? ==> r == Typed(Lookup(env, name).value, [])
    ensures Lookup(env, name).None? ==> r == Typed(UnknownType, [NotInitialized])
  {
    match Lookup(env, name)
    case Some(t) => Typed(t, [])
    case None => Typed(UnknownType, [NotInitialized])
  }

  /** visit_TranspositionNode: the dimensions are swapped, the row list dropped. */
  function TranspositionType(t: Type): (r: Typed)
    ensures t.MatrixType? ==>
              && r.log == [] && r.ty.MatrixType? && r.ty.rows.NoValue?
              && r.ty.width == t.height && r.ty.height == t.width
    ensures !t.MatrixType? ==> r.ty.UnknownType? && (r.log == [] <==> t.UnknownType?)
  {
    if t.UnknownType? then Typed(UnknownType, [])
    else if t.MatrixType? then Typed(NewMatrixType(None, t.height, t.width), [])
    else Typed(UnknownType, [TransposeNotMatrix])
  }

  function NegateInt(v: Option<int>): Option<int>
  {
    if v.Some? then Some(-v.value) else None
  }

  function NegateReal(v: Option<real>): Option<real>
  {
    if v.Some? then Some(-v.value) else None
  }

  /** visit_NegationNode, as evidently intended (see NegationAsWritten):
      a known value is negated, an unknown one stays unknown; any type
      other than a scalar gets the UnknownType object as its `value`. */
  function NegationType(t: Type): (r: Typed)
    ensures (t.IntType? || t.FloatType?) ==>
              && r.log == [] && r.ty.IntType? == t.IntType? && r.ty.FloatType? == t.FloatType?
              && NumValue(r.ty) == (if NumValue(t).Some? then Some(-NumValue(t).value) else None)
    ensures t.StringType? ==> r == Typed(UnknownType, [NegateString])
    ensures t.VectorType? ==> r.log == [] && r.ty.VectorType? && r.ty.size == t.size
    ensures t.MatrixType? ==> r.log == [] && r.ty.MatrixType? && r.ty.width == t.width && r.ty.height == t.height
  {
    match t
    case IntType(v) => Typed(IntType(NegateInt(v)), [])
    case FloatType(v) => Typed(FloatType(NegateReal(v)), [])
    case StringType(_) => Typed(UnknownType, [NegateString])
    case VectorType(_, s) => Typed(VectorType(Clobbered, s), [])
    case MatrixType(_, w, h) => Typed(MatrixType(Clobbered, w, h), [])
    case UnknownType => Typed(UnknownType, [])
    case VoidType => Typed(VoidType, [])
  }

  /** visit_NegationNode as written: `-typ.value` raises TypeError when
      the Int or Float carries no value. */
  function NegationAsWritten(t: Type): (r: Checked<Typed>)
    ensures r.Raised? <==> (t.IntType? && t.ival.None?) || (t.FloatType? && t.fval.None?)
    ensures r.Ok? ==> r.value == NegationType(t)
  {
    if (t.IntType? && t.ival.None?) || (t.FloatType? && t.fval.None?) then Raised
    else Ok(NegationType(t))
  }

  /** visit_FunctionNode (zeros, ones, eye), as evidently intended (see
      FunctionTypeAsWritten): a negative constant is reported once. */
  function FunctionType(t: Type): (r: Typed)
    ensures r.ty.MatrixType? <==> t.UnknownType? || (t.IntType? && (t.ival.None? || t.ival.value >= 0))
    ensures r.ty.MatrixType? ==> r.log == [] && r.ty.width == r.ty.height
    ensures t.IntType? && t.ival.Some? && t.ival.value >= 0 ==> r.ty.width == Some(t.ival.value as nat)
    ensures !r.ty.MatrixType? ==> r.ty.UnknownType? && |r.log| == 1
    ensures t.IntType? && t.ival.None? ==> r.ty.MatrixType? && r.ty.width.None? && r.ty.height.None?
    ensures t.UnknownType? ==> r == Typed(DefaultMatrix, [])
    ensures t.IntType? && t.ival.Some? && t.ival.value < 0 ==> r == Typed(UnknownType, [FunctionArgNegative])
    ensures !t.IntType? && !t.UnknownType? ==> r == Typed(UnknownType, [FunctionArgNotInt])
  {
    match t
    case IntType(v) =>
      if v.None? then Typed(NewMatrixType(None, None, None), [])
      else if v.value >= 0 then Typed(NewMatrixType(None, Some(v.value as nat), Some(v.value as nat)), [])
      else Typed(UnknownType, [FunctionArgNegative])
    case UnknownType => Typed(DefaultMatrix, [])
    case _ => Typed(UnknownType, [FunctionArgNotInt])
  }

  /** visit_FunctionNode as written: after reporting a negative constant
      the branch falls through to the "wanted type Int" report as well. */
  function FunctionTypeAsWritten(t: Type): (r: Typed)
    ensures !(t.IntType? && t.ival.Some? && t.ival.value < 0) ==> r == FunctionType(t)
  {
    if t.IntType? && t.ival.Some? && t.ival.value < 0 then
      Typed(UnknownType, [FunctionArgNegative, FunctionArgNotInt])
    else FunctionType(t)
  }

  /** visit_AccessNode on a vector: one constant int index, checked
      against the size. */
  function VectorAccessType(typ: Type, ts: seq<Type>): (r: Checked<Typed>)
    requires typ.VectorType?
    ensures |ts| != 1 ==> r == Ok(Typed(UnknownType, [IndexArity]))
    ensures |ts| == 1 && ts[0].VoidType? ==> r.Raised?
    ensures |ts| == 1 && !ts[0].VoidType? && !(ts[0].IntType? && ts[0].ival.Some?) ==> r == Ok(Typed(UnknownType, []))
    ensures |ts| == 1 && ts[0].IntType? && ts[0].ival.Some? ==>
              var i := ts[0].ival.value;
              && (typ.size.None? ==> r.Raised?)
              && (typ.size.Some? && i >= typ.size.value ==> r == Ok(Typed(UnknownType, [IndexOutOfBounds])))
              && (typ.size.Some? && i < 0 ==> r == Ok(Typed(UnknownType, [IndexNegative])))
              && (typ.size.Some? && 0 <= i < typ.size.value && typ.elems.NoValue? ==> r == Ok(Typed(UnknownType, [])))
    ensures LiteralVector(typ) && |ts| == 1 && ts[0].IntType? && ts[0].ival.Some? ==>
              var i, es := ts[0].ival.value, typ.elems.items;
              && (0 <= i < |es| ==> r == Ok(Typed(es[i], [])))
              && (i >= |es| ==> r == Ok(Typed(UnknownType, [IndexOutOfBounds])))
              && (i < 0 ==> r == Ok(Typed(UnknownType, [IndexNegative])))
    ensures r.Ok? && r.value.log == [] && !r.value.ty.UnknownType? ==>
              |ts| == 1 && typ.elems.Items? && r.value.ty in typ.elems.items
  {
    if |ts| != 1 then Ok(Typed(UnknownType, [IndexArity]))
    else match ValueOf(ts[0])
      case SMissing => Raised
      case SInt(i) =>
        if typ.size.None? then Raised
        else if i >= typ.size.value then Ok(Typed(UnknownType, [IndexOutOfBounds]))
        else if i < 0 then Ok(Typed(UnknownType, [IndexNegative]))
        else (match typ.elems
          case NoValue => Ok(Typed(UnknownType, []))
          case Items(es) => if i < |es| then Ok(Typed(es[i], [])) else Raised
          case Clobbered => Raised)
      case _ => Ok(Typed(UnknownType, []))
  }

  /** A vector type as a sequence literal gives it: element types known. */
  predicate LiteralVector(t: Type)
  {
    t.VectorType? && t.elems.Items? && t.size == Some(|t.elems.items|)
  }

  /** A matrix type as a literal of equally long rows gives it. */
  predicate LiteralMatrix(t: Type)
  {
    && t.MatrixType? && t.rows.Items? && t.width.Some?
    && t.height == Some(|t.rows.items|)
    && forall k :: 0 <= k < |t.rows.items| ==>
         LiteralVector(t.rows.items[k]) && t.rows.items[k].size == t.width
  }

  /** The element types of a row of a matrix type, when the row is a
      vector built from a literal. */
  function RowItems(row: Type): Option<seq<Type>>
  {
    if row.VectorType? && row.elems.Items? then Some(row.elems.items) else None
  }

  /** Selecting element j of row i of a matrix type's row list. */
  function SelectElement(rows: Payload, i: int, j: int): (r: Checked<Typed>)
    requires 0 <= i && 0 <= j
  {
    match rows
    case NoValue => Ok(Typed(UnknownType, []))
    case Clobbered => Raised
    case Items(rs) =>
      if i < |rs| && RowItems(rs[i]).Some? && j < |RowItems(rs[i]).value|
      then Ok(Typed(RowItems(rs[i]).value[j], []))
      else Raised
  }

  /** visit_AccessNode on a matrix, as evidently intended (see
      MatrixAccessAsWritten): both indices must be constant ints, the row
      index is bounded by the height and the column index by the width. */
  function MatrixAccessType(typ: Type, ts: seq<Type>): (r: Checked<Typed>)
    requires typ.MatrixType?
    ensures |ts| != 2 ==> r == Ok(Typed(UnknownType, [MatrixIndexArity]))
    ensures |ts| == 2 && (ts[0].VoidType? || ts[1].VoidType?) ==> r.Raised?
    ensures |ts| == 2 && !ts[0].VoidType? && !ts[1].VoidType?
            && !(ts[0].IntType? && ts[0].ival.Some? && ts[1].IntType? && ts[1].ival.Some?) ==>
              r == Ok(Typed(UnknownType, []))
    ensures |ts| == 2 && ts[0].IntType? && ts[0].ival.Some? && ts[1].IntType? && ts[1].ival.Some? ==>
              var i, j := ts[0].ival.value, ts[1].ival.value;
              && (typ.height.None? ==> r.Raised?)
              && (typ.height.Some? && typ.width.None? && i < typ.height.value ==> r.Raised?)
              && (typ.height.Some? && typ.width.Some? ==>
                    var h, w := typ.height.value, typ.width.value;
                    && (i >= h || j >= w ==> r == Ok(Typed(UnknownType, [MatrixIndexOutOfBounds])))
                    && (i < h && j < w && (i < 0 || j < 0) ==> r == Ok(Typed(UnknownType, [MatrixIndexNegative])))
                    && (0 <= i < h && 0 <= j < w && typ.rows.NoValue? ==> r == Ok(Typed(UnknownType, []))))
    ensures LiteralMatrix(typ) && |ts| == 2 && ts[0].IntType? && ts[0].ival.Some?
            && ts[1].IntType? && ts[1].ival.Some? ==>
              var i, j, h, w := ts[0].ival.value, ts[1].ival.value, typ.height.value, typ.width.value;
              && (0 <= i < h && 0 <= j < w ==> r == Ok(Typed(typ.rows.items[i].elems.items[j], [])))
              && (i >= h || j >= w ==> r == Ok(Typed(UnknownType, [MatrixIndexOutOfBounds])))
              && (i < h && j < w && (i < 0 || j < 0) ==> r == Ok(Typed(UnknownType, [MatrixIndexNegative])))
    ensures ((LiteralMatrix(typ) || (typ.rows.NoValue? && typ.width.Some? && typ.height.Some?))
             && |ts| == 2 && ts[0].IntType? && ts[1].IntType?) ==> r.Ok?
  {
    if |ts| != 2 then Ok(Typed(UnknownType, [MatrixIndexArity]))
    else
      var vi, vj := ValueOf(ts[0]), ValueOf(ts[1]);
      if vi.SMissing? || vj.SMissing? then Raised
      else if !vi.SInt? || !vj.SInt? then Ok(Typed(UnknownType, []))
      else
        var i, j := vi.i, vj.i;
        if typ.height.None? then Raised
        else if i >= typ.height.value then Ok(Typed(UnknownType, [MatrixIndexOutOfBounds]))
        else if typ.width.None? then Raised
        else if j >= typ.width.value then Ok(Typed(UnknownType, [MatrixIndexOutOfBounds]))
        else if i < 0 || j < 0 then Ok(Typed(UnknownType, [MatrixIndexNegative]))
        else SelectElement(typ.rows, i, j)
  }

  /** A number for Python's comparisons with an int, when there is one. */
  function AsNumber(s: Scalar): Option<real>
  {
    match s
    case SInt(i) => Some(i as real)
    case SFloat(r) => Some(r)
    case _ => None
  }

  /** visit_AccessNode on a matrix as written: only `j` is required to be
      an int, `i` is compared with the width and `j` with the height, and
      then row `i`, column `j` is selected. */
  function MatrixAccessAsWritten(typ: Type, ts: seq<Type>): (r: Checked<Typed>)
    requires typ.MatrixType?
    ensures |ts| != 2 ==> r == Ok(Typed(UnknownType, [MatrixIndexArity]))
    ensures |ts| == 2 && !ValueOf(ts[0]).SMissing? && !ValueOf(ts[1]).SMissing? && !ValueOf(ts[1]).SInt? ==>
              r == Ok(Typed(UnknownType, []))
    ensures |ts| == 2 && ValueOf(ts[1]).SInt? && AsNumber(ValueOf(ts[0])).Some? && typ.width.Some? ==>
              (AsNumber(ValueOf(ts[0])).value >= typ.width.value as real ==>
                 r == Ok(Typed(UnknownType, [MatrixIndexOutOfBounds])))
    ensures |ts| == 2 && ValueOf(ts[1]).SInt? && ValueOf(ts[0]).SNone? ==> r.Raised?
  {
    if |ts| != 2 then Ok(Typed(UnknownType, [MatrixIndexArity]))
    else
      var vi, vj := ValueOf(ts[0]), ValueOf(ts[1]);
      if vi.SMissing? || vj.SMissing? then Raised
      else if !vj.SInt? then Ok(Typed(UnknownType, []))
      else
        var j := vj.i;
        // `i >= typ.width` raises TypeError unless i is a number and the width known
        if AsNumber(vi).None? || typ.width.None? then Raised
        else if AsNumber(vi).value >= typ.width.value as real then Ok(Typed(UnknownType, [MatrixIndexOutOfBounds]))
        else if typ.height.None? then Raised
        else if j >= typ.height.value then Ok(Typed(UnknownType, [MatrixIndexOutOfBounds]))
        else if AsNumber(vi).value < 0.0 || j < 0 then Ok(Typed(UnknownType, [MatrixIndexNegative]))
        else if typ.rows.NoValue? then Ok(Typed(UnknownType, []))
        else if !vi.SInt? then Raised   // a list index must be an int
        else SelectElement(typ.rows, vi.i, j)
  }

  /** visit_AccessNode once the base and the index list are typed. */
  function AccessType(typ: Type, ts: seq<Type>): (r: Checked<Typed>)
    ensures r.Ok? ==> JumpFree(r.value.log)
    ensures typ.UnknownType? ==> r == Ok(Typed(UnknownType, []))
    ensures !(typ.UnknownType? || typ.VectorType? || typ.MatrixType?) ==> r == Ok(Typed(UnknownType, [NotIndexable]))
    ensures typ.VectorType? ==> r == VectorAccessType(typ, ts)
    ensures typ.MatrixType? ==> r == MatrixAccessType(typ, ts)
  {
    if typ.UnknownType? then Ok(Typed(UnknownType, []))
    else if typ.VectorType? then VectorAccessType(typ, ts)
    else if typ.MatrixType? then MatrixAccessType(typ, ts)
    else Ok(Typed(UnknownType, [NotIndexable]))
  }

  /** Every row type is a vector of the given size. */
  predicate RowsSized(vs: seq<Type>, size: Option<nat>)
  {
    forall k :: 0 <= k < |vs| ==> vs[k].VectorType? && vs[k].size == size
  }

  /** visit_MatrixNode's comparison loop: true when every row has the
      size of the first, false at the first row of another size, raising
      at a row that has no size at all. */
  function RowsAgree(vs: seq<Type>, size: Option<nat>): (r: Checked<bool>)
    ensures r == Ok(true) <==> RowsSized(vs, size)
    ensures r == Ok(false) <==> exists k :: 0 <= k < |vs| && vs[k].VectorType? && vs[k].size != size
                                  && RowsSized(vs[..k], size)
  {
    if vs == [] then Ok(true)
    else if !vs[0].VectorType? then Raised
    else if vs[0].size != size then (assert RowsSized(vs[..0], size); Ok(false))
    else
      var r := RowsAgree(vs[1..], size);
      if r == Ok(false) then
        var k :| 0 <= k < |vs[1..]| && vs[1..][k].VectorType? && vs[1..][k].size != size && RowsSized(vs[1..][..k], size);
        assert vs[..k+1] == [vs[0]] + vs[1..][..k];
        r
      else if r == Ok(true) then
        assert RowsSized(vs, size);
        r
      else
        assert forall k :: 0 < k < |vs| ==> vs[1..][..k-1] == vs[1..k] && vs[..k] == [vs[0]] + vs[1..k];
        r
  }

  /** visit_MatrixNode once its rows are typed: rows of differing sizes
      give a dimensionless MatrixType(), a single row stays a vector. */
  function MatrixLiteralType(vs: seq<Type>): (r: Checked<Typed>)
    ensures r.Ok? ==> JumpFree(r.value.log)
    ensures (|vs| == 0 || !vs[0].VectorType?) ==> r.Raised?
    ensures |vs| == 1 && vs[0].VectorType? ==> r == Ok(Typed(vs[0], []))
    ensures |vs| >= 2 && vs[0].VectorType? && RowsSized(vs, vs[0].size) ==>
              r == Ok(Typed(MatrixType(Items(vs), vs[0].size, Some(|vs|)), []))
    ensures r == Ok(Typed(DefaultMatrix, [MatrixRowsIncompatible])) <==>
              |vs| > 0 && vs[0].VectorType? &&
              exists k :: 0 <= k < |vs| && vs[k].VectorType? && vs[k].size != vs[0].size
                          && RowsSized(vs[..k], vs[0].size)
  {
    if |vs| == 0 || !vs[0].VectorType? then Raised   // values[0].size
    else match RowsAgree(vs, vs[0].size)
      case Raised => Raised
      case Ok(false) => Ok(Typed(DefaultMatrix, [MatrixRowsIncompatible]))
      case Ok(true) =>
        if |vs| == 1 then Ok(Typed(vs[0], []))
        else Ok(Typed(NewMatrixType(Some(vs), None, None), []))
  }

  /** A rule's outcome after the diagnostics its operands printed. */
  function After(log: seq<Diag>, b: Checked<Typed>): (r: Checked<Typed>)
    ensures r.Raised? <==> b.Raised?
    ensures r.Ok? ==> r.value == Typed(b.value.ty, log + b.value.log)
  {
    match b
    case Raised => Raised
    case Ok(t) => Ok(Typed(t.ty, log + t.log))
  }

  /** The types of an expression (the visit_* methods for expressions). */
  function ExprType(e: Expr, env: Env<Type>): (r: Checked<Typed>)
    requires Wf(env)
    ensures r.Ok? ==> JumpFree(r.value.log)
    ensures e.Const? ==> r == Ok(Typed(LiteralType(e.lit), []))
    ensures e.Id? ==> r == Ok(IdType(env, e.name))
    ensures r.Ok? && e.Expression? && e.op.IsComparison() ==>
              r.value.ty == IntType(None) || r.value.ty == UnknownType
    ensures r.Ok? && e.Sequence? ==> r.value.ty.VectorType?
    decreases e, 1
  {
    match e
    case Const(lit) => Ok(Typed(LiteralType(lit), []))
    case Id(name) => Ok(IdType(env, name))
    case Access(id, specifier) => TypeOfAccess(id, specifier, env)
    case Expression(left, op, right) => TypeOfExpression(left, op, right, env)
    case Transposition(value) =>
      (match ExprType(value, env)
       case Raised => Raised
       case Ok(t) => After(t.log, Ok(TranspositionType(t.ty))))
    case Negation(value) =>
      (match ExprType(value, env)
       case Raised => Raised
       case Ok(t) => After(t.log, Ok(NegationType(t.ty))))
    case Function(_, argument) =>
      (match ExprType(argument, env)
       case Raised => Raised
       case Ok(t) => After(t.log, Ok(FunctionType(t.ty))))
    case Matrix(rows) => TypeOfMatrix(rows, env)
    case Sequence(values) =>
      (match SeqTypes(values, env)
       case Raised => Raised
       case Ok(vs) => Ok(Typed(NewVectorType(Some(vs.ts), None), vs.log)))
  }

  /** visit_AccessNode: the variable's type, then the subscripts' types. */
  function TypeOfAccess(id: string, specifier: seq<Expr>, env: Env<Type>): (r: Checked<Typed>)
    requires Wf(env)
    ensures r.Ok? ==> JumpFree(r.value.log)
    decreases Access(id, specifier), 0
  {
    var base := IdType(env, id);
    match SeqTypes(specifier, env)
    case Raised => Raised
    case Ok(idx) => After(base.log + idx.log, AccessType(base.ty, idx.ts))
  }

  /** visit_ExpressionNode: both operands, then the operator's rule. */
  function TypeOfExpression(left: Expr, op: Operator, right: Expr, env: Env<Type>): (r: Checked<Typed>)
    requires Wf(env)
    ensures r.Ok? ==> JumpFree(r.value.log)
    decreases Expression(left, op, right), 0
  {
    match ExprType(left, env)
    case Raised => Raised
    case Ok(t1) =>
      match ExprType(right, env)
      case Raised => Raised
      case Ok(t2) => After(t1.log + t2.log, CheckExprType(t1.ty, t2.ty, op))
  }

  /** visit_MatrixNode: the rows' types, then the literal's shape. */
  function TypeOfMatrix(rows: seq<Expr>, env: Env<Type>): (r: Checked<Typed>)
    requires Wf(env)
    ensures r.Ok? ==> JumpFree(r.value.log)
    decreases Matrix(rows), 0
  {
    match SeqTypes(rows, env)
    case Raised => Raised
    case Ok(vs) => After(vs.log, MatrixLiteralType(vs.ts))
  }

  /** visit_SequenceNode's loop: the types of the elements, in order. */
  function SeqTypes(es: seq<Expr>, env: Env<Type>): (r: Checked<TypesLog>)
    requires Wf(env)
    ensures r.Ok? ==> |r.value.ts| == |es| && JumpFree(r.value.log)
    decreases es, 0
  {
    if es == [] then Ok(TypesLog([], []))
    else match ExprType(es[0], env)
      case Raised => Raised
      case Ok(t) =>
        match SeqTypes(es[1..], env)
        case Raised => Raised
        case Ok(rest) => Ok(TypesLog([t.ty] + rest.ts, t.log + rest.log))
  }


  // ----- statements -----

  /** Two scope stacks of the same depth whose frames carry the same tags. */
  ghost predicate SameTags(e: Env<Type>, e': Env<Type>)
    requires Wf(e) && Wf(e')
  {
    e'.current == e.current && forall k :: 0 <= k <= e.current ==> e'.scopes[k].name == e.scopes[k].name
  }

  /** visit_ConditionNode: both operands, then checkExprType, as for a
      binary expression. */
  function CondType(c: Cond, env: Env<Type>): (r: Checked<Typed>)
    requires Wf(env)
    ensures r.Ok? ==> JumpFree(r.value.log)
    ensures ExprType(c.left, env).Raised? || ExprType(c.right, env).Raised? ==> r.Raised?
    ensures r.Ok? && c.op.IsComparison() ==> r.value.ty == IntType(None) || r.value.ty == UnknownType
  {
    match ExprType(c.left, env)
    case Raised => Raised
    case Ok(t1) =>
      match ExprType(c.right, env)
      case Raised => Raised
      case Ok(t2) => After(t1.log + t2.log, CheckExprType(t1.ty, t2.ty, c.op))
  }

  /** visit_RangeNode: start, step and end are visited in that order and
      the loop variable gets the type of start + step. */
  function RangeType(rng: Range, env: Env<Type>): (r: Checked<Typed>)
    requires Wf(env)
    ensures r.Ok? ==> JumpFree(r.value.log)
    ensures ExprType(rng.start, env).Raised? || ExprType(rng.jump, env).Raised? || ExprType(rng.end, env).Raised? ==>
              r.Raised?
    ensures r.Ok? ==> ExprType(rng.start, env).value.log + ExprType(rng.jump, env).value.log
                      + ExprType(rng.end, env).value.log <= r.value.log
    ensures (&& ExprType(rng.start, env).Ok? && ExprType(rng.start, env).value.ty.IntType?
             && ExprType(rng.jump, env).Ok? && ExprType(rng.jump, env).value.ty.IntType?
             && ExprType(rng.end, env).Ok?) ==> r.Ok? && r.value.ty.IntType?
  {
    match ExprType(rng.start, env)
    case Raised => Raised
    case Ok(t1) =>
      match ExprType(rng.jump, env)
      case Raised => Raised
      case Ok(t2) =>
        match ExprType(rng.end, env)
        case Raised => Raised
        case Ok(t3) => After(t1.log + t2.log + t3.log, CheckExprType(t1.ty, t2.ty, Plus))
  }

  /** The left side of an assignment, as visit_AssignToNode evidently
      intends it: the innermost binding of the variable, or the type of
      the indexed access. */
  function TargetType(left: Target, env: Env<Type>): (r: Checked<(Option<Type>, seq<Diag>)>)
    requires Wf(env)
    ensures left.TargetId? ==> r == Ok((Lookup(env, left.name), []))
    ensures r.Ok? ==> JumpFree(r.value.1)
  {
    match left
    case TargetId(name) => Ok((Lookup(env, name), []))
    case TargetAccess(id, specifier) =>
      match ExprType(Access(id, specifier), env)
      case Raised => Raised
      case Ok(t) => Ok((Some(t.ty), t.log))
  }

  /** visit_AssignToNode as written for a plain identifier: it looks the
      name up among the scope tags (find_scope) rather than among the
      bound variables. */
  function TargetTypeAsWritten(name: string, env: Env<Type>): (r: Checked<Option<Type>>)
    requires Wf(env)
    ensures InnermostTag(env, name).None? ==> r == Ok(None)
    ensures InnermostTag(env, name).Some? ==>
              var k := InnermostTag(env, name).value;
              && (r.Ok? <==> name in env.scopes[k].symbols)
              && (r.Ok? ==> r.value == Some(env.scopes[k].symbols[name]))
  {
    match InnermostTag(env, name)
    case None => Ok(None)
    case Some(k) =>
      match GetSymbol(env, name, k)
      case Raised => Raised
      case Ok(t) => Ok(Some(t))
  }

  /** visit_AssignmentNode without the store: the type the variable gets,
      and the diagnostics printed on the way. */
  function AssignedType(left: Target, op: AssignOp, right: Expr, env: Env<Type>): (r: Checked<Typed>)
    requires Wf(env)
    ensures r.Ok? ==> JumpFree(r.value.log)
  {
    match TargetType(left, env)
    case Raised => Raised
    case Ok((t1, l1)) =>
      match ExprType(right, env)
      case Raised => Raised
      case Ok(t2) =>
        if op.Assign? then Ok(Typed(t2.ty, l1 + t2.log))
        else if t1.None? then Ok(Typed(UnknownType, l1 + t2.log + [LeftSideNotInitialized]))
        else After(l1 + t2.log, CheckExprType(t1.value, t2.ty, op.Arith()))
  }

  /** The visit of one statement: the scope stack it leaves and the log
      extended with what it printed. A visit pops each frame it pushes. */
  function CheckStmt(s: Stmt, env: Env<Type>, log: seq<Diag>): (r: Checked<Checking>)
    requires Wf(env) && env.current >= 0
    ensures r.Ok? ==> Wf(r.value.env) && SameTags(env, r.value.env)
    ensures r.Ok? ==> log <= r.value.log
    decreases s, 1
  {
    match s
    case Assignment(left, op, right) => CheckAssignment(left, op, right, env, log)
    case For(id, rng, body) => CheckFor(id, rng, body, env, log)
    case While(cond, body) => Guarded("loop", cond, body, env, log)
    case If(cond, body) => Guarded("if", cond, body, env, log)
    case IfElse(cond, body, elseBody) => CheckIfElse(cond, body, elseBody, env, log)
    case Break => Ok(Checking(env, if InnermostTag(env, "loop").None? then log + [BreakOutsideLoop] else log))
    case Continue => Ok(Checking(env, if InnermostTag(env, "loop").None? then log + [ContinueOutsideLoop] else log))
    case Return(result) =>
      (match ExprType(result, env)
       case Raised => Raised
       case Ok(t) => Ok(Checking(env, log + t.log)))
    case Print(printable) =>
      (match SeqTypes(printable, env)
       case Raised => Raised
       case Ok(ts) => Ok(Checking(env, log + ts.log)))
    case Block(instructions) => CheckBlock(instructions, env, log)
  }

  /** visit_AssignmentNode: the variable of a plain target is bound to the
      type where it is already bound, else in the current frame. */
  function CheckAssignment(left: Target, op: AssignOp, right: Expr, env: Env<Type>, log: seq<Diag>): (r: Checked<Checking>)
    requires Wf(env) && env.current >= 0
    ensures r.Ok? ==> Wf(r.value.env) && SameTags(env, r.value.env)
    ensures r.Ok? ==> log <= r.value.log
    ensures r.Ok? <==> AssignedType(left, op, right, env).Ok?
    ensures r.Ok? && left.TargetId? ==>
              Lookup(r.value.env, left.name) == Some(AssignedType(left, op, right, env).value.ty)
    ensures r.Ok? && left.TargetId? ==>
              forall other :: other != left.name ==> Lookup(r.value.env, other) == Lookup(env, other)
    ensures r.Ok? && left.TargetAccess? ==> r.value.env == env
  {
    match AssignedType(left, op, right, env)
    case Raised => Raised
    case Ok(t) =>
      if left.TargetId? then
        RebindKeepsAllOthers(env, left.name, t.ty);
        Ok(Checking(Rebind(env, left.name, t.ty), log + t.log))
      else Ok(Checking(env, log + t.log))
  }

  /** visit_ForNode: push a loop frame, type the range there, bind the
      variable, visit the body, pop. */
  function CheckFor(id: string, rng: Range, body: Stmt, env: Env<Type>, log: seq<Diag>): (r: Checked<Checking>)
    requires Wf(env) && env.current >= 0
    ensures r.Ok? ==> Wf(r.value.env) && SameTags(env, r.value.env)
    ensures r.Ok? ==> log <= r.value.log
    decreases body, 3
  {
    var inner := PushFrame(env, "loop");
    match RangeType(rng, inner)
    case Raised => Raised
    case Ok(t) => Scoped(body, Rebind(inner, id, t.ty), log + t.log)
  }

  /** visit_IfElseNode: the if part, then the else body in a frame of its own. */
  function CheckIfElse(cond: Cond, body: Stmt, elseBody: Stmt, env: Env<Type>, log: seq<Diag>): (r: Checked<Checking>)
    requires Wf(env) && env.current >= 0
    ensures r.Ok? ==> Wf(r.value.env) && SameTags(env, r.value.env)
    ensures r.Ok? ==> log <= r.value.log
    decreases IfElse(cond, body, elseBody), 0
  {
    match Guarded("if", cond, body, env, log)
    case Raised => Raised
    case Ok(c) => Scoped(elseBody, PushFrame(c.env, "if"), c.log)
  }

  /** visit_BlockNode: push a block frame, visit the instructions, pop. */
  function CheckBlock(instructions: seq<Stmt>, env: Env<Type>, log: seq<Diag>): (r: Checked<Checking>)
    requires Wf(env) && env.current >= 0
    ensures r.Ok? ==> Wf(r.value.env) && SameTags(env, r.value.env)
    ensures r.Ok? ==> log <= r.value.log
    decreases Block(instructions), 0
  {
    var inner := PushFrame(env, "block");
    match CheckStmts(instructions, inner, log)
    case Raised => Raised
    case Ok(c) => Ok(Checking(PopFrame(c.env), c.log))
  }

  /** Push a frame with the tag, visit the condition and the body, pop. */
  function Guarded(tag: string, cond: Cond, body: Stmt, env: Env<Type>, log: seq<Diag>): (r: Checked<Checking>)
    requires Wf(env) && env.current >= 0
    ensures r.Ok? ==> Wf(r.value.env) && SameTags(env, r.value.env)
    ensures r.Ok? ==> log <= r.value.log
    decreases body, 3
  {
    var inner := PushFrame(env, tag);
    match CondType(cond, inner)
    case Raised => Raised
    case Ok(t) => Scoped(body, inner, log + t.log)
  }

  /** Visit the body in the frame just pushed, then pop it. */
  function Scoped(body: Stmt, inner: Env<Type>, log: seq<Diag>): (r: Checked<Checking>)
    requires Wf(inner) && inner.current >= 1
    ensures r.Ok? ==> Wf(r.value.env) && r.value.env.current == inner.current - 1
    ensures r.Ok? ==> forall k :: 0 <= k < inner.current ==> r.value.env.scopes[k].name == inner.scopes[k].name
    ensures r.Ok? ==> log <= r.value.log
    decreases body, 2
  {
    match CheckStmt(body, inner, log)
    case Raised => Raised
    case Ok(c) => Ok(Checking(PopFrame(c.env), c.log))
  }

  /** The instruction loop of visit_ProgramNode and visit_BlockNode. */
  function CheckStmts(ss: seq<Stmt>, env: Env<Type>, log: seq<Diag>): (r: Checked<Checking>)
    requires Wf(env) && env.current >= 0
    ensures r.Ok? ==> Wf(r.value.env) && SameTags(env, r.value.env)
    ensures r.Ok? ==> log <= r.value.log
    decreases ss
  {
    if ss == [] then Ok(Checking(env, log))
    else match CheckStmt(ss[0], env, log)
      case Raised => Raised
      case Ok(c) => CheckStmts(ss[1..], c.env, c.log)
  }

  /** visit_ProgramNode on a fresh TypeChecker: the diagnostics printed. */
  function CheckProgram(p: Program): (r: Checked<seq<Diag>>)
    ensures r.Ok? ==> JumpCount(r.value) == StrayJumpsAll(p.instructions)
  {
    var env := PushFrame(Initial(), "program");
    match CheckStmts(p.instructions, env, [])
    case Raised => Raised
    case Ok(c) =>
      InnermostTagAfterPush(Initial<Type>(), "program", "loop");
      JumpsAll(p.instructions, env, []);
      Ok(c.log)
  }

  // ----- break and continue against the loop nesting -----

  /** The break and continue statements of s that no for or while of s encloses. */
  function StrayJumps(s: Stmt): nat
  {
    match s
    case If(_, body) => StrayJumps(body)
    case IfElse(_, body, elseBody) => StrayJumps(body) + StrayJumps(elseBody)
    case Break => 1
    case Continue => 1
    case Block(instructions) => StrayJumpsAll(instructions)
    case _ => 0
  }

  function StrayJumpsAll(ss: seq<Stmt>): nat
  {
    if ss == [] then 0 else StrayJumps(ss[0]) + StrayJumpsAll(ss[1..])
  }

  /** How many break and continue reports a log holds. */
  function JumpCount(log: seq<Diag>): nat
  {
    if log == [] then 0 else (if log[0].IsJump() then 1 else 0) + JumpCount(log[1..])
  }

  lemma {:induction false} JumpCountAppend(a: seq<Diag>, b: seq<Diag>)
    ensures JumpCount(a + b) == JumpCount(a) + JumpCount(b)
  {
    if a == [] {
      assert a + b == b;
    } else {
      assert (a + b)[0] == a[0] && (a + b)[1..] == a[1..] + b;
      JumpCountAppend(a[1..], b);
    }
  }

  lemma {:induction false} JumpFreeCount(log: seq<Diag>)
    requires JumpFree(log)
    ensures JumpCount(log) == 0
  {
    if log != [] {
      JumpFreeCount(log[1..]);
    }
  }

  /** The scope stack is inside a loop: find_scope("loop") finds a frame. */
  predicate InLoop(env: Env<Type>)
    requires Wf(env)
  {
    InnermostTag(env, "loop").Some?
  }

  lemma SameTagsInLoop(e: Env<Type>, e': Env<Type>)
    requires Wf(e) && Wf(e') && SameTags(e, e')
    ensures InLoop(e) == InLoop(e')
  {
    SearchTagAgrees(e, e', "loop", e.current);
  }

  /** visit_BreakNode and visit_ContinueNode report exactly the break and
      continue statements that stand outside every for and while: a
      statement visited inside a loop frame adds no such report, and one
      visited outside adds one per stray jump. */
  lemma {:induction false} JumpReports(s: Stmt, env: Env<Type>, log: seq<Diag>)
    requires Wf(env) && env.current >= 0 && CheckStmt(s, env, log).Ok?
    ensures JumpCount(CheckStmt(s, env, log).value.log)
            == JumpCount(log) + (if InLoop(env) then 0 else StrayJumps(s))
    decreases s, 2
  {
    if s.For? || s.While? || s.If? || s.IfElse? || s.Block? {
      JumpsCompound(s, env, log);
    } else {
      JumpsSimple(s, env, log);
    }
  }

  /** JumpReports for the statements that hold statements. */
  lemma {:induction false} JumpsCompound(s: Stmt, env: Env<Type>, log: seq<Diag>)
    requires Wf(env) && env.current >= 0 && CheckStmt(s, env, log).Ok?
    requires s.For? || s.While? || s.If? || s.IfElse? || s.Block?
    ensures JumpCount(CheckStmt(s, env, log).value.log)
            == JumpCount(log) + (if InLoop(env) then 0 else StrayJumps(s))
    decreases s, 1
  {
    match s
    case For(id, rng, body) =>
      JumpsFor(id, rng, body, env, log);
    case While(cond, body) =>
      JumpsGuarded("loop", cond, body, env, log);
    case If(cond, body) =>
      JumpsGuarded("if", cond, body, env, log);
    case IfElse(cond, body, elseBody) =>
      JumpsIfElse(cond, body, elseBody, env, log);
    case Block(instructions) =>
      JumpsBlock(instructions, env, log);
  }

  /** JumpReports for the statements that hold none. */
  lemma JumpsSimple(s: Stmt, env: Env<Type>, log: seq<Diag>)
    requires Wf(env) && env.current >= 0 && CheckStmt(s, env, log).Ok?
    requires !(s.For? || s.While? || s.If? || s.IfElse? || s.Block?)
    ensures JumpCount(CheckStmt(s, env, log).value.log)
            == JumpCount(log) + (if InLoop(env) then 0 else StrayJumps(s))
  {
    match s
    case Assignment(left, op, right) =>
      JumpsAssignment(left, op, right, env, log);
    case Break =>
      JumpsJump(s, env, log);
    case Continue =>
      JumpsJump(s, env, log);
    case Return(result) =>
      JumpFreeAppend(log, ExprType(result, env).value.log);
    case Print(printable) =>
      JumpFreeAppend(log, SeqTypes(printable, env).value.log);
  }

  lemma JumpsAssignment(left: Target, op: AssignOp, right: Expr, env: Env<Type>, log: seq<Diag>)
    requires Wf(env) && env.current >= 0 && CheckAssignment(left, op, right, env, log).Ok?
    ensures JumpCount(CheckAssignment(left, op, right, env, log).value.log) == JumpCount(log)
  {
    JumpFreeAppend(log, AssignedType(left, op, right, env).value.log);
  }

  /** A break or continue adds its report exactly when no loop frame is open. */
  lemma JumpsJump(s: Stmt, env: Env<Type>, log: seq<Diag>)
    requires Wf(env) && env.current >= 0 && (s.Break? || s.Continue?)
    ensures CheckStmt(s, env, log).Ok?
    ensures JumpCount(CheckStmt(s, env, log).value.log) == JumpCount(log) + (if InLoop(env) then 0 else 1)
  {
    JumpCountAppend(log, [if s.Break? then BreakOutsideLoop else ContinueOutsideLoop]);
  }

  /** Appending diagnostics that hold no jump report adds none. */
  lemma JumpFreeAppend(log: seq<Diag>, printed: seq<Diag>)
    requires JumpFree(printed)
    ensures JumpCount(log + printed) == JumpCount(log)
  {
    JumpCountAppend(log, printed);
    JumpFreeCount(printed);
  }

  lemma {:induction false} JumpsFor(id: string, rng: Range, body: Stmt, env: Env<Type>, log: seq<Diag>)
    requires Wf(env) && env.current >= 0 && CheckFor(id, rng, body, env, log).Ok?
    ensures JumpCount(CheckFor(id, rng, body, env, log).value.log) == JumpCount(log)
    decreases body, 5
  {
    var inner := PushFrame(env, "loop");
    var t := RangeType(rng, inner).value;
    InnermostTagAfterPush(env, "loop", "loop");
    var env' := Rebind(inner, id, t.ty);
    SearchTagAgrees(inner, env', "loop", inner.current);
    JumpsScoped(body, env', log + t.log);
    JumpFreeAppend(log, t.log);
  }

  lemma {:induction false} JumpsBlock(instructions: seq<Stmt>, env: Env<Type>, log: seq<Diag>)
    requires Wf(env) && env.current >= 0 && CheckBlock(instructions, env, log).Ok?
    ensures JumpCount(CheckBlock(instructions, env, log).value.log)
            == JumpCount(log) + (if InLoop(env) then 0 else StrayJumpsAll(instructions))
    decreases Block(instructions), 0
  {
    InnermostTagAfterPush(env, "block", "loop");
    JumpsAll(instructions, PushFrame(env, "block"), log);
  }

  lemma {:induction false} JumpsIfElse(cond: Cond, body: Stmt, elseBody: Stmt, env: Env<Type>, log: seq<Diag>)
    requires Wf(env) && env.current >= 0 && CheckIfElse(cond, body, elseBody, env, log).Ok?
    ensures JumpCount(CheckIfElse(cond, body, elseBody, env, log).value.log)
            == JumpCount(log) + (if InLoop(env) then 0 else StrayJumps(body) + StrayJumps(elseBody))
    decreases IfElse(cond, body, elseBody), 0
  {
    JumpsGuarded("if", cond, body, env, log);
    var c := Guarded("if", cond, body, env, log).value;
    assert CheckIfElse(cond, body, elseBody, env, log) == Scoped(elseBody, PushFrame(c.env, "if"), c.log);
    SameTagsInLoop(env, c.env);
    InnermostTagAfterPush(c.env, "if", "loop");
    JumpsScoped(elseBody, PushFrame(c.env, "if"), c.log);
  }

  lemma {:induction false} JumpsGuarded(tag: string, cond: Cond, body: Stmt, env: Env<Type>, log: seq<Diag>)
    requires Wf(env) && env.current >= 0 && Guarded(tag, cond, body, env, log).Ok?
    ensures JumpCount(Guarded(tag, cond, body, env, log).value.log)
            == JumpCount(log) + (if InLoop(PushFrame(env, tag)) then 0 else StrayJumps(body))
    ensures tag != "loop" ==> InLoop(PushFrame(env, tag)) == InLoop(env)
    decreases body, 4
  {
    var inner := PushFrame(env, tag);
    InnermostTagAfterPush(env, tag, "loop");
    var t := CondType(cond, inner).value;
    JumpsScoped(body, inner, log + t.log);
    JumpFreeAppend(log, t.log);
  }

  lemma {:induction false} JumpsScoped(body: Stmt, inner: Env<Type>, log: seq<Diag>)
    requires Wf(inner) && inner.current >= 1 && Scoped(body, inner, log).Ok?
    ensures JumpCount(Scoped(body, inner, log).value.log)
            == JumpCount(log) + (if InLoop(inner) then 0 else StrayJumps(body))
    decreases body, 3
  {
    JumpReports(body, inner, log);
  }

  lemma {:induction false} JumpsAll(ss: seq<Stmt>, env: Env<Type>, log: seq<Diag>)
    requires Wf(env) && env.current >= 0 && CheckStmts(ss, env, log).Ok?
    ensures JumpCount(CheckStmts(ss, env, log).value.log)
            == JumpCount(log) + (if InLoop(env) then 0 else StrayJumpsAll(ss))
    decreases ss
  {
    if ss != [] {
      JumpReports(ss[0], env, log);
      var c := CheckStmt(ss[0], env, log).value;
      SameTagsInLoop(env, c.env);
      JumpsAll(ss[1..], c.env, c.log);
    }
  }

  /** A program's top-level frames are never loops, so every stray break
      or continue of the program is reported once. */
  lemma ProgramJumpReports(p: Program)
    requires CheckProgram(p).Ok?
    ensures JumpFree(CheckProgram(p).value) <==> StrayJumpsAll(p.instructions) == 0
  {
    JumpCountZero(CheckProgram(p).value);
  }

  /** A log holds no break or continue report exactly when it counts none. */
  lemma {:induction false} JumpCountZero(log: seq<Diag>)
    ensures JumpFree(log) <==> JumpCount(log) == 0
  {
    if log != [] {
      JumpCountZero(log[1..]);
      assert JumpFree(log) <==> !log[0].IsJump() && JumpFree(log[1..]);
    }
  }

  // ----- the code as written, against the rules above -----

  /** `A = zeros(2); x = A[k, 0];` with k never assigned: the row index
      is Unknown, whose value is None; the code never tests the row index,
      so `None >= 2` raises. The corrected rule types the access as
      Unknown without a report. */
  lemma MatrixAccessAsWrittenUncheckedRow()
    ensures MatrixAccessAsWritten(MatrixType(NoValue, Some(2), Some(2)), [UnknownType, IntType(Some(0))]) == Raised
    ensures MatrixAccessType(MatrixType(NoValue, Some(2), Some(2)), [UnknownType, IntType(Some(0))])
            == Ok(Typed(UnknownType, []))
  {
  }

  /** `A = [1, 2, 3; 4, 5, 6]`: a matrix type with 2 rows of 3. */
  function TwoByThree(): (t: Type)
    ensures LiteralMatrix(t) && t.width == Some(3) && t.height == Some(2)
  {
    var row1 := NewVectorType(Some([IntType(Some(1)), IntType(Some(2)), IntType(Some(3))]), None);
    var row2 := NewVectorType(Some([IntType(Some(4)), IntType(Some(5)), IntType(Some(6))]), None);
    NewMatrixType(Some([row1, row2]), None, None)
  }

  /** With the row index bounded by the width, `A[0, 2]` of a 2 by 3
      literal is reported out of bounds and `A[2, 0]` raises IndexError;
      the corrected rule types the first and reports the second. */
  lemma MatrixAccessAsWrittenSwapsBounds()
    ensures MatrixAccessAsWritten(TwoByThree(), [IntType(Some(0)), IntType(Some(2))])
            == Ok(Typed(UnknownType, [MatrixIndexOutOfBounds]))
    ensures MatrixAccessType(TwoByThree(), [IntType(Some(0)), IntType(Some(2))]) == Ok(Typed(IntType(Some(3)), []))
    ensures MatrixAccessAsWritten(TwoByThree(), [IntType(Some(2)), IntType(Some(0))]) == Raised
    ensures MatrixAccessType(TwoByThree(), [IntType(Some(2)), IntType(Some(0))])
            == Ok(Typed(UnknownType, [MatrixIndexOutOfBounds]))
  {
  }

  /** `zeros(-1)` prints both the "positive number" and the "type Int"
      diagnostics as written, the first only once corrected. */
  lemma FunctionTypeAsWrittenReportsTwice()
    ensures FunctionTypeAsWritten(IntType(Some(-1))).log == [FunctionArgNegative, FunctionArgNotInt]
    ensures FunctionType(IntType(Some(-1))).log == [FunctionArgNegative]
  {
  }

  /** The negation of an Int of unknown value raises as written and stays
      an unknown Int once corrected. Only a comparison is typed as such an
      Int, and the grammar admits comparisons only as if and while
      conditions, so this is reached through Expression nodes with a
      comparison operator, which Ast allows and the parser never builds. */
  lemma NegationAsWrittenRaises()
    ensures NegationAsWritten(IntType(None)) == Raised
    ensures NegationType(IntType(None)) == Typed(IntType(None), [])
  {
  }

  /** After `x = 1;` in the program frame, `x += 1` finds no scope tagged
      "x" and so types its left side as missing, while the variable is bound. */
  lemma TargetTypeAsWrittenMissesVariable()
    ensures var env := Rebind(PushFrame(Initial<Type>(), "program"), "x", IntType(Some(1)));
      && TargetTypeAsWritten("x", env) == Ok(None)
      && TargetType(TargetId("x"), env) == Ok((Some(IntType(Some(1))), []))
  {
    var env0 := PushFrame(Initial<Type>(), "program");
    var env := Rebind(env0, "x", IntType(Some(1)));
    assert env.scopes[1].name == "program" && env.scopes[0].name == "root";
  }

  /** Every variable whose name is no scope tag reads as uninitialized on
      the left of a compound assignment, as written. */
  lemma TargetTypeAsWrittenIgnoresBindings(env: Env<Type>, name: string)
    requires Wf(env) && forall k :: 0 <= k <= env.current ==> env.scopes[k].name != name
    ensures TargetTypeAsWritten(name, env) == Ok(None)
  {
  }

  /** A literal of equally long rows, two or more of them, types to a
      matrix whose every constant index in range reaches its element. */
  lemma MatrixLiteralIsIndexable(vs: seq<Type>)
    requires |vs| >= 2 && LiteralVector(vs[0])
    requires forall k :: 0 <= k < |vs| ==> LiteralVector(vs[k]) && vs[k].size == vs[0].size
    ensures MatrixLiteralType(vs).Ok? && LiteralMatrix(MatrixLiteralType(vs).value.ty)
  {
    assert RowsSized(vs, vs[0].size);
  }

  // ----- the TypeChecker object -----

  /** The TypeChecker: a scope table of types and the diagnostics printed
      so far. Expression visits change nothing and return the diagnostics
      they print; statement visits append them to `log`. A visit that
      returns Raised, or false, stands for an exception escaping it. */
  class TypeChecker {
    const scopeTable: ScopeTable<Type>
    var log: seq<Diag>

    ghost predicate Valid()
      reads this, scopeTable
    {
      scopeTable.Valid() && scopeTable.State().current >= 0
    }

    constructor ()
      ensures Valid() && fresh(scopeTable)
      ensures scopeTable.State() == Initial() && log == []
    {
      scopeTable := new ScopeTable();
      log := [];
    }

    /** visit_IdNode */
    method VisitId(name: string) returns (r: Typed)
      requires Valid()
      ensures r == IdType(scopeTable.State(), name)
    {
      var scope := scopeTable.FindVariableScope(name);
      if scope.None? {
        return Typed(UnknownType, [NotInitialized]);
      }
      var t := scopeTable.Get(name, scope);
      return Typed(t.value, []);
    }

    /** visit_SequenceNode: the loop over the values. */
    method VisitSequence(es: seq<Expr>) returns (r: Checked<TypesLog>)
      requires Valid()
      ensures r == SeqTypes(es, scopeTable.State())
      decreases es, 0
    {
      var ts: seq<Type> := [];
      var printed: seq<Diag> := [];
      var k := 0;
      assert es[0..] == es;
      JoinedNothing(SeqTypes(es, scopeTable.State()));
      while k < |es|
        invariant 0 <= k <= |es|
        invariant SeqTypes(es, scopeTable.State()) == Joined(ts, printed, SeqTypes(es[k..], scopeTable.State()))
      {
        assert es[k..][0] == es[k] && es[k..][1..] == es[k + 1..];
        var t := VisitExpr(es[k]);
        if t.Raised? {
          return Raised;
        }
        JoinedStep(ts, printed, t.value, SeqTypes(es[k + 1..], scopeTable.State()));
        ts := ts + [t.value.ty];
        printed := printed + t.value.log;
        k := k + 1;
      }
      assert es[k..] == [];
      assert ts + [] == ts && printed + [] == printed;
      return Ok(TypesLog(ts, printed));
    }

    /** visit_MatrixNode's second loop: compare every row's size with the first's. */
    method RowsAgreeLoop(vs: seq<Type>, size: Option<nat>) returns (r: Checked<bool>)
      ensures r == RowsAgree(vs, size)
    {
      var k := 0;
      while k < |vs|
        invariant 0 <= k <= |vs|
        invariant RowsAgree(vs, size) == RowsAgree(vs[k..], size)
      {
        assert vs[k..][0] == vs[k] && vs[k..][1..] == vs[k + 1..];
        if !vs[k].VectorType? {
          return Raised;
        }
        if vs[k].size != size {
          return Ok(false);
        }
        k := k + 1;
      }
      assert vs[k..] == [];
      return Ok(true);
    }

    /** visit_MatrixNode */
    method VisitMatrix(rows: seq<Expr>) returns (r: Checked<Typed>)
      requires Valid()
      ensures r == ExprType(Matrix(rows), scopeTable.State())
      decreases Matrix(rows), 0
    {
      var values := VisitSequence(rows);
      if values.Raised? {
        return Raised;
      }
      var vs := values.value.ts;
      if |vs| == 0 || !vs[0].VectorType? {
        return Raised;
      }
      var agree := RowsAgreeLoop(vs, vs[0].size);
      var t: Checked<Typed>;
      if agree.Raised? {
        t := Raised;
      } else if !agree.value {
        t := Ok(Typed(DefaultMatrix, [MatrixRowsIncompatible]));
      } else if |vs| == 1 {
        t := Ok(Typed(vs[0], []));
      } else {
        t := Ok(Typed(NewMatrixType(Some(vs), None, None), []));
      }
      return After(values.value.log, t);
    }

    /** The visit_* methods for expressions. */
    method VisitExpr(e: Expr) returns (r: Checked<Typed>)
      requires Valid()
      ensures r == ExprType(e, scopeTable.State())
      decreases e, 1
    {
      match e
      case Const(lit) =>
        r := Ok(Typed(LiteralType(lit), []));
      case Id(name) =>
        var t := VisitId(name);
        r := Ok(t);
      case Access(id, specifier) =>
        var base := VisitId(id);
        var idx := VisitSequence(specifier);
        if idx.Raised? {
          return Raised;
        }
        r := After(base.log + idx.value.log, AccessType(base.ty, idx.value.ts));
      case Expression(left, op, right) =>
        var t1 := VisitExpr(left);
        if t1.Raised? {
          return Raised;
        }
        var t2 := VisitExpr(right);
        if t2.Raised? {
          return Raised;
        }
        r := After(t1.value.log + t2.value.log, CheckExprType(t1.value.ty, t2.value.ty, op));
      case Transposition(value) =>
        var t := VisitExpr(value);
        if t.Raised? {
          return Raised;
        }
        r := After(t.value.log, Ok(TranspositionType(t.value.ty)));
      case Negation(value) =>
        var t := VisitExpr(value);
        if t.Raised? {
          return Raised;
        }
        r := After(t.value.log, Ok(NegationType(t.value.ty)));
      case Function(_, argument) =>
        var t := VisitExpr(argument);
        if t.Raised? {
          return Raised;
        }
        r := After(t.value.log, Ok(FunctionType(t.value.ty)));
      case Matrix(rows) =>
        r := VisitMatrix(rows);
      case Sequence(values) =>
        var vs := VisitSequence(values);
        if vs.Raised? {
          return Raised;
        }
        r := Ok(Typed(NewVectorType(Some(vs.value.ts), None), vs.value.log));
    }

    /** visit_RangeNode */
    method VisitRange(rng: Range) returns (r: Checked<Typed>)
      requires Valid()
      ensures r == RangeType(rng, scopeTable.State())
    {
      var t1 := VisitExpr(rng.start);
      if t1.Raised? {
        return Raised;
      }
      var t2 := VisitExpr(rng.jump);
      if t2.Raised? {
        return Raised;
      }
      var t3 := VisitExpr(rng.end);
      if t3.Raised? {
        return Raised;
      }
      r := After(t1.value.log + t2.value.log + t3.value.log, CheckExprType(t1.value.ty, t2.value.ty, Plus));
    }

    /** visit_AssignToNode, looking the variable up among the bindings. */
    method VisitTarget(left: Target) returns (r: Checked<(Option<Type>, seq<Diag>)>)
      requires Valid()
      ensures r == TargetType(left, scopeTable.State())
    {
      match left
      case TargetId(name) =>
        var scope := scopeTable.FindVariableScope(name);
        if scope.None? {
          return Ok((None, []));
        }
        var t := scopeTable.Get(name, scope);
        return Ok((Some(t.value), []));
      case TargetAccess(id, specifier) =>
        var t := VisitExpr(Access(id, specifier));
        if t.Raised? {
          return Raised;
        }
        return Ok((Some(t.value.ty), t.value.log));
    }

    /** putVariable: overwrite the innermost binding of the name, or bind
        it in the current scope. */
    method PutVariable(name: string, symbol: Type)
      requires Valid()
      modifies scopeTable
      ensures Valid()
      ensures scopeTable.State() == Rebind(old(scopeTable.State()), name, symbol)
    {
      var scope := scopeTable.FindVariableScope(name);
      var _ := scopeTable.Put(name, symbol, scope);
    }

    /** visit_AssignmentNode */
    method VisitAssignment(left: Target, op: AssignOp, right: Expr) returns (ok: bool)
      requires Valid()
      modifies this, scopeTable
      ensures Valid()
      ensures var r := CheckAssignment(left, op, right, old(scopeTable.State()), old(log));
        ok == r.Ok? && (ok ==> scopeTable.State() == r.value.env && log == r.value.log)
    {
      var value := VisitAssigned(left, op, right);
      if value.Raised? {
        return false;
      }
      log := log + value.value.log;
      if left.TargetId? {
        PutVariable(left.name, value.value.ty);
      }
      return true;
    }

    /** The part of visit_AssignmentNode before the store: both sides and
        the operator's rule. */
    method VisitAssigned(left: Target, op: AssignOp, right: Expr) returns (value: Checked<Typed>)
      requires Valid()
      ensures value == AssignedType(left, op, right, scopeTable.State())
    {
      var t1 := VisitTarget(left);
      if t1.Raised? {
        return Raised;
      }
      var t2 := VisitExpr(right);
      if t2.Raised? {
        return Raised;
      }
      var left1, printed := t1.value.0, t1.value.1 + t2.value.log;
      if op.Assign? {
        value := Ok(Typed(t2.value.ty, printed));
      } else if left1.None? {
        value := Ok(Typed(UnknownType, printed + [LeftSideNotInitialized]));
      } else {
        value := After(printed, CheckExprType(left1.value, t2.value.ty, op.Arith()));
      }
    }

    /** visit_BreakNode and visit_ContinueNode */
    method VisitJump(s: Stmt)
      requires Valid() && (s.Break? || s.Continue?)
      modifies this
      ensures log == CheckStmt(s, scopeTable.State(), old(log)).value.log
    {
      var loop := scopeTable.FindScope("loop");
      if loop.None? {
        log := log + [if s.Break? then BreakOutsideLoop else ContinueOutsideLoop];
      }
    }

    /** Visit the body in the frame just pushed, then pop it. */
    method VisitScoped(body: Stmt) returns (ok: bool)
      requires Valid() && scopeTable.State().current >= 1
      modifies this, scopeTable
      ensures Valid()
      ensures var r := Scoped(body, old(scopeTable.State()), old(log));
        ok == r.Ok? && (ok ==> scopeTable.State() == r.value.env && log == r.value.log)
      decreases body, 2
    {
      ok := VisitStmt(body);
      if ok {
        var _, _ := scopeTable.PopScope();
      }
    }

    /** visit_WhileNode and visit_IfNode: push, condition, body, pop. */
    method VisitGuarded(tag: string, cond: Cond, body: Stmt) returns (ok: bool)
      requires Valid()
      modifies this, scopeTable
      ensures Valid()
      ensures var r := Guarded(tag, cond, body, old(scopeTable.State()), old(log));
        ok == r.Ok? && (ok ==> scopeTable.State() == r.value.env && log == r.value.log)
      decreases body, 3
    {
      var _ := scopeTable.PushScope(tag);
      var t := VisitExpr(Expression(cond.left, cond.op, cond.right));
      if t.Raised? {
        return false;
      }
      log := log + t.value.log;
      ok := VisitScoped(body);
    }

    /** The visit_* methods for statements. */
    method VisitStmt(s: Stmt) returns (ok: bool)
      requires Valid()
      modifies this, scopeTable
      ensures Valid()
      ensures var r := CheckStmt(s, old(scopeTable.State()), old(log));
        ok == r.Ok? && (ok ==> scopeTable.State() == r.value.env && log == r.value.log)
      decreases s, 1
    {
      match s
      case Assignment(left, op, right) =>
        ok := VisitAssignment(left, op, right);
      case For(id, rng, body) =>
        ok := VisitFor(id, rng, body);
      case While(cond, body) =>
        ok := VisitGuarded("loop", cond, body);
      case If(cond, body) =>
        ok := VisitGuarded("if", cond, body);
      case IfElse(cond, body, elseBody) =>
        ok := VisitIfElse(cond, body, elseBody);
      case Break =>
        VisitJump(s);
        ok := true;
      case Continue =>
        VisitJump(s);
        ok := true;
      case Return(result) =>
        ok := VisitReturn(result);
      case Print(printable) =>
        ok := VisitPrint(printable);
      case Block(instructions) =>
        ok := VisitBlock(instructions);
    }

    /** visit_ReturnNode */
    method VisitReturn(result: Expr) returns (ok: bool)
      requires Valid()
      modifies this
      ensures var r := CheckStmt(Return(result), scopeTable.State(), old(log));
        ok == r.Ok? && (ok ==> log == r.value.log)
    {
      var t := VisitExpr(result);
      if t.Raised? {
        return false;
      }
      log := log + t.value.log;
      ok := true;
    }

    /** visit_PrintNode */
    method VisitPrint(printable: seq<Expr>) returns (ok: bool)
      requires Valid()
      modifies this
      ensures var r := CheckStmt(Print(printable), scopeTable.State(), old(log));
        ok == r.Ok? && (ok ==> log == r.value.log)
    {
      var t := VisitSequence(printable);
      if t.Raised? {
        return false;
      }
      log := log + t.value.log;
      ok := true;
    }

    /** visit_ForNode */
    method VisitFor(id: string, rng: Range, body: Stmt) returns (ok: bool)
      requires Valid()
      modifies this, scopeTable
      ensures Valid()
      ensures var r := CheckFor(id, rng, body, old(scopeTable.State()), old(log));
        ok == r.Ok? && (ok ==> scopeTable.State() == r.value.env && log == r.value.log)
      decreases body, 4
    {
      var _ := scopeTable.PushScope("loop");
      var t := VisitRange(rng);
      if t.Raised? {
        return false;
      }
      log := log + t.value.log;
      PutVariable(id, t.value.ty);
      ok := VisitScoped(body);
    }

    /** visit_IfElseNode */
    method VisitIfElse(cond: Cond, body: Stmt, elseBody: Stmt) returns (ok: bool)
      requires Valid()
      modifies this, scopeTable
      ensures Valid()
      ensures var r := CheckIfElse(cond, body, elseBody, old(scopeTable.State()), old(log));
        ok == r.Ok? && (ok ==> scopeTable.State() == r.value.env && log == r.value.log)
      decreases IfElse(cond, body, elseBody), 0
    {
      ghost var g := Guarded("if", cond, body, scopeTable.State(), log);
      ok := VisitGuarded("if", cond, body);
      if ok {
        var _ := scopeTable.PushScope("if");
        assert scopeTable.State() == PushFrame(g.value.env, "if");
        ok := VisitScoped(elseBody);
      }
    }

    /** visit_BlockNode */
    method VisitBlock(instructions: seq<Stmt>) returns (ok: bool)
      requires Valid()
      modifies this, scopeTable
      ensures Valid()
      ensures var r := CheckBlock(instructions, old(scopeTable.State()), old(log));
        ok == r.Ok? && (ok ==> scopeTable.State() == r.value.env && log == r.value.log)
      decreases Block(instructions), 0
    {
      var _ := scopeTable.PushScope("block");
      ok := VisitStmts(instructions);
      if ok {
        var _, _ := scopeTable.PopScope();
      }
    }

    /** The instruction loop of visit_ProgramNode and visit_BlockNode. */
    method VisitStmts(ss: seq<Stmt>) returns (ok: bool)
      requires Valid()
      modifies this, scopeTable
      ensures Valid()
      ensures var r := CheckStmts(ss, old(scopeTable.State()), old(log));
        ok == r.Ok? && (ok ==> scopeTable.State() == r.value.env && log == r.value.log)
      decreases ss
    {
      var k := 0;
      assert ss[0..] == ss;
      while k < |ss|
        invariant 0 <= k <= |ss| && Valid()
        invariant CheckStmts(ss, old(scopeTable.State()), old(log)) == CheckStmts(ss[k..], scopeTable.State(), log)
      {
        assert ss[k..][0] == ss[k] && ss[k..][1..] == ss[k + 1..];
        ok := VisitStmt(ss[k]);
        if !ok {
          return false;
        }
        k := k + 1;
      }
      assert ss[k..] == [];
      return true;
    }

    /** visit_ProgramNode */
    method VisitProgram(p: Program) returns (ok: bool)
      requires Valid()
      modifies this, scopeTable
      ensures Valid()
      ensures var r := CheckStmts(p.instructions, PushFrame(old(scopeTable.State()), "program"), old(log));
        ok == r.Ok? && (ok ==> scopeTable.State() == PopFrame(r.value.env) && log == r.value.log)
      ensures old(scopeTable.State()) == Initial() && old(log) == [] ==>
        ok == CheckProgram(p).Ok? && (ok ==> log == CheckProgram(p).value)
    {
      var _ := scopeTable.PushScope("program");
      ok := VisitStmts(p.instructions);
      if ok {
        var _, _ := scopeTable.PopScope();
      }
    }
  }

  /** What is left of a left-to-right pass once ts and printed are done. */
  function Joined(ts: seq<Type>, printed: seq<Diag>, rest: Checked<TypesLog>): Checked<TypesLog>
  {
    match rest
    case Raised => Raised
    case Ok(t) => Ok(TypesLog(ts + t.ts, printed + t.log))
  }

  lemma JoinedNothing(r: Checked<TypesLog>)
    ensures Joined([], [], r) == r
  {
    if r.Ok? {
      assert [] + r.value.ts == r.value.ts && [] + r.value.log == r.value.log;
    }
  }

  lemma JoinedStep(ts: seq<Type>, printed: seq<Diag>, t: Typed, rest: Checked<TypesLog>)
    ensures Joined(ts, printed, match rest case Raised => Raised case Ok(r) => Ok(TypesLog([t.ty] + r.ts, t.log + r.log)))
         == Joined(ts + [t.ty], printed + t.log, rest)
  {
    if rest.Ok? {
      assert ts + ([t.ty] + rest.value.ts) == (ts + [t.ty]) + rest.value.ts;
      assert printed + (t.log + rest.value.log) == (printed + t.log) + rest.value.log;
    }
  }
}
