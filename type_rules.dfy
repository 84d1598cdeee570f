/** The static operator-typing rules of TypeChecker.py:
    checkMatrixExprType, checkCompExprType, checkBasicType and
    checkExprType, with the diagnostics they print. */
module TypeRules {
  import opened Base
  import opened Types
  import opened Ast

  /** The kinds of diagnostic the checker prints. */
  datatype Diag =
    | VectorSizeMismatch | MatrixSizeMismatch | OperationNotTypable
    | NotInitialized | LeftSideNotInitialized
    | BreakOutsideLoop | ContinueOutsideLoop
    | IndexArity | IndexOutOfBounds | IndexNegative
    | MatrixIndexArity | MatrixIndexOutOfBounds | MatrixIndexNegative | NotIndexable
    | TransposeNotMatrix | NegateString
    | FunctionArgNegative | FunctionArgNotInt
    | MatrixRowsIncompatible
  {
    /** Printed by visit_BreakNode and visit_ContinueNode. */
    predicate IsJump() { BreakOutsideLoop? || ContinueOutsideLoop? }
  }

  /** A log with no break or continue report in it. */
  predicate JumpFree(log: seq<Diag>)
  {
    forall k :: 0 <= k < |log| ==> !log[k].IsJump()
  }

  /** What checkMatrixExprType and checkCompExprType return (None when the
      operand shapes fall outside the rule) and what they print. */
  datatype Rule = Rule(ty: Option<Type>, log: seq<Diag>)

  /** A type together with the diagnostics printed while computing it. */
  datatype Typed = Typed(ty: Type, log: seq<Diag>)

  predicate SameShape(t1: Type, t2: Type)
  {
    (t1.VectorType? && t2.VectorType?) || (t1.MatrixType? && t2.MatrixType?)
  }

  /** Some dimension of two like-shaped operands is unknown. */
  predicate SomeDimUnknown(t1: Type, t2: Type)
    requires SameShape(t1, t2)
  {
    if t1.VectorType? then t1.size.None? || t2.size.None?
    else t1.width.None? || t2.width.None? || t1.height.None? || t2.height.None?
  }

  /** Two like-shaped operands whose dimensions are all known and disagree. */
  predicate DimsClash(t1: Type, t2: Type)
  {
    && SameShape(t1, t2)
    && !SomeDimUnknown(t1, t2)
    && (if t1.VectorType? then t1.size != t2.size
        else t1.width != t2.width || t1.height != t2.height)
  }

  function ClashDiag(t: Type): Diag
  {
    if t.VectorType? then VectorSizeMismatch else MatrixSizeMismatch
  }

  /** The payload-free type with the dimensions of t. */
  function Bare(t: Type): Type
    requires t.VectorType? || t.MatrixType?
  {
    if t.VectorType? then VectorType(NoValue, t.size) else MatrixType(NoValue, t.width, t.height)
  }

  /** checkMatrixExprType, for `.+ .- .* ./` (the matrix-scalar branch as
      evidently intended: see MatrixScalarAsWritten). */
  function CheckMatrixExprType(t1: Type, t2: Type): (r: Rule)
    ensures r.ty.Some? <==> SameShape(t1, t2) || ((t1.VectorType? || t1.MatrixType?) && IsNumeric(t2))
    ensures r.ty == Some(UnknownType) <==> DimsClash(t1, t2)
    ensures r.log == if DimsClash(t1, t2) then [ClashDiag(t1)] else []
    ensures SameShape(t1, t2) && SomeDimUnknown(t1, t2) ==>
      r.ty == Some(if t1.VectorType? then DefaultVector else DefaultMatrix)
    ensures SameShape(t1, t2) && !SomeDimUnknown(t1, t2) && !DimsClash(t1, t2) ==>
      r.ty == Some(Bare(t1)) && Bare(t1) == Bare(t2)
    ensures t1.VectorType? && IsNumeric(t2) ==>
      r.ty == Some(if t1.size.Some? then Bare(t1) else DefaultVector)
    ensures t1.MatrixType? && IsNumeric(t2) ==>
      r.ty == Some(if t1.width.Some? && t1.height.Some? then Bare(t1) else DefaultMatrix)
  {
    if t1.VectorType? && t2.VectorType? then
      if t1.size.None? || t2.size.None? then Rule(Some(DefaultVector), [])
      else if t1.size != t2.size then Rule(Some(UnknownType), [VectorSizeMismatch])
      else Rule(Some(NewVectorType(None, t1.size)), [])
    else if t1.MatrixType? && t2.MatrixType? then
      if t1.width.None? || t2.width.None? || t1.height.None? || t2.height.None? then Rule(Some(DefaultMatrix), [])
      else if t1.width != t2.width || t1.height != t2.height then Rule(Some(UnknownType), [MatrixSizeMismatch])
      else Rule(Some(NewMatrixType(None, t1.width, t1.height)), [])
    else if t1.VectorType? && IsNumeric(t2) then
      if t1.size.Some? then Rule(Some(NewVectorType(None, t1.size)), []) else Rule(Some(DefaultVector), [])
    else if t1.MatrixType? && IsNumeric(t2) then
      if t1.width.None? || t1.height.None? then Rule(Some(DefaultMatrix), [])
      else Rule(Some(NewMatrixType(None, t1.width, t1.height)), [])
    else Rule(None, [])
  }

  /** The matrix-scalar branch of checkMatrixExprType as written: it reads
      `type2.width`, an attribute scalar types do not have, so it raises
      AttributeError unless `type1.width` is None. */
  function MatrixScalarAsWritten(t1: Type, t2: Type): (r: Checked<Option<Type>>)
    requires t1.MatrixType? && IsNumeric(t2)
    ensures r.Ok? <==> t1.width.None?
  {
    if t1.width.None? then Ok(Some(DefaultMatrix)) else Raised
  }

  /** The as-written branch raises on every matrix of known width, where
      the corrected rule keeps the matrix's dimensions. */
  lemma MatrixScalarAsWrittenRaises()
    ensures MatrixScalarAsWritten(MatrixType(NoValue, Some(2), Some(3)), IntType(Some(2))) == Raised
    ensures CheckMatrixExprType(MatrixType(NoValue, Some(2), Some(3)), IntType(Some(2)))
         == Rule(Some(MatrixType(NoValue, Some(2), Some(3))), [])
  {
  }

  /** Operands a comparison can be applied to. */
  predicate LikeShaped(t1: Type, t2: Type)
  {
    SameShape(t1, t2) || (IsNumeric(t1) && IsNumeric(t2)) || (t1.StringType? && t2.StringType?)
  }

  /** checkCompExprType: like-shaped operands always compare to an Int,
      a known dimension clash is only reported. */
  function CheckCompExprType(t1: Type, t2: Type): (r: Rule)
    ensures r.ty == if LikeShaped(t1, t2) then Some(IntType(None)) else None
    ensures r.log == if DimsClash(t1, t2) then [ClashDiag(t1)] else []
  {
    if t1.VectorType? && t2.VectorType? then
      if t1.size.Some? && t2.size.Some? && t1.size != t2.size then Rule(Some(IntType(None)), [VectorSizeMismatch])
      else Rule(Some(IntType(None)), [])
    else if t1.MatrixType? && t2.MatrixType? then
      if t1.width.Some? && t2.width.Some? && t1.height.Some? && t2.height.Some?
         && (t1.width != t2.width || t1.height != t2.height)
      then Rule(Some(IntType(None)), [MatrixSizeMismatch])
      else Rule(Some(IntType(None)), [])
    else if IsNumeric(t1) && IsNumeric(t2) then Rule(Some(IntType(None)), [])
    else if t1.StringType? && t2.StringType? then Rule(Some(IntType(None)), [])
    else Rule(None, [])
  }

  /** The operand pairs checkBasicType gives a type to. */
  predicate BasicTypable(t1: Type, t2: Type, op: Operator)
  {
    || (IsNumeric(t1) && IsNumeric(t2) && (op.Plus? || op.Minus? || op.Times? || op.Divide?))
    || (t1.StringType? && t2.StringType? && (op.Plus? || op.Times?))
  }

  /** Folding of a numeric operation that has a Float operand. */
  function FoldFloat(op: Operator, t1: Type, t2: Type): (r: Checked<Option<real>>)
    requires IsNumeric(t1) && IsNumeric(t2)
    ensures r.Raised? <==> op.Divide? && NumValue(t1).Some? && NumValue(t2) == Some(0.0)
  {
    var a, b := NumValue(t1), NumValue(t2);
    if a.None? || b.None? then Ok(None)
    else match op
      case Plus => Ok(Some(a.value + b.value))
      case Minus => Ok(Some(a.value - b.value))
      case Times => Ok(Some(a.value * b.value))
      case Divide => if b.value == 0.0 then Raised else Ok(Some(a.value / b.value))
      case _ => Ok(None)
  }

  /** Folding of an Int-Int operation (the quotient as evidently intended:
      see IntQuotientAsWritten). */
  function FoldInt(op: Operator, a: Option<int>, b: Option<int>): (r: Checked<Option<int>>)
    ensures r.Raised? <==> op.Divide? && a.Some? && b == Some(0)
  {
    if a.None? || b.None? then Ok(None)
    else match op
      case Plus => Ok(Some(a.value + b.value))
      case Minus => Ok(Some(a.value - b.value))
      case Times => Ok(Some(a.value * b.value))
      case Divide =>
        if b.value == 0 then Raised
        else if a.value % b.value == 0 then Ok(Some(a.value / b.value))
        else Ok(None)
      case _ => Ok(None)
  }

  /** checkBasicType, for `+ - * /`. */
  function CheckBasicType(t1: Type, t2: Type, op: Operator): (r: Checked<Option<Type>>)
    ensures r.Raised? <==>
      || (IsNumeric(t1) && IsNumeric(t2) && op.Divide? && NumValue(t1).Some? && NumValue(t2) == Some(0.0))
      || (t1.StringType? && t2.StringType? && op.Times? && t1.sval.Some? && t2.sval.Some?)
    ensures r.Ok? ==> (r.value.Some? <==> BasicTypable(t1, t2, op))
    ensures r.Ok? && r.value.Some? ==>
      && (r.value.value.IntType? <==> t1.IntType? && t2.IntType?)
      && (r.value.value.FloatType? <==> IsNumeric(t1) && IsNumeric(t2) && !(t1.IntType? && t2.IntType?))
      && (r.value.value.StringType? <==> t1.StringType? && t2.StringType?)
  {
    if !(op.Plus? || op.Minus? || op.Times? || op.Divide?) then Ok(None)
    else if t1.IntType? && t2.IntType? then
      match FoldInt(op, t1.ival, t2.ival)
      case Raised => Raised
      case Ok(v) => Ok(Some(IntType(v)))
    else if IsNumeric(t1) && IsNumeric(t2) then
      match FoldFloat(op, t1, t2)
      case Raised => Raised
      case Ok(v) => Ok(Some(FloatType(v)))
    else if t1.StringType? && t2.StringType? && op.Plus? then
      Ok(Some(StringType(if t1.sval.Some? && t2.sval.Some? then Some(t1.sval.value + t2.sval.value) else None)))
    else if t1.StringType? && t2.StringType? && op.Times? then
      // Python cannot multiply a str by a str.
      if t1.sval.Some? && t2.sval.Some? then Raised else Ok(Some(StringType(None)))
    else Ok(None)
  }

  /** The Int-Int quotient as written: Python's `/` is true division, so
      the value stored in the IntType is a real number. */
  function IntQuotientAsWritten(a: int, b: int): (q: real)
    requires b != 0
    ensures q * b as real == a as real
  {
    a as real / b as real
  }

  /** The as-written quotient of 1 by 2 is not an integer, yet it is
      stored as the value of an IntType; the corrected fold keeps no value. */
  lemma IntQuotientAsWrittenNotIntegral()
    ensures IntQuotientAsWritten(1, 2).Floor as real != IntQuotientAsWritten(1, 2)
    ensures CheckBasicType(IntType(Some(1)), IntType(Some(2)), Divide) == Ok(Some(IntType(None)))
  {
    assert IntQuotientAsWritten(1, 2) == 0.5;
    assert (0.5).Floor == 0;
  }

  /** Int constant folding agrees with integer arithmetic, and a folded
      quotient is exact. */
  lemma {:induction false} IntFolding(a: int, b: int, op: Operator)
    requires op.Plus? || op.Minus? || op.Times? || op.Divide?
    ensures var r := CheckBasicType(IntType(Some(a)), IntType(Some(b)), op);
      && (op.Plus? ==> r == Ok(Some(IntType(Some(a + b)))))
      && (op.Minus? ==> r == Ok(Some(IntType(Some(a - b)))))
      && (op.Times? ==> r == Ok(Some(IntType(Some(a * b)))))
      && (op.Divide? ==> (r.Raised? <==> b == 0))
      && (op.Divide? && r.Ok? ==> r.value.Some? && r.value.value.IntType?)
      && (op.Divide? && r.Ok? && r.value.value.ival.Some? ==> r.value.value.ival.value * b == a)
      && (op.Divide? && r.Ok? && r.value.value.ival.None? ==> a % b != 0)
  {
    if op.Divide? && b != 0 && a % b == 0 {
      assert a == b * (a / b) + a % b;
    }
  }

  function Finish(r: Rule): (t: Typed)
    ensures r.ty.Some? ==> t == Typed(r.ty.value, r.log)
    ensures r.ty.None? ==> t == Typed(UnknownType, r.log + [OperationNotTypable])
  {
    if r.ty.None? then Typed(UnknownType, r.log + [OperationNotTypable]) else Typed(r.ty.value, r.log)
  }

  /** The operand pairs the rule for op's class gives a type to:
      checkMatrixExprType for `.+ .- .* ./`, checkCompExprType for the
      comparisons, checkBasicType for the rest. */
  predicate Typable(t1: Type, t2: Type, op: Operator)
  {
    if op.IsElementwise() then SameShape(t1, t2) || ((t1.VectorType? || t1.MatrixType?) && IsNumeric(t2))
    else if op.IsComparison() then LikeShaped(t1, t2)
    else BasicTypable(t1, t2, op)
  }

  /** checkExprType: Unknown absorbs every operator before any rule is
      consulted; an operation no rule types is reported and becomes Unknown. */
  function CheckExprType(t1: Type, t2: Type, op: Operator): (r: Checked<Typed>)
    ensures (t1.UnknownType? || t2.UnknownType?) ==> r == Ok(Typed(UnknownType, []))
    ensures r == Ok(Typed(UnknownType, [OperationNotTypable])) <==>
              !t1.UnknownType? && !t2.UnknownType? && !Typable(t1, t2, op)
    ensures op.IsElementwise() && SameShape(t1, t2) ==>
              && (DimsClash(t1, t2) ==> r == Ok(Typed(UnknownType, [ClashDiag(t1)])))
              && (SomeDimUnknown(t1, t2) ==>
                    r == Ok(Typed(if t1.VectorType? then DefaultVector else DefaultMatrix, [])))
              && (!SomeDimUnknown(t1, t2) && !DimsClash(t1, t2) ==> r == Ok(Typed(Bare(t1), [])))
    ensures op.IsComparison() && !t1.UnknownType? && !t2.UnknownType? && LikeShaped(t1, t2) ==>
              r == Ok(Typed(IntType(None), if DimsClash(t1, t2) then [ClashDiag(t1)] else []))
    ensures !op.IsElementwise() && !op.IsComparison() && !t1.UnknownType? && !t2.UnknownType? ==>
              && (r.Raised? <==> CheckBasicType(t1, t2, op).Raised?)
              && (r.Ok? && BasicTypable(t1, t2, op) ==>
                    r.value.log == [] && Some(r.value.ty) == CheckBasicType(t1, t2, op).value)
    ensures r.Ok? ==> !r.value.ty.VoidType?
    ensures r.Ok? ==> forall k :: 0 <= k < |r.value.log| ==>
              r.value.log[k] in {VectorSizeMismatch, MatrixSizeMismatch, OperationNotTypable}
  {
    if t1.UnknownType? || t2.UnknownType? then Ok(Typed(UnknownType, []))
    else if op.IsElementwise() then
      var m := CheckMatrixExprType(t1, t2);
      assert m.log != [OperationNotTypable] by { assert ClashDiag(t1) != OperationNotTypable; }
      assert m.ty.None? ==> m.log + [OperationNotTypable] == [OperationNotTypable];
      Ok(Finish(m))
    else if op.IsComparison() then
      var c := CheckCompExprType(t1, t2);
      assert c.ty.None? ==> c.log + [OperationNotTypable] == [OperationNotTypable];
      Ok(Finish(c))
    else match CheckBasicType(t1, t2, op)
      case Raised => Raised
      case Ok(t) =>
        assert [] + [OperationNotTypable] == [OperationNotTypable];
        Ok(Finish(Rule(t, [])))
  }
}
