/** The abstract syntax the checker and the evaluator dispatch on
    (ConstValueNode, IdNode, AccessNode, ExpressionNode, ...). Source line
    numbers are not kept: diagnostics are modelled by their kind only. */
module Ast {

  datatype Literal = IntLit(i: int) | FloatLit(r: real) | StringLit(s: string)

  /** The operator strings of ExpressionNode and ConditionNode. */
  datatype Operator =
    | Plus | Minus | Times | Divide
    | DotPlus | DotMinus | DotTimes | DotDivide
    | Eq | Ne | Ge | Le | Gt | Lt
  {
    /** `.+ .- .* ./` */
    predicate IsElementwise() { DotPlus? || DotMinus? || DotTimes? || DotDivide? }
    /** `== != >= <= > <` */
    predicate IsComparison() { Eq? || Ne? || Ge? || Le? || Gt? || Lt? }
  }

  /** The operator strings of AssignmentNode. */
  datatype AssignOp = Assign | PlusAssign | MinusAssign | TimesAssign | DivideAssign
  {
    /** `node.operator[0]`: the arithmetic operator of a compound assignment. */
    function Arith(): Operator
      requires !Assign?
    {
      match this
      case PlusAssign => Plus
      case MinusAssign => Minus
      case TimesAssign => Times
      case DivideAssign => Divide
    }
  }

  /** The built-in matrix constructors of FunctionNode. */
  datatype FunName = Zeros | Ones | Eye

  datatype Expr =
    | Const(lit: Literal)
    | Id(name: string)
    | Access(id: string, specifier: seq<Expr>)
    | Expression(left: Expr, op: Operator, right: Expr)
    | Transposition(value: Expr)
    | Negation(value: Expr)
    | Function(fn: FunName, argument: Expr)
    | Matrix(rows: seq<Expr>)   // each row is a Sequence node
    | Sequence(values: seq<Expr>)

  /** ConditionNode: the grammar only uses it as an if or while condition. */
  datatype Cond = Condition(left: Expr, op: Operator, right: Expr)

  /** RangeNode; the parser supplies the constant 1 when no step is written. */
  datatype Range = Range(start: Expr, end: Expr, jump: Expr)

  /** AssignToNode: a plain identifier or an AccessNode. */
  datatype Target = TargetId(name: string) | TargetAccess(id: string, specifier: seq<Expr>)

  datatype Stmt =
    | Assignment(left: Target, op: AssignOp, right: Expr)
    | For(id: string, range: Range, body: Stmt)
    | While(condition: Cond, body: Stmt)
    | If(condition: Cond, body: Stmt)
    | IfElse(condition: Cond, body: Stmt, elseBody: Stmt)
    | Break
    | Continue
    | Return(result: Expr)
    | Print(printable: seq<Expr>)
    | Block(instructions: seq<Stmt>)

  datatype Program = Program(instructions: seq<Stmt>)
}
