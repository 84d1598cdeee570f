/** The Interpreter visit cases as functions of a state (the memory
    stack and what has been printed), and the Interpreter object whose
    methods are proved against them. break, continue and return, which
    the source raises as exceptions, are signals; any other exception is
    Fault. A while loop runs on fuel: one unit per iteration. */
module Interp {
  import opened Base
  import opened Ast
  import opened Scopes
  import opened PyValues

  /** MemoryStack.push() takes no name; every frame it pushes gets this tag. */
  const FrameTag: string := "frame"

  datatype Signal = Normal | BreakSig | ContinueSig | ReturnSig(value: Value) | Fault | OutOfFuel

  /** The memory stack and the printed lines, one list of values per print. */
  datatype State = State(env: Env<Value>, out: seq<seq<Value>>)

  datatype Outcome = Outcome(signal: Signal, st: State)

  /** MemoryStack.get: the innermost binding, None for a name never bound. */
  function Get(env: Env<Value>, name: string): (v: Value)
    requires Wf(env)
    ensures Lookup(env, name).Some? ==> v == Lookup(env, name).value
    ensures Lookup(env, name).None? ==> v == VNone
  {
    match Lookup(env, name)
    case Some(v) => v
    case None => VNone
  }

  /** The ConstValueNode visit: an int, a float or a str literal is a value of that kind. */
  function LiteralValue(lit: Literal): (v: Value)
    ensures lit.IntLit? <==> v.VInt?
    ensures lit.FloatLit? <==> v.VFloat?
    ensures lit.StringLit? <==> v.VStr?
    ensures lit.IntLit? ==> v.i == lit.i
    ensures lit.FloatLit? ==> v.r == lit.r
    ensures lit.StringLit? ==> v.s == lit.s
  {
    match lit
    case IntLit(i) => VInt(i)
    case FloatLit(r) => VFloat(r)
    case StringLit(s) => VStr(s)
  }

  /** The visit cases for expressions. */
  function Eval(e: Expr, env: Env<Value>): (r: Checked<Value>)
    requires Wf(env)
    ensures e.Const? ==> r == Ok(LiteralValue(e.lit))
    ensures e.Id? ==> r == Ok(Get(env, e.name))
    decreases e, 1
  {
    match e
    case Const(lit) => Ok(LiteralValue(lit))
    case Id(name) => Ok(Get(env, name))
    case Access(id, specifier) =>
      (match EvalAll(specifier, env)
       case Raised => Raised
       case Ok(idx) => Subscripts(Get(env, id), idx))
    case Expression(left, op, right) =>
      (match Eval(left, env)
       case Raised => Raised
       case Ok(x) =>
         match Eval(right, env)
         case Raised => Raised
         case Ok(y) => BinOp(op, x, y))
    case Transposition(value) =>
      (match Eval(value, env)
       case Raised => Raised
       case Ok(v) => Transpose(v))
    case Negation(value) =>
      (match Eval(value, env)
       case Raised => Raised
       case Ok(v) => Neg(v))
    case Function(fn, argument) =>
      (match Eval(argument, env)
       case Raised => Raised
       case Ok(v) => Construct(fn, v))
    case Matrix(rows) =>
      (match EvalAll(rows, env)
       case Raised => Raised
       case Ok(vs) => Ok(VList(vs)))
    case Sequence(values) =>
      (match EvalAll(values, env)
       case Raised => Raised
       case Ok(vs) => Ok(VList(vs)))
  }

  /**
   * What the other visit cases give: a comparison operator in an expression
   * raises, a matrix or vector literal evaluates iff all its elements do,
   * and literals, function calls and transpositions make lists, negations
   * numbers.
   */
  lemma EvalCases(e: Expr, env: Env<Value>)
    requires Wf(env)
    ensures e.Expression? && e.op.IsComparison() ==> Eval(e, env).Raised?
    ensures e.Matrix? ==> (Eval(e, env).Ok? <==> EvalAll(e.rows, env).Ok?)
    ensures e.Sequence? ==> (Eval(e, env).Ok? <==> EvalAll(e.values, env).Ok?)
    ensures Eval(e, env).Ok? && (e.Matrix? || e.Sequence? || e.Function? || e.Transposition?) ==>
              Eval(e, env).value.VList?
    ensures Eval(e, env).Ok? && e.Negation? ==> IsNumber(Eval(e, env).value)
  {
  }

  /** The Matrix and Sequence visits' loops: the values in order. */
  function EvalAll(es: seq<Expr>, env: Env<Value>): (r: Checked<seq<Value>>)
    requires Wf(env)
    ensures r.Ok? ==> |r.value| == |es| && forall k :: 0 <= k < |es| ==> Eval(es[k], env) == Ok(r.value[k])
    ensures r.Raised? <==> exists k :: 0 <= k < |es| && Eval(es[k], env).Raised?
    decreases es, 0
  {
    if es == [] then Ok([])
    else match Eval(es[0], env)
      case Raised => Raised
      case Ok(v) =>
        match EvalAll(es[1..], env)
        case Raised =>
          var k :| 0 <= k < |es[1..]| && Eval(es[1..][k], env).Raised?;
          assert Eval(es[k + 1], env).Raised?;
          Raised
        case Ok(rest) => Ok([v] + rest)
  }

  /** The Condition visit. */
  function EvalCond(c: Cond, env: Env<Value>): (r: Checked<bool>)
    requires Wf(env)
  {
    match Eval(c.left, env)
    case Raised => Raised
    case Ok(x) =>
      match Eval(c.right, env)
      case Raised => Raised
      case Ok(y) => PyValues.Condition(c.op, x, y)
  }

  /** A condition raises when an operand does or when its operator is not a
      comparison; `==` and `!=` compare the operand values with PyEq, and
      `< <= > >=` order them as PyValues.Order does. */
  lemma EvalCondCases(c: Cond, env: Env<Value>)
    requires Wf(env)
    ensures Eval(c.left, env).Raised? || Eval(c.right, env).Raised? ==> EvalCond(c, env).Raised?
    ensures !c.op.IsComparison() ==> EvalCond(c, env).Raised?
    ensures Eval(c.left, env).Ok? && Eval(c.right, env).Ok? && c.op.Eq? ==>
              EvalCond(c, env) == Ok(PyEq(Eval(c.left, env).value, Eval(c.right, env).value))
    ensures Eval(c.left, env).Ok? && Eval(c.right, env).Ok? && c.op.Ne? ==>
              EvalCond(c, env) == Ok(!PyEq(Eval(c.left, env).value, Eval(c.right, env).value))
    ensures Eval(c.left, env).Ok? && Eval(c.right, env).Ok? && c.op in {Lt, Le, Gt, Ge} ==>
              EvalCond(c, env) == Order(c.op, Eval(c.left, env).value, Eval(c.right, env).value)
  {
  }

  /** The Range visit: `range(start, end + 1, jump)`. */
  function EvalRange(rng: Range, env: Env<Value>): (r: Checked<seq<int>>)
    requires Wf(env)
    ensures r.Ok? <==> && Eval(rng.start, env).Ok? && Eval(rng.end, env).Ok? && Eval(rng.jump, env).Ok?
                       && Eval(rng.start, env).value.VInt? && Eval(rng.end, env).value.VInt?
                       && Eval(rng.jump, env).value.VInt? && Eval(rng.jump, env).value.i != 0
    ensures r.Ok? ==>
              var a, b, c := Eval(rng.start, env).value.i, Eval(rng.end, env).value.i, Eval(rng.jump, env).value.i;
              && r.value == RangeSeq(a, b + 1, c)
              && (c > 0 ==> forall k :: 0 <= k < |r.value| ==> a <= r.value[k] <= b)
  {
    match Eval(rng.start, env)
    case Raised => Raised
    case Ok(a) =>
      match Eval(rng.end, env)
      case Raised => Raised
      case Ok(b) =>
        match Eval(rng.jump, env)
        case Raised => Raised
        case Ok(c) => RangeValues(a, b, c)
  }

  function Push(st: State): (r: State)
    requires Wf(st.env)
    ensures Wf(r.env) && r.env.current == st.env.current + 1 && r.out == st.out
  {
    State(PushFrame(st.env, FrameTag), st.out)
  }

  function Pop(st: State): (r: State)
    requires Wf(st.env) && st.env.current >= 0
    ensures Wf(r.env) && r.env.current == st.env.current - 1 && r.out == st.out
  {
    State(PopFrame(st.env), st.out)
  }

  /** MemoryStack.insert: rebind where bound, else bind in the top frame. */
  function Insert(st: State, name: string, v: Value): (r: State)
    requires Wf(st.env) && st.env.current >= 0
    ensures Wf(r.env) && r.env.current == st.env.current && r.out == st.out
  {
    State(Rebind(st.env, name, v), st.out)
  }

  /** The visit cases for statements. Only a for or a while catches a
      signal; an if or if-else that a signal leaves skips its pop. */
  function Exec(s: Stmt, st: State, fuel: nat): (o: Outcome)
    requires Wf(st.env) && st.env.current >= 0
    ensures Wf(o.st.env) && o.st.env.current >= st.env.current
    ensures st.out <= o.st.out
    decreases fuel, s, 1
  {
    match s
    case Assignment(left, op, right) => StoreAssignment(left, op, right, st)
    case For(id, rng, body) => StartFor(id, rng, body, st, fuel)
    case While(cond, body) => WhileIter(cond, body, Push(st), fuel)
    case If(cond, body) => IfThen(cond, body, st, fuel)
    case IfElse(cond, body, elseBody) => IfThenElse(cond, body, elseBody, st, fuel)
    case Break => Outcome(BreakSig, st)
    case Continue => Outcome(ContinueSig, st)
    case Return(result) => ReturnValue(result, st)
    case Print(printable) => PrintValues(printable, st)
    case Block(instructions) => ExecAll(instructions, st, fuel)
  }

  /** The Assignment visit. The left side is read first; an AccessNode
      target has no `value`, so an indexed assignment raises before its
      right side is evaluated. */
  function StoreAssignment(left: Target, op: AssignOp, right: Expr, st: State): (o: Outcome)
    requires Wf(st.env) && st.env.current >= 0
    ensures Wf(o.st.env) && o.st.env.current == st.env.current && o.st.out == st.out
    ensures o.signal.Normal? || o == Outcome(Fault, st)
  {
    if left.TargetAccess? then Outcome(Fault, st)
    else
      match Eval(right, st.env)
      case Raised => Outcome(Fault, st)
      case Ok(y) =>
        match AssignValue(op, Get(st.env, left.name), y)
        case Raised => Outcome(Fault, st)
        case Ok(v) => Outcome(Normal, Insert(st, left.name, v))
  }

  /** The For visit: push, evaluate the range in the new frame, iterate. */
  function StartFor(id: string, rng: Range, body: Stmt, st: State, fuel: nat): (o: Outcome)
    requires Wf(st.env) && st.env.current >= 0
    ensures Wf(o.st.env) && o.st.env.current >= st.env.current
    ensures st.out <= o.st.out
    decreases fuel, body, 3
  {
    var inner := Push(st);
    match EvalRange(rng, inner.env)
    case Raised => Outcome(Fault, inner)
    case Ok(elems) => ForIter(id, elems, body, inner, fuel)
  }

  /** The If visit: push, test, run the body if it holds, pop. */
  function IfThen(cond: Cond, body: Stmt, st: State, fuel: nat): (o: Outcome)
    requires Wf(st.env) && st.env.current >= 0
    ensures Wf(o.st.env) && o.st.env.current >= st.env.current
    ensures st.out <= o.st.out
    decreases fuel, body, 2
  {
    var inner := Push(st);
    match EvalCond(cond, inner.env)
    case Raised => Outcome(Fault, inner)
    case Ok(b) => if b then PopIfNormal(Exec(body, inner, fuel)) else Outcome(Normal, Pop(inner))
  }

  /** The IfElse visit: push, test, run one branch, pop. */
  function IfThenElse(cond: Cond, body: Stmt, elseBody: Stmt, st: State, fuel: nat): (o: Outcome)
    requires Wf(st.env) && st.env.current >= 0
    ensures Wf(o.st.env) && o.st.env.current >= st.env.current
    ensures st.out <= o.st.out
    decreases fuel, IfElse(cond, body, elseBody), 0
  {
    var inner := Push(st);
    match EvalCond(cond, inner.env)
    case Raised => Outcome(Fault, inner)
    case Ok(b) => PopIfNormal(if b then Exec(body, inner, fuel) else Exec(elseBody, inner, fuel))
  }

  /** The Return visit: the value travels up as a signal. */
  function ReturnValue(result: Expr, st: State): (o: Outcome)
    requires Wf(st.env)
    ensures o.st == st && (o.signal.ReturnSig? || o.signal.Fault?)
  {
    match Eval(result, st.env)
    case Raised => Outcome(Fault, st)
    case Ok(v) => Outcome(ReturnSig(v), st)
  }

  /** The Print visit: one more line, holding the printed values. */
  function PrintValues(printable: seq<Expr>, st: State): (o: Outcome)
    requires Wf(st.env)
    ensures o.st.env == st.env && (o.signal.Normal? || o == Outcome(Fault, st))
    ensures o.signal.Normal? ==> |o.st.out| == |st.out| + 1 && o.st.out[..|st.out|] == st.out
  {
    match EvalAll(printable, st.env)
    case Raised => Outcome(Fault, st)
    case Ok(vs) => Outcome(Normal, State(st.env, st.out + [vs]))
  }

  /** The pop after an if body, reached only when the body ends normally. */
  function PopIfNormal(o: Outcome): (r: Outcome)
    requires Wf(o.st.env) && o.st.env.current >= 1
    ensures Wf(r.st.env) && r.st.out == o.st.out && r.signal == o.signal
    ensures r.st.env.current == if o.signal.Normal? then o.st.env.current - 1 else o.st.env.current
    ensures !o.signal.Normal? ==> r == o
  {
    if o.signal.Normal? then Outcome(Normal, Pop(o.st)) else o
  }

  /** The for loop over the remaining range elements, in the frame pushed
      at entry: continue goes on, break pops and ends the loop, a return
      ends it without popping; the values returned are dropped. */
  function ForIter(id: string, elems: seq<int>, body: Stmt, st: State, fuel: nat): (o: Outcome)
    requires Wf(st.env) && st.env.current >= 1
    ensures Wf(o.st.env) && o.st.env.current >= st.env.current - 1
    ensures st.out <= o.st.out
    decreases fuel, body, 2, |elems|, 1
  {
    if elems == [] then Outcome(Normal, Pop(st))
    else ForNext(id, elems, body, Exec(body, Insert(st, id, VInt(elems[0])), fuel), fuel)
  }

  /** After the body ran for the first remaining element. */
  function ForNext(id: string, elems: seq<int>, body: Stmt, o: Outcome, fuel: nat): (r: Outcome)
    requires Wf(o.st.env) && o.st.env.current >= 1 && elems != []
    ensures Wf(r.st.env) && r.st.env.current >= o.st.env.current - 1
    ensures o.st.out <= r.st.out
    decreases fuel, body, 2, |elems|, 0
  {
    if o.signal.Normal? || o.signal.ContinueSig? then ForIter(id, elems[1..], body, o.st, fuel)
    else LoopExit(o)
  }

  /** How a loop ends on a signal other than continue: break pops the
      loop's frame, a return ends the loop without popping, and a fault
      or running out of fuel goes on up. */
  function LoopExit(o: Outcome): (r: Outcome)
    requires Wf(o.st.env) && o.st.env.current >= 1
    ensures Wf(r.st.env) && r.st.env.current >= o.st.env.current - 1 && r.st.out == o.st.out
  {
    match o.signal
    case BreakSig => Outcome(Normal, Pop(o.st))
    case ReturnSig(_) => Outcome(Normal, o.st)
    case _ => o
  }

  /** The while loop, at most `fuel` more iterations: each iteration
      tests the condition and, when it holds, runs the body once. */
  function WhileIter(cond: Cond, body: Stmt, st: State, fuel: nat): (o: Outcome)
    requires Wf(st.env) && st.env.current >= 1
    ensures Wf(o.st.env) && o.st.env.current >= st.env.current - 1
    ensures st.out <= o.st.out
    decreases fuel, body, 3
  {
    if fuel == 0 then Outcome(OutOfFuel, st)
    else match EvalCond(cond, st.env)
      case Raised => Outcome(Fault, st)
      case Ok(false) => Outcome(Normal, Pop(st))
      case Ok(true) => WhileBody(cond, body, st, fuel)
  }

  /** An iteration of the while loop whose condition held. */
  function WhileBody(cond: Cond, body: Stmt, st: State, fuel: nat): (o: Outcome)
    requires Wf(st.env) && st.env.current >= 1 && fuel > 0
    ensures Wf(o.st.env) && o.st.env.current >= st.env.current - 1
    ensures st.out <= o.st.out
    decreases fuel, body, 2
  {
    WhileNext(cond, body, Exec(body, st, fuel), fuel)
  }

  /** After the body: normal or continue goes round again, anything else
      ends the loop. */
  function WhileNext(cond: Cond, body: Stmt, o: Outcome, fuel: nat): (r: Outcome)
    requires Wf(o.st.env) && o.st.env.current >= 1 && fuel > 0
    ensures Wf(r.st.env) && r.st.env.current >= o.st.env.current - 1
    ensures o.st.out <= r.st.out
    decreases fuel, body, 1
  {
    if o.signal.Normal? || o.signal.ContinueSig? then WhileIter(cond, body, o.st, fuel - 1)
    else LoopExit(o)
  }

  /** The instruction loop of the Program and Block visits (neither pushes). */
  function ExecAll(ss: seq<Stmt>, st: State, fuel: nat): (o: Outcome)
    requires Wf(st.env) && st.env.current >= 0
    ensures Wf(o.st.env) && o.st.env.current >= st.env.current
    ensures st.out <= o.st.out
    decreases fuel, ss, 1
  {
    if ss == [] then Outcome(Normal, st)
    else
      var o := Exec(ss[0], st, fuel);
      if o.signal.Normal? then ExecAll(ss[1..], o.st, fuel) else o
  }

  /** A run of a program on a fresh Interpreter. */
  function Run(p: Program, fuel: nat): (o: Outcome)
    ensures Wf(o.st.env) && o.st.env.current >= 0
    ensures NoJumpsAll(p.instructions) ==>
              && (o.signal.Normal? || o.signal.Fault? || o.signal.OutOfFuel?)
              && (o.signal.Normal? ==> o.st.env.current == 0)
  {
    var st := State(Initial(), []);
    if NoJumpsAll(p.instructions) then
      BalancedDepthAll(p.instructions, st, fuel);
      ExecAll(p.instructions, st, fuel)
    else ExecAll(p.instructions, st, fuel)
  }

  // ----- properties of the statement semantics -----

  /** No break, continue or return anywhere inside. */
  predicate NoJumps(s: Stmt)
    decreases s
  {
    match s
    case For(_, _, body) => NoJumps(body)
    case While(_, body) => NoJumps(body)
    case If(_, body) => NoJumps(body)
    case IfElse(_, body, elseBody) => NoJumps(body) && NoJumps(elseBody)
    case Break => false
    case Continue => false
    case Return(_) => false
    case Block(instructions) => NoJumpsAll(instructions)
    case _ => true
  }

  predicate NoJumpsAll(ss: seq<Stmt>)
    decreases ss
  {
    forall k :: 0 <= k < |ss| ==> NoJumps(ss[k])
  }

  /** Without break, continue or return the frames balance: a statement
      raises no signal, and one that ends normally leaves the memory
      stack exactly as deep as it found it. */
  lemma {:induction false} BalancedDepth(s: Stmt, st: State, fuel: nat)
    requires Wf(st.env) && st.env.current >= 0 && NoJumps(s)
    ensures var o := Exec(s, st, fuel);
      && (o.signal.Normal? || o.signal.Fault? || o.signal.OutOfFuel?)
      && (o.signal.Normal? ==> o.st.env.current == st.env.current)
    decreases fuel, s, 1
  {
    match s
    case For(id, rng, body) =>
      var inner := Push(st);
      if EvalRange(rng, inner.env).Ok? {
        BalancedDepthFor(id, EvalRange(rng, inner.env).value, body, inner, fuel);
      }
    case While(cond, body) => BalancedDepthWhile(cond, body, Push(st), fuel);
    case If(cond, body) =>
      var inner := Push(st);
      if EvalCond(cond, inner.env) == Ok(true) {
        BalancedDepth(body, inner, fuel);
      }
    case IfElse(cond, body, elseBody) =>
      var inner := Push(st);
      if EvalCond(cond, inner.env).Ok? {
        BalancedDepth(if EvalCond(cond, inner.env).value then body else elseBody, inner, fuel);
      }
    case Block(instructions) => BalancedDepthAll(instructions, st, fuel);
    case _ =>
  }

  lemma {:induction false} BalancedDepthFor(id: string, elems: seq<int>, body: Stmt, st: State, fuel: nat)
    requires Wf(st.env) && st.env.current >= 1 && NoJumps(body)
    ensures var o := ForIter(id, elems, body, st, fuel);
      && (o.signal.Normal? || o.signal.Fault? || o.signal.OutOfFuel?)
      && (o.signal.Normal? ==> o.st.env.current == st.env.current - 1)
    decreases fuel, body, 2, |elems|, 1
  {
    if elems != [] {
      ForIterStep(id, elems, body, st, fuel);
      var bound := Insert(st, id, VInt(elems[0]));
      BalancedDepth(body, bound, fuel);
      BalancedDepthForNext(id, elems, body, Exec(body, bound, fuel), fuel);
    }
  }

  /** The rest of a for loop after a body that raised no signal. */
  lemma {:induction false} BalancedDepthForNext(id: string, elems: seq<int>, body: Stmt, o: Outcome, fuel: nat)
    requires Wf(o.st.env) && o.st.env.current >= 1 && NoJumps(body) && elems != []
    requires o.signal.Normal? || o.signal.Fault? || o.signal.OutOfFuel?
    ensures var r := ForNext(id, elems, body, o, fuel);
      && (r.signal.Normal? || r.signal.Fault? || r.signal.OutOfFuel?)
      && (r.signal.Normal? ==> r.st.env.current == o.st.env.current - 1)
    decreases fuel, body, 2, |elems|, 0
  {
    if o.signal.Normal? {
      assert ForNext(id, elems, body, o, fuel) == ForIter(id, elems[1..], body, o.st, fuel);
      BalancedDepthFor(id, elems[1..], body, o.st, fuel);
    } else {
      assert ForNext(id, elems, body, o, fuel) == o;
    }
  }

  lemma {:induction false} BalancedDepthWhile(cond: Cond, body: Stmt, st: State, fuel: nat)
    requires Wf(st.env) && st.env.current >= 1 && NoJumps(body)
    ensures var o := WhileIter(cond, body, st, fuel);
      && (o.signal.Normal? || o.signal.Fault? || o.signal.OutOfFuel?)
      && (o.signal.Normal? ==> o.st.env.current == st.env.current - 1)
    decreases fuel, body, 3
  {
    if fuel > 0 && EvalCond(cond, st.env) == Ok(true) {
      BalancedDepth(body, st, fuel);
      assert WhileIter(cond, body, st, fuel) == WhileBody(cond, body, st, fuel);
      BalancedDepthWhileNext(cond, body, Exec(body, st, fuel), fuel);
    }
  }

  /** The rest of a while loop after a body that raised no signal. */
  lemma {:induction false} BalancedDepthWhileNext(cond: Cond, body: Stmt, o: Outcome, fuel: nat)
    requires Wf(o.st.env) && o.st.env.current >= 1 && NoJumps(body) && fuel > 0
    requires o.signal.Normal? || o.signal.Fault? || o.signal.OutOfFuel?
    ensures var r := WhileNext(cond, body, o, fuel);
      && (r.signal.Normal? || r.signal.Fault? || r.signal.OutOfFuel?)
      && (r.signal.Normal? ==> r.st.env.current == o.st.env.current - 1)
    decreases fuel, body, 2
  {
    if o.signal.Normal? {
      BalancedDepthWhile(cond, body, o.st, fuel - 1);
    }
  }

  lemma {:induction false} BalancedDepthAll(ss: seq<Stmt>, st: State, fuel: nat)
    requires Wf(st.env) && st.env.current >= 0 && NoJumpsAll(ss)
    ensures var o := ExecAll(ss, st, fuel);
      && (o.signal.Normal? || o.signal.Fault? || o.signal.OutOfFuel?)
      && (o.signal.Normal? ==> o.st.env.current == st.env.current)
    decreases fuel, ss, 1
  {
    if ss != [] {
      assert NoJumps(ss[0]);
      BalancedDepth(ss[0], st, fuel);
      var o := Exec(ss[0], st, fuel);
      if o.signal.Normal? {
        assert NoJumpsAll(ss[1..]) by {
          forall k | 0 <= k < |ss[1..]| ensures NoJumps(ss[1..][k]) {
            assert ss[1..][k] == ss[k + 1];
          }
        }
        BalancedDepthAll(ss[1..], o.st, fuel);
      }
    }
  }

  function IntConst(i: int): Expr { Const(IntLit(i)) }

  /** `for i = 1:1 { if (1 == 1) { break; } }`: the break leaves the if
      without its pop, so the loop ends one frame deeper than it began.
      An instance of IfBreaks (the if passes the signal on from inside its
      frame) and of Loops.ForStopsAt (a break ends the loop with one pop). */
  lemma BreakThroughIfLeaksFrame(st: State, fuel: nat)
    requires Wf(st.env) && st.env.current >= 0
    ensures var o := Exec(For("i", OneToOne(), If(Condition(IntConst(1), Eq, IntConst(1)), Break)), st, fuel);
      o.signal == Normal && o.st.env.current == st.env.current + 1 && o.st.out == st.out
  {
    var inner := Push(st);
    OneToOneRange(inner.env);
    var bound := Insert(inner, "i", VInt(1));
    var inner2 := Push(bound);
    var body := If(Condition(IntConst(1), Eq, IntConst(1)), Break);
    ExecForCase("i", OneToOne(), body, st, fuel);
    ForIterStep("i", [1], body, inner, fuel);
    OneEqualsOne(inner2.env);
    IfBreaks(Condition(IntConst(1), Eq, IntConst(1)), bound, fuel);
    assert ForNext("i", [1], body, Outcome(BreakSig, inner2), fuel) == Outcome(Normal, Pop(inner2));
  }

  /** An if whose condition holds and whose body is break passes the
      signal on from inside its own frame. */
  lemma IfBreaks(cond: Cond, st: State, fuel: nat)
    requires Wf(st.env) && st.env.current >= 0 && EvalCond(cond, Push(st).env) == Ok(true)
    ensures Exec(If(cond, Break), st, fuel) == Outcome(BreakSig, Push(st))
  {
    assert Exec(If(cond, Break), st, fuel) == IfThen(cond, Break, st, fuel);
    assert Exec(Break, Push(st), fuel) == Outcome(BreakSig, Push(st));
  }

  /** `1 == 1` holds. */
  lemma OneEqualsOne(env: Env<Value>)
    requires Wf(env)
    ensures EvalCond(Condition(IntConst(1), Eq, IntConst(1)), env) == Ok(true)
  {
    assert Eval(IntConst(1), env) == Ok(VInt(1));
  }

  /** `1:1`, the range of a single step. */
  function OneToOne(): Range { Range(IntConst(1), IntConst(1), IntConst(1)) }

  /** `1:1` evaluates to the single step 1: the instance a = b = 1 of
      PyValues.InclusiveRange. */
  lemma OneToOneRange(env: Env<Value>)
    requires Wf(env)
    ensures EvalRange(OneToOne(), env) == Ok([1])
  {
    assert RangeSeq(2, 2, 1) == [];
    assert RangeSeq(1, 2, 1) == [1] + RangeSeq(2, 2, 1);
    assert EvalRange(OneToOne(), env).value == [1];
  }

  /** `for i = 1:1 { return 0; }`: the return ends the loop, but neither
      leaves the enclosing statements nor pops the loop's frame. An
      instance of Loops.ForStopsAt (a return ends the loop normally with
      no pop). */
  lemma ReturnInForLeaksFrame(st: State, fuel: nat)
    requires Wf(st.env) && st.env.current >= 0
    ensures var o := Exec(For("i", OneToOne(), Return(IntConst(0))), st, fuel);
      o.signal == Normal && o.st.env.current == st.env.current + 1 && Get(o.st.env, "i") == VInt(1)
  {
    var inner := Push(st);
    OneToOneRange(inner.env);
    var bound := Insert(inner, "i", VInt(1));
    ExecForCase("i", OneToOne(), Return(IntConst(0)), st, fuel);
    ForIterStep("i", [1], Return(IntConst(0)), inner, fuel);
    assert Exec(Return(IntConst(0)), bound, fuel) == Outcome(ReturnSig(VInt(0)), bound);
    assert ForNext("i", [1], Return(IntConst(0)), Outcome(ReturnSig(VInt(0)), bound), fuel) == Outcome(Normal, bound);
  }

  /** The lines `print i` writes for i ranging over elems. */
  function Printed(elems: seq<int>): (r: seq<seq<Value>>)
    ensures |r| == |elems| && forall k :: 0 <= k < |elems| ==> r[k] == [VInt(elems[k])]
  {
    if elems == [] then [] else [[VInt(elems[0])]] + Printed(elems[1..])
  }

  /** The lines for a non-empty range: its first element's, then the rest. */
  lemma PrintedAppend(out: seq<seq<Value>>, elems: seq<int>)
    requires elems != []
    ensures out + [[VInt(elems[0])]] + Printed(elems[1..]) == out + Printed(elems)
  {
    assert Printed(elems) == [[VInt(elems[0])]] + Printed(elems[1..]);
  }

  /** One iteration of the for loop over a non-empty remainder. */
  lemma ForIterStep(id: string, elems: seq<int>, body: Stmt, st: State, fuel: nat)
    requires Wf(st.env) && st.env.current >= 1 && elems != []
    ensures ForIter(id, elems, body, st, fuel) == ForNext(id, elems, body, Exec(body, Insert(st, id, VInt(elems[0])), fuel), fuel)
  {
  }

  /** `print id;` appends the one-value line holding id's value. */
  lemma PrintStep(id: string, st: State, fuel: nat)
    requires Wf(st.env) && st.env.current >= 0
    ensures Exec(Print([Id(id)]), st, fuel) == Outcome(Normal, State(st.env, st.out + [[Get(st.env, id)]]))
  {
    assert EvalAll([Id(id)], st.env).value == [Get(st.env, id)];
  }

  /** `body` ends normally or with continue, having appended the line
      holding id's value and changed nothing else. */
  ghost predicate PrintsVariable(body: Stmt, id: string, fuel: nat)
  {
    forall st: State {:trigger Exec(body, st, fuel)} :: Wf(st.env) && st.env.current >= 0 ==>
      && (Exec(body, st, fuel).signal.Normal? || Exec(body, st, fuel).signal.ContinueSig?)
      && Exec(body, st, fuel).st == State(st.env, st.out + [[Get(st.env, id)]])
  }

  /** One iteration of a for loop whose body prints its variable. */
  lemma ForPrintsStep(id: string, elems: seq<int>, body: Stmt, st: State, fuel: nat)
    requires Wf(st.env) && st.env.current >= 1 && PrintsVariable(body, id, fuel) && elems != []
    ensures var bound := Insert(st, id, VInt(elems[0]));
      ForIter(id, elems, body, st, fuel) == ForIter(id, elems[1..], body, State(bound.env, st.out + [[VInt(elems[0])]]), fuel)
  {
    var bound := Insert(st, id, VInt(elems[0]));
    assert Get(bound.env, id) == VInt(elems[0]);
    assert Exec(body, bound, fuel).st == State(bound.env, st.out + [[VInt(elems[0])]]);
    ForIterStep(id, elems, body, st, fuel);
  }

  /** A for loop whose body prints its variable prints each remaining
      range element once, in order, and pops its frame. */
  lemma {:induction false} ForPrintsEach(id: string, elems: seq<int>, body: Stmt, st: State, fuel: nat)
    requires Wf(st.env) && st.env.current >= 1 && PrintsVariable(body, id, fuel)
    ensures var o := ForIter(id, elems, body, st, fuel);
      o.signal == Normal && o.st.env.current == st.env.current - 1 && o.st.out == st.out + Printed(elems)
    decreases elems
  {
    if elems != [] {
      var bound := Insert(st, id, VInt(elems[0]));
      var next := State(bound.env, st.out + [[VInt(elems[0])]]);
      ForPrintsStep(id, elems, body, st, fuel);
      ForPrintsEach(id, elems[1..], body, next, fuel);
      PrintedAppend(st.out, elems);
    }
  }

  /** The for statement: push, evaluate the range, iterate. */
  lemma ExecForCase(id: string, rng: Range, body: Stmt, st: State, fuel: nat)
    requires Wf(st.env) && st.env.current >= 0
    ensures var inner := Push(st);
      Exec(For(id, rng, body), st, fuel) ==
        if EvalRange(rng, inner.env).Ok? then ForIter(id, EvalRange(rng, inner.env).value, body, inner, fuel)
        else Outcome(Fault, inner)
  {
  }

  /** The while statement: push, then iterate. */
  lemma ExecWhileCase(cond: Cond, body: Stmt, st: State, fuel: nat)
    requires Wf(st.env) && st.env.current >= 0
    ensures Exec(While(cond, body), st, fuel) == WhileIter(cond, body, Push(st), fuel)
  {
  }

  /** The if statement: push, test, run the body if the test holds. */
  lemma ExecIfCase(cond: Cond, body: Stmt, st: State, fuel: nat)
    requires Wf(st.env) && st.env.current >= 0
    ensures Exec(If(cond, body), st, fuel) == IfThen(cond, body, st, fuel)
  {
  }

  /** The if-else statement: push, test, run the chosen branch, pop if it
      ended normally. */
  lemma IfThenElseSteps(cond: Cond, body: Stmt, elseBody: Stmt, st: State, fuel: nat)
    requires Wf(st.env) && st.env.current >= 0
    ensures EvalCond(cond, Push(st).env).Raised? ==>
              IfThenElse(cond, body, elseBody, st, fuel) == Outcome(Fault, Push(st))
    ensures EvalCond(cond, Push(st).env).Ok? ==>
              IfThenElse(cond, body, elseBody, st, fuel) ==
              PopIfNormal(if EvalCond(cond, Push(st).env).value then Exec(body, Push(st), fuel)
                          else Exec(elseBody, Push(st), fuel))
  {
  }

  /** A block runs its instructions in the frame it is in. */
  lemma ExecBlockCase(ss: seq<Stmt>, st: State, fuel: nat)
    requires Wf(st.env) && st.env.current >= 0
    ensures Exec(Block(ss), st, fuel) == ExecAll(ss, st, fuel)
  {
  }

  /** The first instruction runs; the rest only when it ends normally. */
  lemma ExecAllStep(ss: seq<Stmt>, st: State, fuel: nat)
    requires Wf(st.env) && st.env.current >= 0 && ss != []
    ensures var o := Exec(ss[0], st, fuel);
      ExecAll(ss, st, fuel) == if o.signal.Normal? then ExecAll(ss[1..], o.st, fuel) else o
  {
  }

  /** One iteration of the while loop whose condition held. */
  lemma WhileIterStep(cond: Cond, body: Stmt, st: State, fuel: nat)
    requires Wf(st.env) && st.env.current >= 1 && fuel > 0 && EvalCond(cond, st.env) == Ok(true)
    ensures WhileIter(cond, body, st, fuel) == WhileNext(cond, body, Exec(body, st, fuel), fuel)
  {
    assert WhileIter(cond, body, st, fuel) == WhileBody(cond, body, st, fuel);
  }

  /** A for statement over the constant range a:b iterates over the
      inclusive range a .. b (see InclusiveRange) in a new frame. */
  lemma ForInclusiveCase(id: string, a: int, b: int, body: Stmt, st: State, fuel: nat)
    requires Wf(st.env) && st.env.current >= 0
    ensures Exec(For(id, Range(IntConst(a), IntConst(b), IntConst(1)), body), st, fuel)
      == ForIter(id, RangeSeq(a, b + 1, 1), body, Push(st), fuel)
  {
    var inner := Push(st);
    var rng := Range(IntConst(a), IntConst(b), IntConst(1));
    assert EvalRange(rng, inner.env).value == RangeSeq(a, b + 1, 1) by {
      assert Eval(IntConst(a), inner.env) == Ok(VInt(a));
      assert Eval(IntConst(b), inner.env) == Ok(VInt(b));
      assert Eval(IntConst(1), inner.env) == Ok(VInt(1));
    }
    ExecForCase(id, rng, body, st, fuel);
  }

  /** A for loop over the inclusive range a .. b whose body prints its
      variable prints each element on its own line; the stack ends as
      deep as it began. */
  lemma ForPrintsInclusive(id: string, a: int, b: int, body: Stmt, st: State, fuel: nat)
    requires Wf(st.env) && st.env.current >= 0 && PrintsVariable(body, id, fuel)
    ensures var o := Exec(For(id, Range(IntConst(a), IntConst(b), IntConst(1)), body), st, fuel);
      && o.signal == Normal && o.st.env.current == st.env.current
      && o.st.out == st.out + Printed(RangeSeq(a, b + 1, 1))
  {
    ForInclusiveCase(id, a, b, body, st, fuel);
    ForPrintsEach(id, RangeSeq(a, b + 1, 1), body, Push(st), fuel);
  }

  /** `for id = a:b { print id; }` prints the elements of the inclusive
      range a .. b, each on its own line; the stack ends as deep as it
      began. */
  lemma ForPrintsRange(id: string, a: int, b: int, st: State, fuel: nat)
    requires Wf(st.env) && st.env.current >= 0
    ensures var o := Exec(For(id, Range(IntConst(a), IntConst(b), IntConst(1)), Print([Id(id)])), st, fuel);
      && o.signal == Normal && o.st.env.current == st.env.current
      && o.st.out == st.out + Printed(RangeSeq(a, b + 1, 1))
  {
    forall st': State | Wf(st'.env) && st'.env.current >= 0
      ensures Exec(Print([Id(id)]), st', fuel) == Outcome(Normal, State(st'.env, st'.out + [[Get(st'.env, id)]]))
    {
      PrintStep(id, st', fuel);
    }
    ForPrintsInclusive(id, a, b, Print([Id(id)]), st, fuel);
  }

  /** `for id = a:b { print id; continue; }`: continue at the end of the
      body goes on with the next element, so the loop prints the same
      lines as without it. */
  lemma ForPrintsContinueRange(id: string, a: int, b: int, st: State, fuel: nat)
    requires Wf(st.env) && st.env.current >= 0
    ensures var o := Exec(For(id, Range(IntConst(a), IntConst(b), IntConst(1)), Block([Print([Id(id)]), Continue])), st, fuel);
      && o.signal == Normal && o.st.env.current == st.env.current
      && o.st.out == st.out + Printed(RangeSeq(a, b + 1, 1))
  {
    var body := Block([Print([Id(id)]), Continue]);
    forall st': State | Wf(st'.env) && st'.env.current >= 0
      ensures Exec(body, st', fuel) == Outcome(ContinueSig, State(st'.env, st'.out + [[Get(st'.env, id)]]))
    {
      PrintStep(id, st', fuel);
      var printed := State(st'.env, st'.out + [[Get(st'.env, id)]]);
      assert ExecAll([Continue], printed, fuel) == Outcome(ContinueSig, printed);
      assert [Print([Id(id)]), Continue][1..] == [Continue];
    }
    ForPrintsInclusive(id, a, b, body, st, fuel);
  }

  /** An assignment to a name succeeds exactly when its right side
      evaluates and the operator applies to the old and new values; it
      then binds the result to the name and changes no other name, and
      otherwise leaves the state as it was. */
  lemma AssignmentStores(name: string, op: AssignOp, right: Expr, st: State, fuel: nat)
    requires Wf(st.env) && st.env.current >= 0
    ensures var o := Exec(Assignment(TargetId(name), op, right), st, fuel);
      var y := Eval(right, st.env);
      && (o.signal.Normal? <==> y.Ok? && AssignValue(op, Get(st.env, name), y.value).Ok?)
      && (o.signal.Normal? ==> Get(o.st.env, name) == AssignValue(op, Get(st.env, name), y.value).value)
      && (o.signal.Normal? ==> forall other :: other != name ==> Get(o.st.env, other) == Get(st.env, other))
      && (!o.signal.Normal? ==> o == Outcome(Fault, st))
  {
    var o := Exec(Assignment(TargetId(name), op, right), st, fuel);
    if o.signal.Normal? {
      var v := AssignValue(op, Get(st.env, name), Eval(right, st.env).value).value;
      forall other | other != name
        ensures Get(o.st.env, other) == Get(st.env, other)
      {
        RebindKeepsOthers(st.env, name, v, other);
      }
    }
  }

  /** `m[i, j]` on a variable holding an n-by-m list of lists reads the
      entry at row i, column j, counting from the end for negative indices. */
  lemma AccessReadsEntry(env: Env<Value>, id: string, i: int, j: int, n: nat, m: nat)
    requires Wf(env) && IsMatrix(Get(env, id), n, m) && 0 <= i + n && i < n && 0 <= j + m && j < m
    ensures var row := Get(env, id).items[if i < 0 then n + i else i];
      Eval(Access(id, [IntConst(i), IntConst(j)]), env) == Ok(row.items[if j < 0 then m + j else j])
  {
    var idx := [IntConst(i), IntConst(j)];
    var r := EvalAll(idx, env);
    assert Eval(idx[0], env) == Ok(VInt(i)) && Eval(idx[1], env) == Ok(VInt(j));
    assert r.value == [VInt(i), VInt(j)];
    assert EvalAll(idx, env) == Ok([VInt(i), VInt(j)]);
  }

  /** The Interpreter object: its memory stack and the lines it has printed. */
  class Interpreter {
    const memoryStack: ScopeTable<Value>
    var out: seq<seq<Value>>

    ghost function St(): State
      reads this, memoryStack
    {
      State(memoryStack.State(), out)
    }

    ghost predicate Valid()
      reads this, memoryStack
    {
      memoryStack.Valid() && memoryStack.State().current >= 0
    }

    constructor ()
      ensures Valid() && fresh(memoryStack) && St() == State(Initial(), [])
    {
      memoryStack := new ScopeTable();
      out := [];
    }

    /** MemoryStack.get */
    method Load(name: string) returns (v: Value)
      requires Valid()
      ensures v == Get(memoryStack.State(), name)
    {
      var scope := memoryStack.FindVariableScope(name);
      if scope.None? {
        return VNone;
      }
      var r := memoryStack.Get(name, scope);
      return r.value;
    }

    /** MemoryStack.insert */
    method Store(name: string, v: Value)
      requires Valid()
      modifies memoryStack
      ensures Valid()
      ensures memoryStack.State() == Rebind(old(memoryStack.State()), name, v)
    {
      var scope := memoryStack.FindVariableScope(name);
      var _ := memoryStack.Put(name, v, scope);
    }

    /** The visit_* methods for expressions. */
    method VisitExpr(e: Expr) returns (r: Checked<Value>)
      requires Valid()
      ensures r == Eval(e, memoryStack.State())
      decreases e, 1
    {
      match e
      case Const(lit) =>
        r := Ok(LiteralValue(lit));
      case Id(name) =>
        var v := Load(name);
        r := Ok(v);
      case Access(id, specifier) =>
        var m := Load(id);
        var idx := VisitSequence(specifier);
        if idx.Raised? {
          return Raised;
        }
        r := VisitSubscripts(m, idx.value);
      case Expression(left, op, right) =>
        var x := VisitExpr(left);
        if x.Raised? {
          return Raised;
        }
        var y := VisitExpr(right);
        if y.Raised? {
          return Raised;
        }
        r := BinOp(op, x.value, y.value);
      case Transposition(value) =>
        var v := VisitExpr(value);
        if v.Raised? {
          return Raised;
        }
        r := Transpose(v.value);
      case Negation(value) =>
        var v := VisitExpr(value);
        if v.Raised? {
          return Raised;
        }
        r := Neg(v.value);
      case Function(fn, argument) =>
        var v := VisitExpr(argument);
        if v.Raised? {
          return Raised;
        }
        r := Construct(fn, v.value);
      case Matrix(rows) =>
        var vs := VisitSequence(rows);
        if vs.Raised? {
          return Raised;
        }
        r := Ok(VList(vs.value));
      case Sequence(values) =>
        var vs := VisitSequence(values);
        if vs.Raised? {
          return Raised;
        }
        r := Ok(VList(vs.value));
    }

    /** The loops of visit_MatrixNode and visit_SequenceNode. */
    method VisitSequence(es: seq<Expr>) returns (r: Checked<seq<Value>>)
      requires Valid()
      ensures r == EvalAll(es, memoryStack.State())
      decreases es, 0
    {
      var l: seq<Value> := [];
      var k := 0;
      while k < |es|
        invariant 0 <= k <= |es| && |l| == k
        invariant forall j :: 0 <= j < k ==> Eval(es[j], memoryStack.State()) == Ok(l[j])
      {
        var v := VisitExpr(es[k]);
        if v.Raised? {
          return Raised;
        }
        l := l + [v.value];
        k := k + 1;
      }
      var all := EvalAll(es, memoryStack.State());
      assert all.value == l;
      return Ok(l);
    }

    /** The loop of visit_AccessNode: `m = m[value]` for each index in turn. */
    method VisitSubscripts(m: Value, idx: seq<Value>) returns (r: Checked<Value>)
      ensures r == Subscripts(m, idx)
    {
      var cur := m;
      var k := 0;
      assert idx[0..] == idx;
      while k < |idx|
        invariant 0 <= k <= |idx|
        invariant Subscripts(m, idx) == Subscripts(cur, idx[k..])
      {
        assert idx[k..][0] == idx[k] && idx[k..][1..] == idx[k + 1..];
        var next := Subscript(cur, idx[k]);
        if next.Raised? {
          return Raised;
        }
        cur := next.value;
        k := k + 1;
      }
      assert idx[k..] == [];
      return Ok(cur);
    }

    /** visit_ConditionNode */
    method VisitCondition(c: Cond) returns (r: Checked<bool>)
      requires Valid()
      ensures r == EvalCond(c, memoryStack.State())
    {
      var x := VisitExpr(c.left);
      if x.Raised? {
        return Raised;
      }
      var y := VisitExpr(c.right);
      if y.Raised? {
        return Raised;
      }
      r := PyValues.Condition(c.op, x.value, y.value);
    }

    /** visit_RangeNode */
    method VisitRange(rng: Range) returns (r: Checked<seq<int>>)
      requires Valid()
      ensures r == EvalRange(rng, memoryStack.State())
    {
      var a := VisitExpr(rng.start);
      if a.Raised? {
        return Raised;
      }
      var b := VisitExpr(rng.end);
      if b.Raised? {
        return Raised;
      }
      var c := VisitExpr(rng.jump);
      if c.Raised? {
        return Raised;
      }
      r := RangeValues(a.value, b.value, c.value);
    }

    method PopFrame()
      requires Valid() && memoryStack.State().current >= 1
      modifies memoryStack
      ensures Valid() && memoryStack.State() == Scopes.PopFrame(old(memoryStack.State()))
    {
      var _, _ := memoryStack.PopScope();
    }

    /** visit_ForNode */
    method VisitFor(id: string, rng: Range, body: Stmt, fuel: nat) returns (sig: Signal)
      requires Valid()
      modifies this, memoryStack
      ensures Valid()
      ensures Outcome(sig, St()) == Exec(For(id, rng, body), old(St()), fuel)
      decreases fuel, body, 3
    {
      ghost var st0 := St();
      var _ := memoryStack.PushScope(FrameTag);
      ExecForCase(id, rng, body, st0, fuel);
      var elems := VisitRange(rng);
      if elems.Raised? {
        return Fault;
      }
      var k := 0;
      assert elems.value[0..] == elems.value;
      while k < |elems.value|
        invariant 0 <= k <= |elems.value| && Valid()
        invariant memoryStack.State().current >= st0.env.current + 1
        invariant Exec(For(id, rng, body), st0, fuel) == ForIter(id, elems.value[k..], body, St(), fuel)
      {
        ghost var before := St();
        var done;
        sig, done := ForRound(id, elems.value[k..], body, fuel);
        if done {
          assert Outcome(sig, St()) == ForIter(id, elems.value[k..], body, before, fuel);
          return;
        }
        assert elems.value[k..][1..] == elems.value[k + 1..];
        k := k + 1;
      }
      assert elems.value[k..] == [];
      PopFrame();
      return Normal;
    }

    /** One pass of the for loop's body, for the first of the remaining
        elements: done unless the loop goes on with the rest. */
    method ForRound(id: string, rest: seq<int>, body: Stmt, fuel: nat) returns (sig: Signal, done: bool)
      requires Valid() && memoryStack.State().current >= 1 && rest != []
      modifies this, memoryStack
      ensures Valid() && memoryStack.State().current >= old(memoryStack.State().current) - (if done then 1 else 0)
      ensures done ==> Outcome(sig, St()) == ForIter(id, rest, body, old(St()), fuel)
      ensures !done ==> ForIter(id, rest, body, old(St()), fuel) == ForIter(id, rest[1..], body, St(), fuel)
      decreases fuel, body, 2
    {
      ForIterStep(id, rest, body, St(), fuel);
      Store(id, VInt(rest[0]));
      sig := VisitStmt(body, fuel);
      if sig.BreakSig? {
        PopFrame();
        return Normal, true;
      } else if sig.ReturnSig? {
        return Normal, true;
      } else if sig.Fault? || sig.OutOfFuel? {
        return sig, true;
      }
      done := false;
    }

    /** visit_WhileNode, one unit of fuel per iteration. */
    method VisitWhile(cond: Cond, body: Stmt, fuel: nat) returns (sig: Signal)
      requires Valid()
      modifies this, memoryStack
      ensures Valid()
      ensures Outcome(sig, St()) == WhileIter(cond, body, Push(old(St())), fuel)
      decreases fuel, body, 3
    {
      ghost var st0 := St();
      var _ := memoryStack.PushScope(FrameTag);
      ghost var outcome := WhileIter(cond, body, St(), fuel);
      var f: nat := fuel;
      while true
        invariant f <= fuel && Valid()
        invariant memoryStack.State().current >= st0.env.current + 1
        invariant outcome == WhileIter(cond, body, St(), f)
        decreases f
      {
        var done;
        ghost var before := St();
        sig, done := WhileRound(cond, body, f);
        if done {
          assert Outcome(sig, St()) == WhileIter(cond, body, before, f) == outcome;
          return;
        }
        f := f - 1;
      }
    }

    /** One test of the while condition and, when it holds, one run of
        the body: done unless the loop goes on with one unit less fuel. */
    method WhileRound(cond: Cond, body: Stmt, f: nat) returns (sig: Signal, done: bool)
      requires Valid() && memoryStack.State().current >= 1
      modifies this, memoryStack
      ensures Valid() && memoryStack.State().current >= old(memoryStack.State().current) - (if done then 1 else 0)
      ensures done ==> Outcome(sig, St()) == WhileIter(cond, body, old(St()), f)
      ensures !done ==> f > 0 && WhileIter(cond, body, old(St()), f) == WhileIter(cond, body, St(), f - 1)
      decreases f, body, 2
    {
      if f == 0 {
        return OutOfFuel, true;
      }
      var c := VisitCondition(cond);
      if c.Raised? {
        return Fault, true;
      }
      if !c.value {
        PopFrame();
        return Normal, true;
      }
      WhileIterStep(cond, body, St(), f);
      sig := VisitStmt(body, f);
      if sig.BreakSig? {
        PopFrame();
        return Normal, true;
      } else if sig.ReturnSig? {
        return Normal, true;
      } else if sig.Fault? || sig.OutOfFuel? {
        return sig, true;
      }
      done := false;
    }

    /** The visit_* methods for statements. */
    method VisitStmt(s: Stmt, fuel: nat) returns (sig: Signal)
      requires Valid()
      modifies this, memoryStack
      ensures Valid()
      ensures Outcome(sig, St()) == Exec(s, old(St()), fuel)
      decreases fuel, s, 1
    {
      match s
      case Assignment(left, op, right) =>
        sig := VisitAssignment(left, op, right);
      case For(id, rng, body) =>
        sig := VisitFor(id, rng, body, fuel);
      case While(cond, body) =>
        ExecWhileCase(cond, body, St(), fuel);
        sig := VisitWhile(cond, body, fuel);
      case If(cond, body) =>
        sig := VisitIf(cond, body, fuel);
      case IfElse(cond, body, elseBody) =>
        sig := VisitIfElse(cond, body, elseBody, fuel);
      case Break =>
        sig := BreakSig;
      case Continue =>
        sig := ContinueSig;
      case Return(result) =>
        var v := VisitExpr(result);
        if v.Raised? {
          return Fault;
        }
        sig := ReturnSig(v.value);
      case Print(printable) =>
        sig := VisitPrint(printable);
      case Block(instructions) =>
        sig := VisitStmts(instructions, fuel);
    }

    /** visit_AssignmentNode */
    method VisitAssignment(left: Target, op: AssignOp, right: Expr) returns (sig: Signal)
      requires Valid()
      modifies this, memoryStack
      ensures Valid()
      ensures Outcome(sig, St()) == StoreAssignment(left, op, right, old(St()))
    {
      if left.TargetAccess? {
        return Fault;
      }
      var x := Load(left.name);
      var y := VisitExpr(right);
      if y.Raised? {
        return Fault;
      }
      var v := AssignValue(op, x, y.value);
      if v.Raised? {
        return Fault;
      }
      Store(left.name, v.value);
      sig := Normal;
    }

    /** visit_IfNode */
    method VisitIf(cond: Cond, body: Stmt, fuel: nat) returns (sig: Signal)
      requires Valid()
      modifies this, memoryStack
      ensures Valid()
      ensures Outcome(sig, St()) == IfThen(cond, body, old(St()), fuel)
      decreases fuel, body, 2
    {
      var _ := memoryStack.PushScope(FrameTag);
      var c := VisitCondition(cond);
      if c.Raised? {
        return Fault;
      }
      if c.value {
        sig := VisitStmt(body, fuel);
        if sig.Normal? {
          PopFrame();
        }
      } else {
        PopFrame();
        sig := Normal;
      }
    }

    /** visit_IfElseNode */
    method VisitIfElse(cond: Cond, body: Stmt, elseBody: Stmt, fuel: nat) returns (sig: Signal)
      requires Valid()
      modifies this, memoryStack
      ensures Valid()
      ensures Outcome(sig, St()) == IfThenElse(cond, body, elseBody, old(St()), fuel)
      decreases fuel, IfElse(cond, body, elseBody), 0
    {
      IfThenElseSteps(cond, body, elseBody, St(), fuel);
      var _ := memoryStack.PushScope(FrameTag);
      var c := VisitCondition(cond);
      if c.Raised? {
        return Fault;
      }
      if c.value {
        sig := VisitStmt(body, fuel);
      } else {
        sig := VisitStmt(elseBody, fuel);
      }
      if sig.Normal? {
        PopFrame();
      }
    }

    /** visit_PrintNode */
    method VisitPrint(printable: seq<Expr>) returns (sig: Signal)
      requires Valid()
      modifies this
      ensures Valid()
      ensures Outcome(sig, St()) == PrintValues(printable, old(St()))
    {
      var vs := VisitSequence(printable);
      if vs.Raised? {
        return Fault;
      }
      out := out + [vs.value];
      sig := Normal;
    }

    /** The instruction loop of visit_ProgramNode and visit_BlockNode:
        a signal leaves at once. */
    method VisitStmts(ss: seq<Stmt>, fuel: nat) returns (sig: Signal)
      requires Valid()
      modifies this, memoryStack
      ensures Valid()
      ensures Outcome(sig, St()) == ExecAll(ss, old(St()), fuel)
      decreases fuel, ss, 2
    {
      var k := 0;
      assert ss[0..] == ss;
      while k < |ss|
        invariant 0 <= k <= |ss| && Valid()
        invariant ExecAll(ss, old(St()), fuel) == ExecAll(ss[k..], St(), fuel)
      {
        assert ss[k..][0] == ss[k] && ss[k..][1..] == ss[k + 1..];
        sig := VisitStmt(ss[k], fuel);
        if !sig.Normal? {
          return sig;
        }
        k := k + 1;
      }
      assert ss[k..] == [];
      return Normal;
    }

    /** visit_ProgramNode */
    method VisitProgram(p: Program, fuel: nat) returns (sig: Signal)
      requires Valid()
      modifies this, memoryStack
      ensures Valid()
      ensures Outcome(sig, St()) == ExecAll(p.instructions, old(St()), fuel)
      ensures old(St()) == State(Initial(), []) ==> Outcome(sig, St()) == Run(p, fuel)
    {
      sig := VisitStmts(p.instructions, fuel);
    }
  }
}
