/** Where a name assigned inside a statement can be seen afterwards, in
    the Interpreter and in the TypeChecker. Both write a name where it is
    already bound and otherwise into the innermost frame (putVariable,
    MemoryStack.insert), so a name first assigned inside an if dies with
    the if's frame, while a name bound outside a for keeps the last value
    the loop body gave it. */
module Scoping {
  import opened Base
  import opened Ast
  import opened Scopes
  import opened PyValues
  import opened Interp
  import Types
  import TypeRules
  import TypeCheck

  // ----- the Interpreter -----

  /** `if (c) { x = e; }` with x bound nowhere: when the if ends normally
      the stack is exactly as before, so x is still unbound. The only
      other outcome is a fault, which (like any signal through an if)
      leaves the if's frame pushed. */
  lemma IfAssignmentIsLocal(c: Cond, x: string, e: Expr, st: State, fuel: nat)
    requires Wf(st.env) && st.env.current >= 0 && Lookup(st.env, x).None?
    ensures var o := Exec(If(c, Assignment(TargetId(x), Assign, e)), st, fuel);
      && (o.signal.Normal? || o.signal.Fault?)
      && (o.signal.Normal? ==> o.st == st && Lookup(o.st.env, x).None?)
  {
    var body := Assignment(TargetId(x), Assign, e);
    var inner := Push(st);
    ExecIfCase(c, body, st, fuel);
    PopAfterPush(st.env, FrameTag);
    var o := Exec(body, inner, fuel);
    if o.signal.Normal? {
      var v := Eval(e, inner.env).value;
      assert o.st == Insert(inner, x, v);
      PopRebindPush(st.env, FrameTag, x, v);
    }
  }

  /** One round of `for i { x = i; }` on element n: it ends normally,
      binds x to n where x is already bound below the loop's frame, and
      keeps x out of the loop's frame. */
  lemma AssignRound(i: string, x: string, n: int, s: State, fuel: nat)
    requires Wf(s.env) && s.env.current >= 1 && i != x
    requires Lookup(s.env, x).Some? && x !in s.env.scopes[s.env.current].symbols
    ensures var o := Exec(Assignment(TargetId(x), Assign, Id(i)), Insert(s, i, VInt(n)), fuel);
      && o.signal.Normal? && o.st.env.current == s.env.current && o.st.out == s.out
      && Lookup(o.st.env, x) == Some(VInt(n)) && x !in o.st.env.scopes[s.env.current].symbols
  {
    var b := Insert(s, i, VInt(n));
    RebindKeepsOthers(s.env, i, VInt(n), x);
    RebindKeepsFrames(s.env, i, VInt(n), x);
    assert Eval(Id(i), b.env) == Ok(VInt(n));
    RebindBelowTop(b.env, x, VInt(n));
  }

  /** The states a round of `for i { x = i; }` starts from: x bound,
      but below the loop's frame. */
  ghost predicate OuterBound(x: string, s: State)
  {
    Wf(s.env) && s.env.current >= 1 && Lookup(s.env, x).Some? && x !in s.env.scopes[s.env.current].symbols
  }

  /** Every round of body on element n, from such a state, ends normally
      in such a state at the same depth and output, with x holding n. */
  ghost predicate RoundsAssign(i: string, x: string, body: Stmt, fuel: nat)
  {
    forall s: State, n: int {:trigger Exec(body, Insert(s, i, VInt(n)), fuel)} :: OuterBound(x, s) ==>
      var o := Exec(body, Insert(s, i, VInt(n)), fuel);
      && o.signal.Normal? && OuterBound(x, o.st) && o.st.env.current == s.env.current
      && o.st.out == s.out && Lookup(o.st.env, x) == Some(VInt(n))
  }

  /** `x = i` is such a body. */
  lemma AssignRoundsAssign(i: string, x: string, fuel: nat)
    requires i != x
    ensures RoundsAssign(i, x, Assignment(TargetId(x), Assign, Id(i)), fuel)
  {
    forall s: State, n: int | OuterBound(x, s) {
      AssignRound(i, x, n, s, fuel);
    }
  }

  /** One round of a loop over such a body: the loop goes on with the
      rest of the elements from a state where x holds the first. */
  lemma AssignStep(i: string, x: string, elems: seq<int>, body: Stmt, s: State, fuel: nat) returns (next: State)
    requires RoundsAssign(i, x, body, fuel) && OuterBound(x, s) && elems != []
    ensures OuterBound(x, next) && next.env.current == s.env.current && next.out == s.out
    ensures Lookup(next.env, x) == Some(VInt(elems[0]))
    ensures ForIter(i, elems, body, s, fuel) == ForIter(i, elems[1..], body, next, fuel)
  {
    ForIterStep(i, elems, body, s, fuel);
    next := Exec(body, Insert(s, i, VInt(elems[0])), fuel).st;
  }

  /** How a loop `for i { x = i; }` over elems, started in s, ends: normally,
      one frame shallower, with the same output and x holding the last
      element. */
  ghost predicate EndsWithLast(x: string, elems: seq<int>, s: State, o: Outcome)
    requires elems != [] && Wf(o.st.env)
  {
    && o.signal.Normal? && o.st.env.current == s.env.current - 1 && o.st.out == s.out
    && Lookup(o.st.env, x) == Some(VInt(elems[|elems| - 1]))
  }

  /** A for loop over such a body ends as EndsWithLast says. */
  lemma {:induction false} ForAssignsLast(i: string, x: string, elems: seq<int>, body: Stmt, s: State, fuel: nat)
    requires RoundsAssign(i, x, body, fuel) && OuterBound(x, s) && elems != []
    ensures EndsWithLast(x, elems, s, ForIter(i, elems, body, s, fuel))
    decreases |elems|
  {
    var next := AssignStep(i, x, elems, body, s, fuel);
    if |elems| == 1 {
      assert elems[1..] == [];
      LookupAfterPop(next.env, x);
    } else {
      EndsWithLastStep(elems, x, s, next, ForIter(i, elems, body, s, fuel));
      ForAssignsLast(i, x, elems[1..], body, next, fuel);
    }
  }

  /** A loop that ends as EndsWithLast says for the tail, started one
      round later at the same depth and output, does for the whole sequence. */
  lemma EndsWithLastStep(elems: seq<int>, x: string, s: State, next: State, o: Outcome)
    requires |elems| >= 2 && Wf(o.st.env)
    requires next.env.current == s.env.current && next.out == s.out
    ensures EndsWithLast(x, elems[1..], next, o) ==> EndsWithLast(x, elems, s, o)
  {
    var rest := elems[1..];
    assert rest[|rest| - 1] == elems[|elems| - 1];
  }

  /** `for i = a:b { x = i; }` with x bound outside the loop: the body
      rebinds the outer x rather than shadowing it, so after the loop x
      holds b, and the stack is as deep as before. */
  lemma ForRebindsOuterName(i: string, x: string, a: int, b: int, st: State, fuel: nat)
    requires Wf(st.env) && st.env.current >= 0 && i != x && a <= b && Lookup(st.env, x).Some?
    ensures var o := Exec(For(i, Range(IntConst(a), IntConst(b), IntConst(1)), Assignment(TargetId(x), Assign, Id(i))), st, fuel);
      && o.signal.Normal? && o.st.env.current == st.env.current && o.st.out == st.out
      && Get(o.st.env, x) == VInt(b)
  {
    var body := Assignment(TargetId(x), Assign, Id(i));
    ForInclusiveCase(i, a, b, body, st, fuel);
    InclusiveRange(a, b, 1);
    LookupAfterPush(st.env, FrameTag, x);
    AssignRoundsAssign(i, x, fuel);
    ForAssignsLast(i, x, RangeSeq(a, b + 1, 1), body, Push(st), fuel);
    assert EndsWithLast(x, RangeSeq(a, b + 1, 1), Push(st), ForIter(i, RangeSeq(a, b + 1, 1), body, Push(st), fuel));
  }

  // ----- the TypeChecker -----

  /** The if visit: the condition and then the body, in an "if" frame. */
  lemma CheckIfCase(c: Cond, body: Stmt, env: Env<Types.Type>, log: seq<TypeRules.Diag>)
    requires Wf(env) && env.current >= 0
    ensures var inner := PushFrame(env, "if");
      var t := TypeCheck.CondType(c, inner);
      TypeCheck.CheckStmt(If(c, body), env, log) ==
        if t.Raised? then Raised else TypeCheck.Scoped(body, inner, log + t.value.log)
  {
  }

  /** The for visit: the range in a "loop" frame, the variable bound to
      its type, then the body. */
  lemma CheckForCase(i: string, rng: Range, body: Stmt, env: Env<Types.Type>, log: seq<TypeRules.Diag>)
    requires Wf(env) && env.current >= 0
    ensures var loop := PushFrame(env, "loop");
      var t := TypeCheck.RangeType(rng, loop);
      TypeCheck.CheckStmt(For(i, rng, body), env, log) ==
        if t.Raised? then Raised else TypeCheck.Scoped(body, Rebind(loop, i, t.value.ty), log + t.value.log)
  {
  }

  /** A body in a pushed frame, which is then popped. */
  lemma ScopedCase(body: Stmt, inner: Env<Types.Type>, log: seq<TypeRules.Diag>)
    requires Wf(inner) && inner.current >= 1
    ensures var a := TypeCheck.CheckStmt(body, inner, log);
      TypeCheck.Scoped(body, inner, log) ==
        if a.Raised? then Raised else Ok(TypeCheck.Checking(PopFrame(a.value.env), a.value.log))
  {
  }

  /** `x = e` binds x to the type of e through putVariable. */
  lemma AssignCase(x: string, e: Expr, env: Env<Types.Type>, log: seq<TypeRules.Diag>)
    requires Wf(env) && env.current >= 0
    ensures var t := TypeCheck.AssignedType(TargetId(x), Assign, e, env);
      TypeCheck.CheckStmt(Assignment(TargetId(x), Assign, e), env, log) ==
        if t.Raised? then Raised else Ok(TypeCheck.Checking(Rebind(env, x, t.value.ty), log + t.value.log))
  {
  }

  /** `x = i` with i bound to t binds x to t. */
  lemma AssignIdType(x: string, i: string, env: Env<Types.Type>)
    requires Wf(env) && Lookup(env, i).Some?
    ensures TypeCheck.AssignedType(TargetId(x), Assign, Id(i), env) ==
            Ok(TypeRules.Typed(Lookup(env, i).value, []))
  {
    var t := Lookup(env, i).value;
    assert TypeCheck.TargetType(TargetId(x), env) == Ok((Lookup(env, x), []));
    assert TypeCheck.ExprType(Id(i), env) == Ok(TypeRules.Typed(t, []));
    var none: seq<TypeRules.Diag> := [];
    assert none + none == none;
  }

  /** The checker's view of `if (c) { x = e; }` with x bound nowhere: the
      visit leaves the stack exactly as it found it, so x is still
      unbound afterwards. */
  lemma CheckedIfAssignmentIsLocal(c: Cond, x: string, e: Expr, env: Env<Types.Type>, log: seq<TypeRules.Diag>)
    requires Wf(env) && env.current >= 0 && Lookup(env, x).None?
    ensures var r := TypeCheck.CheckStmt(If(c, Assignment(TargetId(x), Assign, e)), env, log);
      r.Ok? ==> r.value.env == env && Lookup(r.value.env, x).None?
  {
    var body := Assignment(TargetId(x), Assign, e);
    var inner := PushFrame(env, "if");
    CheckIfCase(c, body, env, log);
    var ct := TypeCheck.CondType(c, inner);
    if ct.Ok? {
      var l := log + ct.value.log;
      ScopedCase(body, inner, l);
      AssignCase(x, e, inner, l);
      var at := TypeCheck.AssignedType(TargetId(x), Assign, e, inner);
      if at.Ok? {
        PopRebindPush(env, "if", x, at.value.ty);
      }
    }
  }

  /** The checker's view of `for i = rng { x = i; }` with x bound outside
      the loop: the body's assignment rebinds the outer x, so afterwards x
      has the type the loop variable got from the range. */
  lemma CheckedForRebindsOuterName(i: string, x: string, rng: Range, env: Env<Types.Type>, log: seq<TypeRules.Diag>)
    requires Wf(env) && env.current >= 0 && i != x && Lookup(env, x).Some?
    ensures var r := TypeCheck.CheckStmt(For(i, rng, Assignment(TargetId(x), Assign, Id(i))), env, log);
      var loop := PushFrame(env, "loop");
      r.Ok? ==> TypeCheck.RangeType(rng, loop).Ok?
                && Lookup(r.value.env, x) == Some(TypeCheck.RangeType(rng, loop).value.ty)
  {
    var body := Assignment(TargetId(x), Assign, Id(i));
    var loop := PushFrame(env, "loop");
    CheckForCase(i, rng, body, env, log);
    var rt := TypeCheck.RangeType(rng, loop);
    if rt.Ok? {
      var t := rt.value;
      var inner := Rebind(loop, i, t.ty);
      var l := log + t.log;
      LookupAfterPush(env, "loop", x);
      RebindKeepsOthers(loop, i, t.ty, x);
      RebindKeepsFrames(loop, i, t.ty, x);
      ScopedCase(body, inner, l);
      AssignCase(x, Id(i), inner, l);
      AssignIdType(x, i, inner);
      var after := Rebind(inner, x, t.ty);
      RebindBelowTop(inner, x, t.ty);
      LookupAfterPop(after, x);
    }
  }

  /** The same loop with x bound nowhere: the body binds x in the loop's
      own frame, and the binding is gone after the loop. */
  lemma CheckedForAssignmentIsLocal(i: string, x: string, rng: Range, env: Env<Types.Type>, log: seq<TypeRules.Diag>)
    requires Wf(env) && env.current >= 0 && i != x && Lookup(env, x).None?
    ensures var r := TypeCheck.CheckStmt(For(i, rng, Assignment(TargetId(x), Assign, Id(i))), env, log);
      r.Ok? ==> Lookup(r.value.env, x).None?
  {
    var body := Assignment(TargetId(x), Assign, Id(i));
    var loop := PushFrame(env, "loop");
    CheckForCase(i, rng, body, env, log);
    var rt := TypeCheck.RangeType(rng, loop);
    if rt.Ok? {
      var t := rt.value;
      var inner := Rebind(loop, i, t.ty);
      var l := log + t.log;
      RebindKeepsFrames(loop, i, t.ty, x);
      LookupAfterPush(env, "loop", x);
      RebindKeepsOthers(loop, i, t.ty, x);
      ScopedCase(body, inner, l);
      AssignCase(x, Id(i), inner, l);
      AssignIdType(x, i, inner);
      PopRebindUnbound(inner, x, t.ty);
    }
  }
}
