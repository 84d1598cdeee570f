/** How the Interpreter's loops handle break, continue and return, over
    all bodies and ranges: the rounds that end normally or with continue
    are followed by the rest of the loop, and the first round that ends on
    another signal decides how the loop ends. */
module Loops {
  import opened Base
  import opened Ast
  import opened Scopes
  import opened PyValues
  import opened Interp

  /** The state after the first k rounds of a for loop over elems, when
      each of those rounds ended normally or with continue; None when one
      of them ended on another signal. Such rounds do not stop the loop:
      it goes on with the remaining elements from the state they leave. */
  function ForRounds(id: string, elems: seq<int>, body: Stmt, st: State, fuel: nat, k: nat): (r: Option<State>)
    requires Wf(st.env) && st.env.current >= 1 && k <= |elems|
    ensures r.Some? ==> Wf(r.value.env) && r.value.env.current >= st.env.current && st.out <= r.value.out
    ensures r.Some? ==> ForIter(id, elems, body, st, fuel) == ForIter(id, elems[k..], body, r.value, fuel)
    decreases k
  {
    if k == 0 then Some(st)
    else
      var o := Exec(body, Insert(st, id, VInt(elems[0])), fuel);
      if o.signal.Normal? || o.signal.ContinueSig? then
        ForIterStep(id, elems, body, st, fuel);
        DropTwice(elems, 1, k);
        ForRounds(id, elems[1..], body, o.st, fuel, k - 1)
      else None
  }

  /** Dropping i elements and then k - i more drops k. */
  lemma DropTwice<T>(s: seq<T>, i: nat, k: nat)
    requires i <= k <= |s|
    ensures s[i..][k - i..] == s[k..]
  {
  }

  /** After k rounds that went on, the round for elems[k] decides: break
      ends the loop normally with one pop, a return ends it normally with
      no pop, normal or continue go on with the next element, and a fault
      or running out of fuel is passed up. */
  lemma ForStopsAt(id: string, elems: seq<int>, body: Stmt, st: State, fuel: nat, k: nat)
    requires Wf(st.env) && st.env.current >= 1 && k < |elems|
    requires ForRounds(id, elems, body, st, fuel, k).Some?
    ensures var s := ForRounds(id, elems, body, st, fuel, k).value;
      var o := Exec(body, Insert(s, id, VInt(elems[k])), fuel);
      var r := ForIter(id, elems, body, st, fuel);
      && (o.signal.BreakSig? ==> r == Outcome(Normal, Pop(o.st)))
      && (o.signal.ReturnSig? ==> r == Outcome(Normal, o.st))
      && (o.signal.Normal? || o.signal.ContinueSig? ==> r == ForIter(id, elems[k + 1..], body, o.st, fuel))
      && (o.signal.Fault? || o.signal.OutOfFuel? ==> r == o)
  {
    var s := ForRounds(id, elems, body, st, fuel, k).value;
    ForIterStep(id, elems[k..], body, s, fuel);
    assert elems[k..][0] == elems[k];
    DropTwice(elems, k, k + 1);
  }

  /** When every round goes on, the loop ends normally after the last
      element and pops its frame. */
  lemma ForRunsOut(id: string, elems: seq<int>, body: Stmt, st: State, fuel: nat)
    requires Wf(st.env) && st.env.current >= 1
    requires ForRounds(id, elems, body, st, fuel, |elems|).Some?
    ensures ForIter(id, elems, body, st, fuel) == Outcome(Normal, Pop(ForRounds(id, elems, body, st, fuel, |elems|).value))
  {
    assert elems[|elems|..] == [];
  }

  /** The state a while loop reaches when its fuel is down from fuel to
      rest, when the condition held before each of those rounds and each
      ended normally or with continue; None otherwise. Such rounds do not
      stop the loop: it goes on from the state they leave, with that much
      less fuel. */
  function WhileRounds(cond: Cond, body: Stmt, st: State, fuel: nat, rest: nat): (r: Option<State>)
    requires Wf(st.env) && st.env.current >= 1 && rest <= fuel
    ensures r.Some? ==> Wf(r.value.env) && r.value.env.current >= st.env.current && st.out <= r.value.out
    ensures r.Some? ==> WhileIter(cond, body, st, fuel) == WhileIter(cond, body, r.value, rest)
    decreases fuel - rest
  {
    if fuel == rest then Some(st)
    else if EvalCond(cond, st.env) != Ok(true) then None
    else
      var o := Exec(body, st, fuel);
      if o.signal.Normal? || o.signal.ContinueSig? then
        WhileIterStep(cond, body, st, fuel);
        WhileRounds(cond, body, o.st, fuel - 1, rest)
      else None
  }

  /** After the rounds that went on, with rest fuel left, the next test
      and round decide: a false condition ends the loop normally with one
      pop, break ends it normally with one pop, a return ends it normally
      with no pop, normal or continue go round again, a fault is passed up;
      with no fuel left the loop runs out. */
  lemma WhileStopsAt(cond: Cond, body: Stmt, st: State, fuel: nat, rest: nat)
    requires Wf(st.env) && st.env.current >= 1 && rest <= fuel
    requires WhileRounds(cond, body, st, fuel, rest).Some?
    ensures var s := WhileRounds(cond, body, st, fuel, rest).value;
      var r := WhileIter(cond, body, st, fuel);
      && (rest == 0 ==> r == Outcome(OutOfFuel, s))
      && (rest > 0 && EvalCond(cond, s.env) == Ok(false) ==> r == Outcome(Normal, Pop(s)))
      && (rest > 0 && EvalCond(cond, s.env).Raised? ==> r == Outcome(Fault, s))
      && (rest > 0 && EvalCond(cond, s.env) == Ok(true) ==>
            var o := Exec(body, s, rest);
            && (o.signal.BreakSig? ==> r == Outcome(Normal, Pop(o.st)))
            && (o.signal.ReturnSig? ==> r == Outcome(Normal, o.st))
            && (o.signal.Normal? || o.signal.ContinueSig? ==> r == WhileIter(cond, body, o.st, rest - 1))
            && (o.signal.Fault? || o.signal.OutOfFuel? ==> r == o))
  {
    if rest > 0 && EvalCond(cond, WhileRounds(cond, body, st, fuel, rest).value.env) == Ok(true) {
      WhileIterStep(cond, body, WhileRounds(cond, body, st, fuel, rest).value, rest);
    }
  }

  // ----- two loops that jump out of an if -----

  /** `{ if (id == n) { jump; } print id; }`. */
  function JumpThenPrint(id: string, n: int, jump: Stmt): Stmt
  {
    Block([If(Condition(Id(id), Eq, IntConst(n)), Block([jump])), Print([Id(id)])])
  }

  /** Its rounds when id holds an int: at n the jump leaves the if from
      inside the if's own frame, before anything is printed; otherwise the
      if pops its frame and the value is printed. */
  lemma JumpThenPrintRound(id: string, n: int, jump: Stmt, s: State, fuel: nat)
    requires Wf(s.env) && s.env.current >= 0 && Get(s.env, id).VInt?
    requires jump == Break || jump == Continue
    ensures Exec(JumpThenPrint(id, n, jump), s, fuel) ==
      if Get(s.env, id) == VInt(n) then Outcome(if jump == Break then BreakSig else ContinueSig, Push(s))
      else Outcome(Normal, State(s.env, s.out + [[Get(s.env, id)]]))
  {
    var test := If(Condition(Id(id), Eq, IntConst(n)), Block([jump]));
    var printed := State(s.env, s.out + [[Get(s.env, id)]]);
    ExecBlockCase([test, Print([Id(id)])], s, fuel);
    ExecAllStep([test, Print([Id(id)])], s, fuel);
    JumpTest(id, n, jump, s, fuel);
    if Get(s.env, id) != VInt(n) {
      assert [test, Print([Id(id)])][1..] == [Print([Id(id)])];
      ExecAllStep([Print([Id(id)])], s, fuel);
      PrintStep(id, s, fuel);
      assert ExecAll([], printed, fuel) == Outcome(Normal, printed);
    }
  }

  /** `if (id == n) { jump; }` when id holds an int. */
  lemma JumpTest(id: string, n: int, jump: Stmt, s: State, fuel: nat)
    requires Wf(s.env) && s.env.current >= 0 && Get(s.env, id).VInt?
    requires jump == Break || jump == Continue
    ensures Exec(If(Condition(Id(id), Eq, IntConst(n)), Block([jump])), s, fuel) ==
      if Get(s.env, id) == VInt(n) then Outcome(if jump == Break then BreakSig else ContinueSig, Push(s))
      else Outcome(Normal, s)
  {
    var inner := Push(s);
    var cond := Condition(Id(id), Eq, IntConst(n));
    EqualsConst(id, n, inner.env);
    LookupAfterPush(s.env, FrameTag, id);
    ExecIfCase(cond, Block([jump]), s, fuel);
    if Get(s.env, id) == VInt(n) {
      ExecBlockCase([jump], inner, fuel);
      ExecAllStep([jump], inner, fuel);
    } else {
      PopAfterPush(s.env, FrameTag);
    }
  }

  /** `id == n` when id holds an int. */
  lemma EqualsConst(id: string, n: int, env: Env<Value>)
    requires Wf(env) && Get(env, id).VInt?
    ensures EvalCond(Condition(Id(id), Eq, IntConst(n)), env) == Ok(Get(env, id) == VInt(n))
  {
    assert Eval(Id(id), env) == Ok(Get(env, id));
    assert Eval(IntConst(n), env) == Ok(VInt(n));
  }

  /** 1:5, the range 1 .. 5. */
  lemma OneToFive()
    ensures RangeSeq(1, 6, 1) == [1, 2, 3, 4, 5]
  {
    assert RangeSeq(6, 6, 1) == [];
    assert RangeSeq(5, 6, 1) == [5];
    assert RangeSeq(4, 6, 1) == [4, 5];
    assert RangeSeq(3, 6, 1) == [3, 4, 5];
    assert RangeSeq(2, 6, 1) == [2, 3, 4, 5];
  }

  /** A for loop with that body and break, over elems whose first n is
      at index k: the rounds before k print their elements, and the round
      at k breaks out of the if, so the loop ends normally without having
      popped its own frame. */
  lemma {:induction false} BreakLoopPrints(id: string, n: int, elems: seq<int>, st: State, fuel: nat, k: nat)
    requires Wf(st.env) && st.env.current >= 1
    requires k < |elems| && elems[k] == n && n !in elems[..k]
    ensures var o := ForIter(id, elems, JumpThenPrint(id, n, Break), st, fuel);
      && o.signal == Normal
      && o.st.out == st.out + Printed(elems[..k])
      && o.st.env.current == st.env.current
    decreases k
  {
    JumpLoopStep(id, n, Break, elems, st, fuel);
    if k > 0 {
      PrefixTail(elems, n, k);
      var b := Insert(st, id, VInt(elems[0]));
      BreakLoopPrints(id, n, elems[1..], State(b.env, st.out + [[VInt(elems[0])]]), fuel, k - 1);
      PrintedAppend(st.out, elems[..k]);
    }
  }

  /** The first n at index k of elems is at index k - 1 of its tail. */
  lemma PrefixTail(elems: seq<int>, n: int, k: nat)
    requires 0 < k < |elems| && elems[k] == n && n !in elems[..k]
    ensures elems[0] != n && elems[1..][k - 1] == n && n !in elems[1..][..k - 1]
    ensures elems[1..][..k - 1] == elems[..k][1..] && elems[..k][0] == elems[0]
  {
    assert elems[0] == elems[..k][0];
  }

  /** One round of a for loop with that body. */
  lemma JumpLoopStep(id: string, n: int, jump: Stmt, elems: seq<int>, st: State, fuel: nat)
    requires Wf(st.env) && st.env.current >= 1 && elems != []
    requires jump == Break || jump == Continue
    ensures var b := Insert(st, id, VInt(elems[0]));
      var r := ForIter(id, elems, JumpThenPrint(id, n, jump), st, fuel);
      && (elems[0] != n ==> r == ForIter(id, elems[1..], JumpThenPrint(id, n, jump), State(b.env, st.out + [[VInt(elems[0])]]), fuel))
      && (elems[0] == n && jump == Break ==> r == Outcome(Normal, b))
      && (elems[0] == n && jump == Continue ==> r == ForIter(id, elems[1..], JumpThenPrint(id, n, jump), Push(b), fuel))
  {
    var b := Insert(st, id, VInt(elems[0]));
    assert Get(b.env, id) == VInt(elems[0]);
    ForIterStep(id, elems, JumpThenPrint(id, n, jump), st, fuel);
    JumpThenPrintRound(id, n, jump, b, fuel);
    if elems[0] == n && jump == Break {
      PopAfterPush(b.env, FrameTag);
    }
  }

  /** The elements other than n, in order. */
  function Skipping(elems: seq<int>, n: int): seq<int>
  {
    if elems == [] then [] else (if elems[0] == n then [] else [elems[0]]) + Skipping(elems[1..], n)
  }

  /** A for loop with that body and continue prints every element other
      than n, in order, and ends normally; each continue leaves the if's
      frame behind, so the stack ends one frame deeper for each n in
      elems than where a loop pops its frame. */
  lemma {:induction false} ContinueLoopPrints(id: string, n: int, elems: seq<int>, st: State, fuel: nat)
    requires Wf(st.env) && st.env.current >= 1
    ensures var o := ForIter(id, elems, JumpThenPrint(id, n, Continue), st, fuel);
      && o.signal == Normal
      && o.st.out == st.out + Printed(Skipping(elems, n))
      && o.st.env.current == st.env.current - 1 + multiset(elems)[n]
    decreases elems
  {
    if elems != [] {
      var b := Insert(st, id, VInt(elems[0]));
      JumpLoopStep(id, n, Continue, elems, st, fuel);
      CountFirst(elems, n);
      if elems[0] == n {
        assert Skipping(elems, n) == Skipping(elems[1..], n);
        ContinueLoopPrints(id, n, elems[1..], Push(b), fuel);
      } else {
        ContinueLoopPrints(id, n, elems[1..], State(b.env, st.out + [[VInt(elems[0])]]), fuel);
        PrintedCons(st.out, elems[0], Skipping(elems[1..], n));
      }
    }
  }

  /** The lines for x and then xs. */
  lemma PrintedCons(out: seq<seq<Value>>, x: int, xs: seq<int>)
    ensures out + [[VInt(x)]] + Printed(xs) == out + Printed([x] + xs)
  {
    PrintedAppend(out, [x] + xs);
    assert ([x] + xs)[1..] == xs;
  }

  /** Taking off the first element. */
  lemma CountFirst(elems: seq<int>, n: int)
    requires elems != []
    ensures multiset(elems)[n] == multiset(elems[1..])[n] + (if elems[0] == n then 1 else 0)
    ensures Skipping(elems, n) == (if elems[0] == n then [] else [elems[0]]) + Skipping(elems[1..], n)
  {
    assert elems == [elems[0]] + elems[1..];
  }

  /** `for i = 1:5 { if (i == 3) { break; } print i; }` prints 1 and 2
      and ends normally, one frame deeper than it began. */
  lemma BreakAtThree(st: State, fuel: nat)
    requires Wf(st.env) && st.env.current >= 0
    ensures var o := Exec(For("i", Range(IntConst(1), IntConst(5), IntConst(1)), JumpThenPrint("i", 3, Break)), st, fuel);
      && o.signal == Normal
      && o.st.out == st.out + [[VInt(1)], [VInt(2)]]
      && o.st.env.current == st.env.current + 1
  {
    var elems := [1, 2, 3, 4, 5];
    OneToFive();
    ForInclusiveCase("i", 1, 5, JumpThenPrint("i", 3, Break), st, fuel);
    assert elems[..2] == [1, 2];
    BreakLoopPrints("i", 3, elems, Push(st), fuel, 2);
    assert Printed([1, 2]) == [[VInt(1)]] + Printed([2]);
  }

  /** `for i = 1:5 { if (i == 3) { continue; } print i; }` prints 1, 2, 4
      and 5 and ends normally, one frame deeper than it began. */
  lemma ContinueAtThree(st: State, fuel: nat)
    requires Wf(st.env) && st.env.current >= 0
    ensures var o := Exec(For("i", Range(IntConst(1), IntConst(5), IntConst(1)), JumpThenPrint("i", 3, Continue)), st, fuel);
      && o.signal == Normal
      && o.st.out == st.out + [[VInt(1)], [VInt(2)], [VInt(4)], [VInt(5)]]
      && o.st.env.current == st.env.current + 1
  {
    var elems := [1, 2, 3, 4, 5];
    OneToFive();
    ForInclusiveCase("i", 1, 5, JumpThenPrint("i", 3, Continue), st, fuel);
    ContinueLoopPrints("i", 3, elems, Push(st), fuel);
    SkipThree();
  }

  /** What the continue loop skips and prints over 1:5. */
  lemma SkipThree()
    ensures multiset([1, 2, 3, 4, 5])[3] == 1
    ensures Printed(Skipping([1, 2, 3, 4, 5], 3)) == [[VInt(1)], [VInt(2)], [VInt(4)], [VInt(5)]]
  {
    var e := [1, 2, 3, 4, 5];
    assert e[1..] == [2, 3, 4, 5] && e[1..][1..] == [3, 4, 5] && e[1..][1..][1..] == [4, 5];
    assert e[1..][1..][1..][1..] == [5] && [5][1..] == [];
    assert Skipping([5], 3) == [5];
    assert Skipping([4, 5], 3) == [4] + [5];
    assert Skipping([3, 4, 5], 3) == [4, 5];
    assert Skipping([2, 3, 4, 5], 3) == [2] + [4, 5];
    assert Skipping(e, 3) == [1] + [2, 4, 5];
    assert Printed([1, 2, 4, 5]) == [[VInt(1)], [VInt(2)], [VInt(4)], [VInt(5)]];
  }
}
