/** The runtime values of the evaluator and the Python operations the
    operator tables of Interpreter.py apply to them (ExpressionDict,
    AssignmentDict, FunctionDict, ConditionDict, the transpose, range
    and subscription). A Python exception is Raised. */
module PyValues {
  import opened Base
  import opened Ast

  /** int, float, str, list and None; vectors and matrices are lists. */
  datatype Value = VInt(i: int) | VFloat(r: real) | VStr(s: string) | VList(items: seq<Value>) | VNone

  predicate IsNumber(v: Value) { v.VInt? || v.VFloat? }

  function AsReal(v: Value): real
    requires IsNumber(v)
  {
    if v.VInt? then v.i as real else v.r
  }

  /** `n` copies of s, back to back (Python's `s * n`, empty when n <= 0). */
  function Repeat<T>(s: seq<T>, n: int): (r: seq<T>)
    ensures |r| == if n <= 0 then 0 else n * |s|
    ensures n > 0 ==> r[..|s|] == s && r[|s|..] == Repeat(s, n - 1)
    decreases n
  {
    if n <= 0 then [] else s + Repeat(s, n - 1)
  }

  /** `x + y` */
  function Add(x: Value, y: Value): (r: Checked<Value>)
    ensures IsNumber(x) && IsNumber(y) ==>
              (r.Ok? && IsNumber(r.value) && AsReal(r.value) == AsReal(x) + AsReal(y)
               && (r.value.VInt? <==> x.VInt? && y.VInt?))
    ensures x.VStr? && y.VStr? ==> r == Ok(VStr(x.s + y.s))
    ensures x.VList? && y.VList? ==> r == Ok(VList(x.items + y.items))
    ensures r.Ok? <==> (IsNumber(x) && IsNumber(y)) || (x.VStr? && y.VStr?) || (x.VList? && y.VList?)
  {
    if x.VInt? && y.VInt? then Ok(VInt(x.i + y.i))
    else if IsNumber(x) && IsNumber(y) then Ok(VFloat(AsReal(x) + AsReal(y)))
    else if x.VStr? && y.VStr? then Ok(VStr(x.s + y.s))
    else if x.VList? && y.VList? then Ok(VList(x.items + y.items))
    else Raised
  }

  /** `x - y` */
  function Sub(x: Value, y: Value): (r: Checked<Value>)
    ensures r.Ok? <==> IsNumber(x) && IsNumber(y)
    ensures r.Ok? ==>
              IsNumber(r.value) && AsReal(r.value) == AsReal(x) - AsReal(y) && (r.value.VInt? <==> x.VInt? && y.VInt?)
  {
    if x.VInt? && y.VInt? then Ok(VInt(x.i - y.i))
    else if IsNumber(x) && IsNumber(y) then Ok(VFloat(AsReal(x) - AsReal(y)))
    else Raised
  }

  /** `x * y`: numbers multiply, a str or a list times an int repeats. */
  function Mul(x: Value, y: Value): (r: Checked<Value>)
    ensures IsNumber(x) && IsNumber(y) ==>
              (r.Ok? && IsNumber(r.value) && AsReal(r.value) == AsReal(x) * AsReal(y)
               && (r.value.VInt? <==> x.VInt? && y.VInt?))
    ensures x.VStr? && y.VInt? ==> r == Ok(VStr(Repeat(x.s, y.i)))
    ensures x.VList? && y.VInt? ==> r == Ok(VList(Repeat(x.items, y.i)))
    ensures x.VInt? && y.VStr? ==> r == Ok(VStr(Repeat(y.s, x.i)))
    ensures x.VInt? && y.VList? ==> r == Ok(VList(Repeat(y.items, x.i)))
    ensures r.Raised? <==> !(IsNumber(x) && IsNumber(y)) && !((x.VStr? || x.VList?) && y.VInt?)
                           && !(x.VInt? && (y.VStr? || y.VList?))
  {
    if x.VInt? && y.VInt? then Ok(VInt(x.i * y.i))
    else if IsNumber(x) && IsNumber(y) then Ok(VFloat(AsReal(x) * AsReal(y)))
    else if x.VStr? && y.VInt? then Ok(VStr(Repeat(x.s, y.i)))
    else if x.VInt? && y.VStr? then Ok(VStr(Repeat(y.s, x.i)))
    else if x.VList? && y.VInt? then Ok(VList(Repeat(x.items, y.i)))
    else if x.VInt? && y.VList? then Ok(VList(Repeat(y.items, x.i)))
    else Raised
  }

  /** `x / y`: true division, always a float; dividing by zero raises. */
  function Div(x: Value, y: Value): (r: Checked<Value>)
    ensures r.Ok? <==> IsNumber(x) && IsNumber(y) && AsReal(y) != 0.0
    ensures r.Ok? ==> r.value.VFloat? && r.value.r * AsReal(y) == AsReal(x)
  {
    if IsNumber(x) && IsNumber(y) && AsReal(y) != 0.0 then Ok(VFloat(AsReal(x) / AsReal(y))) else Raised
  }

  /** `-x` */
  function Neg(x: Value): (r: Checked<Value>)
    ensures r.Ok? <==> IsNumber(x)
    ensures r.Ok? ==> IsNumber(r.value) && AsReal(r.value) == -AsReal(x) && r.value.VInt? == x.VInt?
  {
    match x
    case VInt(a) => Ok(VInt(-a))
    case VFloat(a) => Ok(VFloat(-a))
    case _ => Raised
  }

  /** The arithmetic entries of ExpressionDict. */
  function Arith(op: Operator, x: Value, y: Value): (r: Checked<Value>)
    requires op in {Plus, Minus, Times, Divide}
    ensures IsNumber(x) && IsNumber(y) ==> (r.Ok? <==> !op.Divide? || AsReal(y) != 0.0)
    ensures IsNumber(x) && IsNumber(y) && r.Ok? ==>
              && IsNumber(r.value)
              && (op.Plus? ==> AsReal(r.value) == AsReal(x) + AsReal(y))
              && (op.Minus? ==> AsReal(r.value) == AsReal(x) - AsReal(y))
              && (op.Times? ==> AsReal(r.value) == AsReal(x) * AsReal(y))
              && (op.Divide? ==> r.value.VFloat? && AsReal(r.value) * AsReal(y) == AsReal(x))
              && (!op.Divide? ==> (r.value.VInt? <==> x.VInt? && y.VInt?))
    ensures (op.Minus? || op.Divide?) && r.Ok? ==> IsNumber(x) && IsNumber(y)
    ensures x.VNone? || y.VNone? ==> r.Raised?
  {
    match op
    case Plus => Add(x, y)
    case Minus => Sub(x, y)
    case Times => Mul(x, y)
    case Divide => Div(x, y)
  }

  /** `len(v)` */
  function Len(v: Value): (r: Checked<nat>)
    ensures r.Ok? <==> v.VStr? || v.VList?
  {
    match v
    case VStr(s) => Ok(|s|)
    case VList(xs) => Ok(|xs|)
    case _ => Raised
  }

  /** `v[k]`: an int index into a list or a str, counted from the end when
      negative; out of range raises IndexError, anything else TypeError. */
  function Subscript(v: Value, k: Value): (r: Checked<Value>)
    ensures v.VList? && k.VInt? && 0 <= k.i < |v.items| ==> r == Ok(v.items[k.i])
    ensures v.VList? && k.VInt? && -|v.items| <= k.i < 0 ==> r == Ok(v.items[|v.items| + k.i])
    ensures r.Ok? <==> k.VInt? && ((v.VList? && -|v.items| <= k.i < |v.items|) || (v.VStr? && -|v.s| <= k.i < |v.s|))
  {
    match (v, k)
    case (VList(xs), VInt(n)) =>
      if 0 <= n < |xs| then Ok(xs[n]) else if -|xs| <= n < 0 then Ok(xs[|xs| + n]) else Raised
    case (VStr(s), VInt(n)) =>
      if 0 <= n < |s| then Ok(VStr([s[n]])) else if -|s| <= n < 0 then Ok(VStr([s[|s| + n]])) else Raised
    case _ => Raised
  }

  /** An index into a str reads the one-character str at that position,
      counted from the end when negative. */
  lemma SubscriptStr(v: Value, k: Value)
    requires v.VStr? && k.VInt?
    ensures 0 <= k.i < |v.s| ==> Subscript(v, k) == Ok(VStr([v.s[k.i]]))
    ensures -|v.s| <= k.i < 0 ==> Subscript(v, k) == Ok(VStr([v.s[|v.s| + k.i]]))
  { }

  /** `x[i][j]` */
  function Entry(v: Value, i: int, j: int): (r: Checked<Value>)
    ensures v.VList? && 0 <= i < |v.items| && v.items[i].VList? && 0 <= j < |v.items[i].items| ==>
              r == Ok(v.items[i].items[j])
    ensures !(v.VList? || v.VStr?) ==> r.Raised?
    ensures v.VList? && !(-|v.items| <= i < |v.items|) ==> r.Raised?
  {
    match Subscript(v, VInt(i))
    case Raised => Raised
    case Ok(row) => Subscript(row, VInt(j))
  }

  /** Row i of an element-wise operation: columns 0 .. m-1. */
  function ElementRow(op: Operator, x: Value, y: Value, i: int, m: nat): (r: Checked<seq<Value>>)
    requires op in {Plus, Minus, Times, Divide}
    ensures r.Ok? ==> |r.value| == m
    ensures r.Ok? ==> forall j :: 0 <= j < m ==>
      Entry(x, i, j).Ok? && Entry(y, i, j).Ok? && Arith(op, Entry(x, i, j).value, Entry(y, i, j).value) == Ok(r.value[j])
    ensures r.Raised? <==> exists j :: 0 <= j < m && (Entry(x, i, j).Raised? || Entry(y, i, j).Raised?
                                     || Arith(op, Entry(x, i, j).value, Entry(y, i, j).value).Raised?)
  {
    if m == 0 then Ok([])
    else match ElementRow(op, x, y, i, m - 1)
      case Raised => Raised
      case Ok(front) =>
        match Entry(x, i, m - 1)
        case Raised => Raised
        case Ok(a) =>
          match Entry(y, i, m - 1)
          case Raised => Raised
          case Ok(b) =>
            match Arith(op, a, b)
            case Raised => Raised
            case Ok(c) => Ok(front + [c])
  }

  /** Rows 0 .. n-1 of an element-wise operation, each as long as x[0]. */
  function ElementRows(op: Operator, x: Value, y: Value, n: nat, m: nat): (r: Checked<seq<Value>>)
    requires op in {Plus, Minus, Times, Divide}
    ensures r.Ok? ==> |r.value| == n
    ensures r.Ok? ==> forall i :: 0 <= i < n ==> r.value[i].VList? && ElementRow(op, x, y, i, m) == Ok(r.value[i].items)
    ensures r.Raised? <==> exists i :: 0 <= i < n && ElementRow(op, x, y, i, m).Raised?
  {
    if n == 0 then Ok([])
    else match ElementRows(op, x, y, n - 1, m)
      case Raised =>
        var i :| 0 <= i < n - 1 && ElementRow(op, x, y, i, m).Raised?;
        assert 0 <= i < n && ElementRow(op, x, y, i, m).Raised?;
        Raised
      case Ok(front) =>
        var last := ElementRow(op, x, y, n - 1, m);
        if last.Raised? then
          assert 0 <= n - 1 < n && ElementRow(op, x, y, n - 1, m).Raised?;
          Raised
        else Ok(front + [VList(last.value)])
  }

  /** The element-wise entries of ExpressionDict: the shape is the left
      operand's, `len(x)` rows of `len(x[0])` columns. */
  function ElementWise(op: Operator, x: Value, y: Value): (r: Checked<Value>)
    requires op in {Plus, Minus, Times, Divide}
    ensures !(x.VList? || x.VStr?) ==> r.Raised?
    ensures x == VList([]) || x == VStr([]) ==> r == Ok(VList([]))
    ensures r.Ok? && Len(x).Ok? && Len(x).value > 0 ==>
              Subscript(x, VInt(0)).Ok? && Len(Subscript(x, VInt(0)).value).Ok? &&
              var n, m := Len(x).value, Len(Subscript(x, VInt(0)).value).value;
              && r.value.VList? && |r.value.items| == n
              && forall i :: 0 <= i < n ==> r.value.items[i].VList? && ElementRow(op, x, y, i, m) == Ok(r.value.items[i].items)
  {
    match Len(x)
    case Raised => Raised
    case Ok(n) =>
      if n == 0 then Ok(VList([]))
      else match Subscript(x, VInt(0))
        case Raised => Raised
        case Ok(first) =>
          match Len(first)
          case Raised => Raised
          case Ok(m) =>
            match ElementRows(op, x, y, n, m)
            case Raised => Raised
            case Ok(rows) => Ok(VList(rows))
  }

  /** ExpressionDict: comparison operators have no entry (KeyError). */
  function BinOp(op: Operator, x: Value, y: Value): (r: Checked<Value>)
    ensures op.IsComparison() ==> r.Raised?
    ensures op in {Plus, Minus, Times, Divide} ==> r == Arith(op, x, y)
    ensures op.IsElementwise() ==>
              r == ElementWise(if op.DotPlus? then Plus else if op.DotMinus? then Minus
                               else if op.DotTimes? then Times else Divide, x, y)
  {
    match op
    case Plus => Add(x, y)
    case Minus => Sub(x, y)
    case Times => Mul(x, y)
    case Divide => Div(x, y)
    case DotPlus => ElementWise(Plus, x, y)
    case DotMinus => ElementWise(Minus, x, y)
    case DotTimes => ElementWise(Times, x, y)
    case DotDivide => ElementWise(Divide, x, y)
    case _ => Raised
  }

  /** AssignmentDict: the left side's current value `x` and the right `y`. */
  function AssignValue(op: AssignOp, x: Value, y: Value): (r: Checked<Value>)
    ensures op.Assign? ==> r == Ok(y)
    ensures !op.Assign? ==> r == BinOp(op.Arith(), x, y)
  {
    if op.Assign? then Ok(y) else Arith(op.Arith(), x, y)
  }

  // ----- FunctionDict -----

  /** `[[f(i, j) for j in range(n)] for i in range(n)]` as an n by n list. */
  function Square(n: int, kind: FunName): (r: seq<Value>)
    ensures |r| == if n <= 0 then 0 else n
  {
    if n <= 0 then [] else seq(n, i requires 0 <= i < n => VList(seq(n, j requires 0 <= j < n => Cell(kind, i, j))))
  }

  function Cell(kind: FunName, i: int, j: int): (r: Value)
    ensures r == VInt(1) <==> kind.Ones? || (kind.Eye? && i == j)
    ensures r == VInt(0) <==> kind.Zeros? || (kind.Eye? && i != j)
  {
    match kind
    case Zeros => VInt(0)
    case Ones => VInt(1)
    case Eye => if j == i then VInt(1) else VInt(0)
  }

  /** FunctionDict: `range(x)` needs an int; a negative one gives []. */
  function Construct(kind: FunName, x: Value): (r: Checked<Value>)
    ensures r.Ok? <==> x.VInt?
    ensures r.Ok? ==> r.value == VList(Square(x.i, kind))
  {
    if x.VInt? then Ok(VList(Square(x.i, kind))) else Raised
  }

  // ----- transpose: [list(x) for x in zip(*v)] -----

  /** `iter(v)`: the elements of a list, the characters of a str. */
  function Iter(v: Value): (r: Checked<seq<Value>>)
    ensures r.Ok? <==> v.VList? || v.VStr?
    ensures v.VList? ==> r == Ok(v.items)
    ensures v.VStr? ==> r.Ok? && |r.value| == |v.s| && forall k :: 0 <= k < |v.s| ==> r.value[k] == VStr([v.s[k]])
  {
    match v
    case VList(xs) => Ok(xs)
    case VStr(s) => Ok(seq(|s|, k requires 0 <= k < |s| => VStr([s[k]])))
    case _ => Raised
  }

  /** The iterables zip is given, each turned into its elements. */
  function IterAll(vs: seq<Value>): (r: Checked<seq<seq<Value>>>)
    ensures r.Ok? <==> forall k :: 0 <= k < |vs| ==> Iter(vs[k]).Ok?
    ensures r.Ok? ==> |r.value| == |vs| && forall k :: 0 <= k < |vs| ==> r.value[k] == Iter(vs[k]).value
  {
    if vs == [] then Ok([])
    else match Iter(vs[0])
      case Raised => Raised
      case Ok(first) =>
        match IterAll(vs[1..])
        case Raised => Raised
        case Ok(rest) => Ok([first] + rest)
  }

  /** The length of the shortest of the sequences (zip stops there). */
  function Shortest(cols: seq<seq<Value>>): (m: nat)
    requires |cols| > 0
    ensures forall k :: 0 <= k < |cols| ==> m <= |cols[k]|
    ensures exists k :: 0 <= k < |cols| && m == |cols[k]|
  {
    if |cols| == 1 then |cols[0]|
    else
      var rest := Shortest(cols[1..]);
      if |cols[0]| <= rest then |cols[0]| else rest
  }

  /** zip's tuples as lists: tuple j holds element j of every sequence. */
  function Zip(cols: seq<seq<Value>>): (r: seq<Value>)
    ensures |cols| == 0 ==> r == []
    ensures |cols| > 0 ==> |r| == Shortest(cols)
    ensures forall j :: 0 <= j < |r| ==>
              (r[j].VList? && |r[j].items| == |cols| && forall k :: 0 <= k < |cols| ==> r[j].items[k] == cols[k][j])
  {
    if |cols| == 0 then []
    else seq(Shortest(cols), j requires 0 <= j < Shortest(cols) =>
           VList(seq(|cols|, k requires 0 <= k < |cols| => cols[k][j])))
  }

  /** The transposition visit. */
  function Transpose(v: Value): (r: Checked<Value>)
    ensures r.Ok? <==> Iter(v).Ok? && IterAll(Iter(v).value).Ok?
    ensures r.Ok? ==> r.value.VList?
  {
    match Iter(v)
    case Raised => Raised
    case Ok(rows) =>
      match IterAll(rows)
      case Raised => Raised
      case Ok(cols) => Ok(VList(Zip(cols)))
  }

  // ----- range(start, end + 1, step) -----

  /** Python's `range(start, stop, step)` with a non-zero step. */
  function RangeSeq(start: int, stop: int, step: int): (r: seq<int>)
    requires step != 0
    ensures forall k :: 0 <= k < |r| ==> r[k] == start + k * step
    ensures step > 0 ==> (forall k :: 0 <= k < |r| ==> r[k] < stop) && start + |r| * step >= stop
    ensures step < 0 ==> (forall k :: 0 <= k < |r| ==> r[k] > stop) && start + |r| * step <= stop
    decreases if step > 0 then stop - start else start - stop
  {
    if (step > 0 && start >= stop) || (step < 0 && start <= stop) then []
    else
      var rest := RangeSeq(start + step, stop, step);
      forall k | 0 <= k <= |rest|
        ensures start + step + k * step == start + (k + 1) * step
      {
        StepShift(start, step, k);
      }
      [start] + rest
  }

  lemma StepShift(start: int, step: int, k: int)
    ensures start + step + k * step == start + (k + 1) * step
  {
  }

  /** The range visit on evaluated bounds: ints only, step 0 raises ValueError. */
  function RangeValues(start: Value, end: Value, step: Value): (r: Checked<seq<int>>)
    ensures r.Ok? <==> start.VInt? && end.VInt? && step.VInt? && step.i != 0
    ensures r.Ok? ==> r.value == RangeSeq(start.i, end.i + 1, step.i)
  {
    if start.VInt? && end.VInt? && step.VInt? && step.i != 0 then Ok(RangeSeq(start.i, end.i + 1, step.i))
    else Raised
  }

  // ----- ConditionDict -----

  /** Python's `==`: numbers by value, str and list structurally, None
      equals only None, values of different kinds are unequal. */
  function PyEq(x: Value, y: Value): (r: bool)
    ensures IsNumber(x) && IsNumber(y) ==> (r <==> AsReal(x) == AsReal(y))
    ensures x.VStr? && y.VStr? ==> (r <==> x.s == y.s)
    ensures r && x.VList? ==> y.VList? && |x.items| == |y.items|
    ensures r ==> (IsNumber(x) <==> IsNumber(y)) && (x.VStr? <==> y.VStr?) && (x.VList? <==> y.VList?)
                  && (x.VNone? <==> y.VNone?)
  {
    if IsNumber(x) && IsNumber(y) then AsReal(x) == AsReal(y)
    else if x.VStr? && y.VStr? then x.s == y.s
    else if x.VList? && y.VList? then
      |x.items| == |y.items| && forall k :: 0 <= k < |x.items| ==> PyEq(x.items[k], y.items[k])
    else x.VNone? && y.VNone?
  }

  function CompareInts(op: Operator, a: int, b: int): bool
    requires op in {Lt, Le, Gt, Ge}
  {
    match op
    case Lt => a < b
    case Le => a <= b
    case Gt => a > b
    case Ge => a >= b
  }

  function CompareReals(op: Operator, a: real, b: real): bool
    requires op in {Lt, Le, Gt, Ge}
  {
    match op
    case Lt => a < b
    case Le => a <= b
    case Gt => a > b
    case Ge => a >= b
  }

  /** Lexicographic comparison of two strs by code point. */
  function CompareStrs(op: Operator, s: string, t: string): (r: bool)
    requires op in {Lt, Le, Gt, Ge}
    ensures s <= t || t <= s ==> r == CompareInts(op, |s|, |t|)
    ensures forall k :: 0 <= k < |s| && k < |t| && s[..k] == t[..k] && s[k] != t[k] ==>
              r == CompareInts(op, s[k] as int, t[k] as int)
  {
    if s == [] || t == [] then CompareInts(op, |s|, |t|)
    else if s[0] != t[0] then CompareInts(op, s[0] as int, t[0] as int)
    else
      assert forall k :: 1 <= k <= |s| && k <= |t| && s[..k] == t[..k] ==>
        s[1..][..k - 1] == t[1..][..k - 1] by {
        forall k | 1 <= k <= |s| && k <= |t| && s[..k] == t[..k]
          ensures s[1..][..k - 1] == t[1..][..k - 1]
        {
          assert s[1..][..k - 1] == s[..k][1..] && t[1..][..k - 1] == t[..k][1..];
        }
      }
      CompareStrs(op, s[1..], t[1..])
  }

  /** `<`, `<=`, `>`, `>=`: numbers by value, strs and lists
      lexicographically; other kinds raise TypeError. */
  function Order(op: Operator, x: Value, y: Value): (r: Checked<bool>)
    requires op in {Lt, Le, Gt, Ge}
    ensures IsNumber(x) && IsNumber(y) ==> r == Ok(CompareReals(op, AsReal(x), AsReal(y)))
    ensures x.VStr? && y.VStr? ==> r == Ok(CompareStrs(op, x.s, y.s))
    ensures !(x.VList? && y.VList?) ==> (r.Ok? <==> (IsNumber(x) && IsNumber(y)) || (x.VStr? && y.VStr?))
    ensures x.VList? && y.VList? && (x.items <= y.items || y.items <= x.items) ==>
              r == Ok(CompareInts(op, |x.items|, |y.items|))
    ensures x == y && (IsNumber(x) || x.VStr? || x.VList?) ==> r == Ok(op.Le? || op.Ge?)
    decreases x, 1
  {
    if IsNumber(x) && IsNumber(y) then Ok(CompareReals(op, AsReal(x), AsReal(y)))
    else if x.VStr? && y.VStr? then Ok(CompareStrs(op, x.s, y.s))
    else if x.VList? && y.VList? then CompareLists(op, x.items, y.items)
    else Raised
  }

  /** A list comparison decides at the first pair of unequal elements, or
      by the lengths when one list is a prefix of the other. */
  function CompareLists(op: Operator, a: seq<Value>, b: seq<Value>): (r: Checked<bool>)
    requires op in {Lt, Le, Gt, Ge}
    ensures a <= b || b <= a ==> r == Ok(CompareInts(op, |a|, |b|))
    ensures forall k :: 0 <= k < |a| && k < |b| && a[..k] == b[..k] && !PyEq(a[k], b[k]) ==>
              r == Order(op, a[k], b[k])
    decreases a, 0
  {
    if a == [] || b == [] then Ok(CompareInts(op, |a|, |b|))
    else
      PyEqReflexive(a[0]);
      assert forall k :: 1 <= k <= |a| && k <= |b| && a[..k] == b[..k] ==>
        a[0] == b[0] && a[1..][..k - 1] == b[1..][..k - 1] by {
        forall k | 1 <= k <= |a| && k <= |b| && a[..k] == b[..k]
          ensures a[0] == b[0] && a[1..][..k - 1] == b[1..][..k - 1]
        {
          assert a[0] == a[..k][0] && b[0] == b[..k][0];
          assert a[1..][..k - 1] == a[..k][1..] && b[1..][..k - 1] == b[..k][1..];
        }
      }
      if !PyEq(a[0], b[0]) then Order(op, a[0], b[0])
      else CompareLists(op, a[1..], b[1..])
  }

  /** ConditionDict: arithmetic operators have no entry (KeyError). */
  function Condition(op: Operator, x: Value, y: Value): (r: Checked<bool>)
    ensures op.Eq? ==> r == Ok(PyEq(x, y))
    ensures op.Ne? ==> r == Ok(!PyEq(x, y))
    ensures !op.IsComparison() ==> r.Raised?
    ensures op in {Lt, Le, Gt, Ge} ==> r == Order(op, x, y)
  {
    match op
    case Eq => Ok(PyEq(x, y))
    case Ne => Ok(!PyEq(x, y))
    case Lt => Order(op, x, y)
    case Le => Order(op, x, y)
    case Gt => Order(op, x, y)
    case Ge => Order(op, x, y)
    case _ => Raised
  }

  // ----- properties of the tables -----

  /** A list of n rows, each a list of m values. */
  predicate IsMatrix(v: Value, n: nat, m: nat)
  {
    v.VList? && |v.items| == n && forall i :: 0 <= i < n ==> v.items[i].VList? && |v.items[i].items| == m
  }

  /** `zeros(n)`, `ones(n)` and `eye(n)` are n by n, of 0s, of 1s, and of
      1 exactly on the diagonal; a negative n gives an empty list. */
  lemma ConstructShape(kind: FunName, n: int)
    ensures n >= 0 ==> IsMatrix(Construct(kind, VInt(n)).value, n, n)
    ensures n < 0 ==> Construct(kind, VInt(n)) == Ok(VList([]))
    ensures n >= 0 ==> forall i, j :: 0 <= i < n && 0 <= j < n ==>
      var e := Construct(kind, VInt(n)).value.items[i].items[j];
      && (kind.Zeros? ==> e == VInt(0))
      && (kind.Ones? ==> e == VInt(1))
      && (kind.Eye? ==> (e == VInt(1) <==> i == j) && (e == VInt(0) <==> i != j))
  {
  }

  /** zip over the rows of an n by m matrix, n > 0, gives m columns of n. */
  lemma TransposeShape(v: Value, n: nat, m: nat)
    requires IsMatrix(v, n, m) && n > 0
    ensures Transpose(v).Ok? && IsMatrix(Transpose(v).value, m, n)
    ensures forall i, j :: 0 <= i < n && 0 <= j < m ==>
      Transpose(v).value.items[j].items[i] == v.items[i].items[j]
  {
    var cols := IterAll(v.items).value;
    assert forall k :: 0 <= k < n ==> |cols[k]| == m;
    assert Shortest(cols) == m;
  }

  /** Transposing a matrix twice gives it back, unless it has rows but no
      columns (zip of empty rows is empty). */
  lemma TransposeTwice(v: Value, n: nat, m: nat)
    requires IsMatrix(v, n, m) && (n == 0 || m > 0)
    ensures Transpose(v).Ok? && Transpose(Transpose(v).value) == Ok(v)
  {
    if n == 0 {
      assert v.items == [];
      assert Iter(v) == Ok([]) && IterAll([]) == Ok([]);
    } else {
      TransposeShape(v, n, m);
      var w := Transpose(v).value;
      TransposeShape(w, m, n);
      var u := Transpose(w).value;
      forall i | 0 <= i < n
        ensures u.items[i] == v.items[i]
      {
        assert u.items[i].items == v.items[i].items;
      }
      assert u.items == v.items;
    }
  }

  /** The rows are cut to the shortest one: [[1, 2], [3]]' is [[1, 3]]. */
  lemma TransposeTruncates()
    ensures Transpose(VList([VList([VInt(1), VInt(2)]), VList([VInt(3)])]))
         == Ok(VList([VList([VInt(1), VInt(3)])]))
  {
    var v := VList([VList([VInt(1), VInt(2)]), VList([VInt(3)])]);
    var cols := IterAll(v.items).value;
    assert cols == [[VInt(1), VInt(2)], [VInt(3)]];
    assert Shortest(cols) == 1;
    var z := Zip(cols);
    assert |z| == 1 && |z[0].items| == 2 && z[0].items[0] == VInt(1) && z[0].items[1] == VInt(3);
    assert z[0].items == [VInt(1), VInt(3)];
    assert z == [VList([VInt(1), VInt(3)])];
  }

  /** Every entry of a matrix, where an operator applies to the pair. */
  predicate Applicable(op: Operator, x: Value, y: Value, n: nat, m: nat)
    requires op in {Plus, Minus, Times, Divide} && IsMatrix(x, n, m) && IsMatrix(y, n, m)
  {
    forall i, j :: 0 <= i < n && 0 <= j < m ==> Arith(op, x.items[i].items[j], y.items[i].items[j]).Ok?
  }

  /** `.+ .- .* ./` on two n by m matrices give an n by m matrix whose
      entries are the operator applied to the corresponding entries. */
  lemma ElementWiseShape(op: Operator, x: Value, y: Value, n: nat, m: nat)
    requires op in {Plus, Minus, Times, Divide} && IsMatrix(x, n, m) && IsMatrix(y, n, m) && n > 0
    requires Applicable(op, x, y, n, m)
    ensures ElementWise(op, x, y).Ok? && IsMatrix(ElementWise(op, x, y).value, n, m)
    ensures forall i, j :: 0 <= i < n && 0 <= j < m ==>
      Ok(ElementWise(op, x, y).value.items[i].items[j]) == Arith(op, x.items[i].items[j], y.items[i].items[j])
  {
    forall i, j | 0 <= i < n && 0 <= j < m
      ensures Entry(x, i, j) == Ok(x.items[i].items[j]) && Entry(y, i, j) == Ok(y.items[i].items[j])
    {
    }
    forall i | 0 <= i < n
      ensures ElementRow(op, x, y, i, m).Ok?
    {
    }
    var rows := ElementRows(op, x, y, n, m);
    assert rows.Ok?;
  }

  /** On a vector the left operand's rows are numbers, and `len` of a
      number raises: `[1, 2] .+ [3, 4]` fails at run time. */
  lemma ElementWiseOnVectorRaises(op: Operator, xs: seq<Value>, y: Value)
    requires op in {Plus, Minus, Times, Divide} && |xs| > 0 && IsNumber(xs[0])
    ensures ElementWise(op, VList(xs), y).Raised?
  {
  }

  /** `range(start, end + 1, step)` with a positive step: the progression
      from start in steps of step, its last element no more than end and
      one more step beyond it; with step 1 exactly start .. end. */
  lemma InclusiveRange(start: int, end: int, step: int)
    requires step > 0
    ensures var r := RangeSeq(start, end + 1, step);
      && (|r| == 0 <==> start > end)
      && (|r| > 0 ==> r[0] == start && r[|r| - 1] <= end < r[|r| - 1] + step)
      && (step == 1 ==> (forall x :: x in r <==> start <= x <= end) && |r| == if start > end then 0 else end - start + 1)
  {
    var r := RangeSeq(start, end + 1, step);
    if |r| > 0 {
      assert r[|r| - 1] + step == start + |r| * step;
    }
    if step == 1 {
      forall x | start <= x <= end
        ensures x in r
      {
        assert r[x - start] == x;
      }
    }
  }

  /** Python's `==` is reflexive on every value. */
  lemma {:induction false} PyEqReflexive(x: Value)
    ensures PyEq(x, x)
  {
    if x.VList? {
      forall k | 0 <= k < |x.items|
        ensures PyEq(x.items[k], x.items[k])
      {
        PyEqReflexive(x.items[k]);
      }
    }
  }

  /** Python's `==` is symmetric. */
  lemma {:induction false} PyEqSymmetric(x: Value, y: Value)
    ensures PyEq(x, y) == PyEq(y, x)
  {
    if x.VList? && y.VList? && |x.items| == |y.items| {
      forall k | 0 <= k < |x.items|
        ensures PyEq(x.items[k], y.items[k]) == PyEq(y.items[k], x.items[k])
      {
        PyEqSymmetric(x.items[k], y.items[k]);
      }
    }
  }

  /** The Access visit's loop: `for value in idx: m = m[value]`. */
  function Subscripts(m: Value, idx: seq<Value>): (r: Checked<Value>)
    ensures idx == [] ==> r == Ok(m)
    ensures |idx| == 2 && idx[0].VInt? && idx[1].VInt? ==> r == Entry(m, idx[0].i, idx[1].i)
    decreases idx
  {
    if idx == [] then Ok(m)
    else match Subscript(m, idx[0])
      case Raised => Raised
      case Ok(v) => Subscripts(v, idx[1..])
  }

  /** A single index is a single subscription (a vector access). */
  lemma SubscriptsOne(m: Value, idx: seq<Value>)
    requires |idx| == 1
    ensures Subscripts(m, idx) == Subscript(m, idx[0])
  { }
}
