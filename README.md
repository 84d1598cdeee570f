# A verified model of a MATLAB-like matrix language's semantic core

The repository implements a small MATLAB-like language in Python, with a
lexer, a parser, a static type checker and a tree-walking interpreter. It
has integers, floats, strings, vectors and matrices, `zeros`/`ones`/`eye`,
transposition, element-wise operators `.+ .- .* ./`, and `for`, `while`,
`if`, `break`, `continue`, `return` and `print` statements. This project
models the three files that give the language its meaning and proves
properties of them in Dafny 4.11.

- **Scope stack** (ScopeTable.py; modules `Types` and `Scopes`).
  - `Types` holds the type lattice: `IntType`, `FloatType`, `StringType`,
    `VectorType`, `MatrixType`, `UnknownType` and `VoidType`. A scalar type
    may carry a known constant value. A vector or matrix type may carry its
    element types, and its dimensions are `Option<nat>`. The constructors
    default the dimensions to `0`, not to None.
  - `Scopes` holds the numbered stack of tagged name→entry frames: the
    value `Env` with the invariant "frames are exactly 0..current", and the
    class `ScopeTable`. The class's `put`, `get`, `find_variable_scope`,
    `find_scope`, `pushScope` and `popScope` are methods that update the
    frame map and the counter in place. Each is proved against pure
    functions on `Env`.
- **Type checker** (TypeChecker.py; modules `TypeRules` and `TypeCheck`).
  - `TypeRules` holds the static operator rules `checkMatrixExprType`,
    `checkCompExprType`, `checkBasicType` (with constant folding) and
    `checkExprType`, as pure functions.
  - `TypeCheck` holds the visitors. Pure functions give each visit's type,
    the scope stack it leaves behind and the diagnostics it prints. The
    class `TypeChecker` threads a `ScopeTable<Type>` and a diagnostic log
    through methods proved equal to those functions. Printed messages are
    modelled as diagnostic events, not as text.
- **Evaluator** (Interpreter.py; modules `PyValues` and `Interp`).
  - `PyValues` holds Python's runtime values and the operator tables
    `ExpressionDict`, `AssignmentDict`, `FunctionDict` and `ConditionDict`,
    plus transpose through `zip`, `range` and subscription.
  - `Interp` holds the statement semantics as functions from a state to an
    outcome. The state is the memory stack and the printed lines. The
    outcome carries a signal: `Normal`, `BreakSig`, `ContinueSig`,
    `ReturnSig(v)`, `Fault` for any other Python exception, or `OutOfFuel`.
  - The class `Interpreter` owns a `ScopeTable<Value>`, standing for the
    memory stack. Its visit methods, with a `for` and a `while` loop whose
    loop invariants tie them to the functions, are proved to compute
    exactly those outcomes.
  - A while loop is given a fuel bound: one unit per iteration.
- **Loop control flow** (Interpreter.py:75-106; module `Loops`). For
  every body and every range it states how `for` and `while` react to
  each signal of a round, and it works through the two loops
  `for i = 1:5 { if (i == 3) { break; } print i; }` and the same with
  `continue`.
- **Where an assigned name lives** (module `Scoping`). Both the
  interpreter and the checker write a name into the innermost frame that
  already binds it, or else into the current frame. So a name first
  assigned inside an `if` is gone once the `if` ends. A name bound outside
  a `for` is rebound by the body, and after the loop it holds the last
  value. Both halves are stated for the interpreter and for the checker.

A Python exception that nothing in the core catches is `Raised` (in the
checker) or `Fault` (in the interpreter). Every such path is modelled as
an outcome, not excluded by a precondition.

In these respects the code behaves as follows, and the model follows the
code:

- Only a `for` or a `while` catches `break`, `continue` and `return`. An
  `if` or `if`/`else` that a signal leaves does not pop the frame it
  pushed (Interpreter.py:108-122), so the frame leaks. Lemma
  `Interp.BreakThroughIfLeaksFrame` shows a concrete leak.
- A `return` inside a loop ends the loop without popping its frame. The
  returned value is dropped, and execution goes on after the loop
  (Interpreter.py:87-88, 103-104). Lemma `Interp.ReturnInForLeaksFrame`
  shows this.
- The interpreter's Program and Block visits push no frame
  (Interpreter.py:61-69). The checker's do (TypeChecker.py:196-206).
- The interpreter reads the left side of an assignment before its right
  side. For an indexed target `node.left.id.value` raises, so every
  indexed assignment faults (Interpreter.py:148-156).
- The checker's `errors` flag (TypeChecker.py:33) is never set.
- `MemoryStack` (Memory.py) is not part of this model. Its `get` is
  modelled as "innermost binding, or None when unbound". Its `insert` is
  modelled as "rebind where bound, else bind in the top frame". This is
  how the `for` visitor and the first assignment of a name use them.

## Model

| member | source | states |
|---|---|---|
| Types.NewVectorType | ScopeTable.py:29-37 | a vector type built from an element list has that list as value and its length as size; without a list it keeps the given size (0 by default) |
| Types.NewMatrixType | ScopeTable.py:40-50 | a matrix type built from a row list has height = number of rows and width = size of the first row; without rows it keeps the given width and height (0 by default) |
| Types.ValueOf | TypeChecker.py:306-307 | the `value` attribute the index checks read is an int exactly for an Int type with a known constant |
| Types.NumValue | TypeChecker.py:89-150 | the known numeric constant of an Int or Float type, and none for other types |
| Scopes.SymbolTable.Put | ScopeTable.py:83-84 | `SymbolTable.put` binds the key to the symbol, keeps every other binding, and keeps the frame's tag and number |
| Scopes.SymbolTable.Get | ScopeTable.py:86-87 | `SymbolTable.get` succeeds exactly when the key is bound and returns its symbol; a missing key raises |
| Scopes.Initial | ScopeTable.py:92-94 | a new scope table has the single frame 0, tagged "root", and is well formed |
| Scopes.PushFrame | ScopeTable.py:120-123 | push adds one empty frame, tagged as given and numbered current+1, and leaves frames 0..current unchanged |
| Scopes.PopFrame | ScopeTable.py:125-128 | pop decrements the counter and leaves every frame below unchanged |
| Scopes.PutSymbol | ScopeTable.py:96-99 | put into frame n changes only frame n, and only by binding the name |
| Scopes.GetSymbol | ScopeTable.py:101-104 | get from frame n succeeds exactly when frame n exists and binds the name |
| Scopes.InnermostBinding | ScopeTable.py:106-111 | the frame found is the largest number ≤ current that binds the name; None exactly when no frame binds it |
| Scopes.InnermostTag | ScopeTable.py:113-118 | the frame found is the largest number ≤ current with that tag; None exactly when no frame has it |
| Scopes.SearchName | ScopeTable.py:106-111 | the descending search from frame k finds the innermost binding at or below k |
| Scopes.SearchTag | ScopeTable.py:113-118 | the descending search from frame k finds the innermost frame with the tag at or below k |
| Scopes.Lookup | TypeChecker.py:188-194 | a name is found exactly when some frame binds it, and the entry of its innermost binding is returned |
| Scopes.Rebind | TypeChecker.py:169-177 | putVariable writes into the frame that already binds the name, else into the current frame; no other frame and no tag changes, and the name then looks up to the new entry |
| Scopes.PopAfterPush | ScopeTable.py:120-128 | pushing a frame and popping it restores the previous stack unchanged |
| Scopes.GetAfterPut | ScopeTable.py:83-87 | get from frame n after put into frame n returns what was put |
| Scopes.SearchNameAgrees | ScopeTable.py:106-111 | the name search depends only on which frames bind the name |
| Scopes.RebindKeepsOthers | TypeChecker.py:169-177 | rebinding one name leaves the lookup of every other name unchanged |
| Scopes.RebindKeepsAllOthers | TypeChecker.py:169-177 | the same, for all other names at once |
| Scopes.LookupAfterPush | ScopeTable.py:120-123 | a freshly pushed empty frame hides no binding |
| Scopes.SearchTagAgrees | ScopeTable.py:113-118 | the tag search depends only on the frames' tags |
| Scopes.InnermostTagAfterPush | ScopeTable.py:113-123 | after a push with tag t, find_scope(t) is the new frame and other tags are found where they were |
| Scopes.ScopeTable.constructor | ScopeTable.py:92-94 | a new table is in the initial state |
| Scopes.ScopeTable.Put | ScopeTable.py:96-99 | with no frame number put writes the current frame; with one it writes that frame; an out-of-range number changes nothing and reports failure |
| Scopes.ScopeTable.Get | ScopeTable.py:101-104 | get reads the given frame, or the current one by default |
| Scopes.ScopeTable.FindVariableScope | ScopeTable.py:106-111 | the descending loop returns the innermost frame binding the name, or None |
| Scopes.ScopeTable.FindScope | ScopeTable.py:113-118 | the descending loop returns the innermost frame with the tag, or None |
| Scopes.ScopeTable.PushScope | ScopeTable.py:120-123 | pushScope increments the counter, adds an empty frame with the tag and the new number, and returns the new number |
| Scopes.ScopeTable.PopScope | ScopeTable.py:125-128 | popScope removes exactly the top frame and decrements the counter; when no frame is left the deletion raises and nothing changes |
| Scopes.LookupAfterPop | ScopeTable.py:125-128 | popping a top frame that does not bind the name leaves the name's lookup unchanged |
| Scopes.UnboundAfterPop | ScopeTable.py:125-128 | a name that no frame below the top binds is unbound after the pop, whatever the top frame held |
| Scopes.PopRebindPush | TypeChecker.py:169-177 | writing an unbound name into a freshly pushed frame and popping it gives back exactly the stack before the push |
| Scopes.PopRebindUnbound | TypeChecker.py:169-177 | an unbound name is written into the current frame, so popping that frame unbinds it again |
| Scopes.RebindBelowTop | TypeChecker.py:169-177 | rebinding a name bound below the top frame, and not in it, leaves the top frame without it |
| Scopes.RebindKeepsFrames | TypeChecker.py:169-177 | rebinding one name changes no frame's membership of any other name |
| TypeRules.CheckMatrixExprType | TypeChecker.py:37-64 | element-wise ops: same-shaped operands with an unknown dimension give a default vector or matrix; known unequal dimensions give Unknown and one report; equal ones give that shape; vector or matrix with a number keeps the left shape; anything else is not typable |
| TypeRules.MatrixScalarAsWritten | TypeChecker.py:59-63 | as written, matrix × scalar reads `type2.width` on a scalar, so it raises unless the matrix width is None |
| TypeRules.MatrixScalarAsWrittenRaises | TypeChecker.py:59-63 | a width-2, height-3 matrix times the Int 2 raises as written; the corrected rule keeps its dimensions |
| TypeRules.CheckCompExprType | TypeChecker.py:67-86 | comparisons of like-shaped operands always give Int, even when a dimension clash is reported; unlike shapes are not typable |
| TypeRules.FoldInt | TypeChecker.py:90-150 | integer constant folding raises exactly on a known division by zero |
| TypeRules.FoldFloat | TypeChecker.py:96-131 | float constant folding raises exactly on a known division by zero |
| TypeRules.CheckBasicType | TypeChecker.py:89-150 | `+ - * /` raise exactly on a known zero divisor or on str * str constants; the result is Int exactly for Int with Int, Float for mixed numbers, String for strings; String `-` String and other mixes are not typable |
| TypeRules.IntFolding | TypeChecker.py:90-125 | Int constants fold to a+b, a-b and a*b; the corrected division keeps the quotient only when it is exact |
| TypeRules.IntQuotientAsWrittenNotIntegral | TypeChecker.py:120-123 | as written, 1/2 stores the non-integer 0.5 in an Int type; the corrected rule gives an Int of unknown value |
| TypeRules.Finish | TypeChecker.py:163-167 | a rule result of None becomes Unknown with a "cannot perform operation" report |
| TypeRules.CheckExprType | TypeChecker.py:153-167 | an Unknown operand gives Unknown with no report, before any rule is consulted; otherwise the result is Unknown with the "cannot perform" report exactly when no rule types the pair; element-wise ops on like shapes give the default shape, the clash report or the shape; comparisons of like shapes give Int with or without the clash report; `+ - * /` raise exactly when checkBasicType does and otherwise give its type with no report; the result is never Void, and only dimension and typability reports are printed |
| TypeRules.IntQuotientAsWritten | TypeChecker.py:120-123 | the folded Int/Int quotient is the real quotient: multiplied by the divisor it gives the dividend |
| TypeCheck.IdType | TypeChecker.py:188-194 | an identifier has the type of its innermost binding; an unbound one is Unknown with a "not initialized" report |
| TypeCheck.TranspositionType | TypeChecker.py:352-361 | transposing Matrix(w,h) gives Matrix(h,w); Unknown stays Unknown silently; any other type is Unknown with a report |
| TypeCheck.NegationType | TypeChecker.py:363-373 | negation keeps Int and Float and negates their constant; a String is Unknown with a report; vectors and matrices keep their dimensions |
| TypeCheck.NegationAsWritten | TypeChecker.py:363-366 | as written, negating an Int or Float of unknown value raises (`-None`); otherwise it agrees with the corrected rule |
| TypeCheck.FunctionType | TypeChecker.py:375-388 | zeros/ones/eye of an Int of value n ≥ 0 gives an n×n matrix with no report; an Int of value None gives a matrix of unknown width and height; Unknown gives the default matrix with no report; a negative Int gives Unknown with the "positive number" report; any other type gives Unknown with the "wanted type Int" report |
| TypeCheck.FunctionTypeAsWritten | TypeChecker.py:375-388 | as written, the checker agrees with the corrected rule except on a negative Int |
| TypeCheck.VectorAccessType | TypeChecker.py:301-318 | a number of indices other than one gives Unknown with the arity report; a non-constant index gives Unknown silently; a constant index i into a vector of unknown size raises; of known size, i ≥ size gives the out-of-bounds report, i < 0 the negative report, and an in-range i gives `value[i]` for a literal and Unknown silently when the elements are unknown |
| TypeCheck.MatrixAccessType | TypeChecker.py:319-339 | a number of indices other than two gives the arity report; a non-constant index gives Unknown silently; for constant [i, j], i is checked against the height and j against the width: out of bounds or negative gives that report, in range gives the literal's entry, or Unknown silently when the rows are unknown; an unknown height raises; on a literal or a matrix of known size it never raises on int indices |
| TypeCheck.RowsAgree | TypeChecker.py:394-398 | the row loop succeeds exactly when every row has the first row's size, and fails at the first row of another size |
| TypeCheck.MatrixLiteralType | TypeChecker.py:390-402 | no rows or a non-vector first row raises; one row gives that row's vector type; agreeing rows give a matrix with them as value; differing sizes give the default matrix and a report |
| TypeCheck.After | TypeChecker.py:347-350 | an operator rule's result follows the reports its operands printed |
| TypeCheck.SeqTypes | TypeChecker.py:404-408 | a sequence has one type per element and no break or continue reports |
| TypeCheck.TargetType | TypeChecker.py:284-293 | the left side of an assignment to a plain name has the type of its innermost binding, or None |
| TypeCheck.AssignedType | TypeChecker.py:267-278 | the assigned type prints no break or continue reports |
| TypeCheck.CheckStmt | TypeChecker.py:196-282 | a statement's visit keeps the stack well formed, leaves every frame's tag and depth as it found them, and only appends to the log |
| TypeCheck.CheckAssignment | TypeChecker.py:267-282 | an assignment succeeds exactly when its assigned type does; it keeps the tags and the depth and only appends to the log; `x op= e` makes x look up to the assigned type and leaves every other name's lookup unchanged; an indexed target leaves the stack unchanged |
| TypeCheck.CheckFor | TypeChecker.py:214-219 | a for visit pops the loop frame it pushed and only appends to the log |
| TypeCheck.CheckIfElse | TypeChecker.py:235-243 | an if/else visit pops both "if" frames it pushed and only appends to the log |
| TypeCheck.CheckBlock | TypeChecker.py:202-206 | a block visit pops the "block" frame it pushed and only appends to the log |
| TypeCheck.Guarded | TypeChecker.py:221-233 | a while or if visit pops the frame it pushed and only appends to the log |
| TypeCheck.Scoped | TypeChecker.py:218-219 | visiting a body in a pushed frame and popping it restores the lower frames' tags and the depth |
| TypeCheck.CheckStmts | TypeChecker.py:198-205 | an instruction list keeps the tags and the depth and only appends to the log |
| TypeCheck.JumpReports | TypeChecker.py:245-253 | a statement's visit adds exactly one break/continue report per break or continue not enclosed by a loop, and none when a loop encloses the statement |
| TypeCheck.JumpsCompound | TypeChecker.py:214-243 | the break/continue report count for for, while, if, if/else and block statements |
| TypeCheck.JumpsSimple | TypeChecker.py:245-282 | the break/continue report count for assignments, jumps, return and print |
| TypeCheck.JumpsAssignment | TypeChecker.py:267-282 | an assignment adds no break/continue report |
| TypeCheck.JumpsJump | TypeChecker.py:245-253 | break and continue are reported exactly when no "loop" frame is open |
| TypeCheck.JumpsFor | TypeChecker.py:214-219 | a for statement adds no break/continue report, whatever its body holds |
| TypeCheck.JumpsBlock | TypeChecker.py:202-206 | a block adds the reports of its unenclosed jumps |
| TypeCheck.JumpsIfElse | TypeChecker.py:235-243 | an if/else adds the reports of the unenclosed jumps in both branches |
| TypeCheck.JumpsGuarded | TypeChecker.py:221-233 | a while adds none; an if adds those of its body |
| TypeCheck.JumpsScoped | TypeChecker.py:218-219 | a body visited in a pushed frame adds its own count |
| TypeCheck.JumpsAll | TypeChecker.py:198-205 | an instruction list adds the reports of all its unenclosed jumps |
| TypeCheck.ProgramJumpReports | TypeChecker.py:196-200 | a checked program prints no break/continue report exactly when no break or continue lies outside every loop |
| TypeCheck.MatrixAccessAsWrittenUncheckedRow | TypeChecker.py:326 | as written, only j is checked to be an int, so `A[k, 0]` on `A = zeros(2)` with k never assigned (Unknown, value None) raises in `None >= width`; the corrected rule gives Unknown silently |
| TypeCheck.MatrixAccessAsWrittenSwapsBounds | TypeChecker.py:328-337 | as written, i is bounded by the width and indexes the rows: [0,2] on a 2-row, 3-column literal is reported out of bounds and [2,0] raises; the corrected rule gives the entry and the report |
| TypeCheck.FunctionTypeAsWrittenReportsTwice | TypeChecker.py:381-388 | as written, a negative argument prints the "positive number" report and then falls through to the "wanted type Int" report |
| TypeCheck.NegationAsWrittenRaises | TypeChecker.py:366 | as written, negating an Int of unknown value raises; the corrected rule gives the Int of unknown value |
| TypeCheck.TargetTypeAsWrittenMissesVariable | TypeChecker.py:289 | as written, the left side of `x += …` is looked up among the scope tags, so a bound x is seen as uninitialized |
| TypeCheck.TargetTypeAsWrittenIgnoresBindings | TypeChecker.py:289-293 | as written, whenever no frame is tagged with the variable's name the left side is None, whatever is bound |
| TypeCheck.MatrixLiteralIsIndexable | TypeChecker.py:390-402 | agreeing vector literals form a matrix literal whose entries the access rule can read |
| TypeCheck.TypeChecker.constructor | TypeChecker.py:32-34 | a new checker has a fresh, initial scope table and an empty log |
| TypeCheck.TypeChecker.VisitId | TypeChecker.py:188-194 | visit_IdNode computes IdType on the current stack |
| TypeCheck.TypeChecker.VisitSequence | TypeChecker.py:404-408 | the append loop computes the element types and reports in order |
| TypeCheck.TypeChecker.RowsAgreeLoop | TypeChecker.py:394-398 | the row-size loop computes RowsAgree |
| TypeCheck.TypeChecker.VisitMatrix | TypeChecker.py:390-402 | visit_MatrixNode computes the matrix literal's type |
| TypeCheck.TypeChecker.VisitExpr | TypeChecker.py:179-408 | visiting an expression computes ExprType on the current stack |
| TypeCheck.TypeChecker.VisitRange | TypeChecker.py:208-212 | visit_RangeNode types start + jump and visits the end |
| TypeCheck.TypeChecker.VisitTarget | TypeChecker.py:284-293 | the left side's type as TargetType gives it |
| TypeCheck.TypeChecker.PutVariable | TypeChecker.py:169-177 | putVariable updates the stack to Rebind of it |
| TypeCheck.TypeChecker.VisitAssignment | TypeChecker.py:267-282 | visit_AssignmentNode leaves the stack and log CheckAssignment gives, or reports a raise |
| TypeCheck.TypeChecker.VisitAssigned | TypeChecker.py:267-278 | the type to be stored, as AssignedType gives it |
| TypeCheck.TypeChecker.VisitJump | TypeChecker.py:245-253 | break/continue append their report exactly when no loop frame is open |
| TypeCheck.TypeChecker.VisitScoped | TypeChecker.py:218-219 | visit a body in the pushed frame and pop it |
| TypeCheck.TypeChecker.VisitGuarded | TypeChecker.py:221-233 | the while and if visits |
| TypeCheck.TypeChecker.VisitStmt | TypeChecker.py:196-282 | visiting a statement leaves the stack and log CheckStmt gives, or reports the raise |
| TypeCheck.TypeChecker.VisitReturn | TypeChecker.py:255-256 | the return visit only appends its expression's reports |
| TypeCheck.TypeChecker.VisitPrint | TypeChecker.py:258-260 | the print visit only appends its values' reports |
| TypeCheck.TypeChecker.VisitFor | TypeChecker.py:214-219 | the for visit as CheckFor gives it |
| TypeCheck.TypeChecker.VisitIfElse | TypeChecker.py:235-243 | the if/else visit as CheckIfElse gives it |
| TypeCheck.TypeChecker.VisitBlock | TypeChecker.py:202-206 | the block visit as CheckBlock gives it |
| TypeCheck.TypeChecker.VisitStmts | TypeChecker.py:198-199 | the instruction loop as CheckStmts gives it |
| TypeCheck.TypeChecker.VisitProgram | TypeChecker.py:196-200 | visit_ProgramNode checks the instructions in a "program" frame and pops it; on a fresh checker its log is CheckProgram's |
| TypeCheck.LiteralType | TypeChecker.py:179-186 | an int, float or str constant has the Int, Float or String type (and no other), carrying the constant as its known value |
| TypeCheck.ExprType | TypeChecker.py:179-408 | the visit of an expression prints no break/continue report; a constant's type is its literal type with no report, an identifier's is its innermost binding (or Unknown with the not-initialised report), a comparison is IntType without a value or Unknown, and a vector literal is a vector type |
| TypeCheck.AccessType | TypeChecker.py:295-345 | an Unknown base gives Unknown silently, a base that is neither vector nor matrix gives Unknown with the not-indexable report, and vectors and matrices go to the vector and matrix index rules |
| TypeCheck.MatrixAccessAsWritten | TypeChecker.py:319-339 | the code as written: an arity other than 2 is reported; two indices of which the second is not an int constant give Unknown silently; an int column with a numeric row at least the width is reported out of bounds (the row is compared with the width); a None row raises |
| TypeCheck.CondType | TypeChecker.py:262-265 | the condition visit raises when either operand's visit raises, and a comparison has IntType without a value or Unknown |
| TypeCheck.RangeType | TypeChecker.py:208-212 | the range visit raises when any of start, jump and end raises; it prints the start's, the jump's and the end's reports in that order first; Int start and jump with a typable end give an Int type |
| TypeCheck.TargetTypeAsWritten | TypeChecker.py:284-293 | the code as written looks the name up as a frame tag: no frame with that tag gives None; otherwise the name must be bound in that frame, whose entry is returned, and a missing entry raises |
| TypeCheck.CheckProgram | TypeChecker.py:196-200 | the reports of a checked program hold exactly one break/continue report per jump outside every loop |
| TypeCheck.JumpCountZero | TypeChecker.py:245-253 | a log holds no break/continue report exactly when its count of such reports is zero |
| PyValues.Repeat | Interpreter.py:12 | Python's `s * n` has n copies of s back to back, and is empty for n ≤ 0 |
| PyValues.Add | Interpreter.py:10 | `+` adds numbers (int exactly for two ints), concatenates strs and lists, and raises otherwise |
| PyValues.Sub | Interpreter.py:11 | `-` is defined exactly on numbers and subtracts them |
| PyValues.Mul | Interpreter.py:12 | numbers multiply (int exactly for two ints); a str or list times an int, in either order, is that many copies; every other pair raises |
| PyValues.Div | Interpreter.py:13 | `/` is defined exactly on numbers with a non-zero divisor and gives the exact float quotient |
| PyValues.Neg | Interpreter.py:175-177 | negation is defined exactly on numbers and keeps int and float apart |
| PyValues.Len | Interpreter.py:14-17 | `len` is defined exactly on strs and lists |
| PyValues.Subscript | Interpreter.py:162 | `m[k]` with an int k reads element k of a list, counting from the end when k is negative; it is defined exactly for an int k in range on a list or str, and raises otherwise |
| PyValues.SubscriptStr | Interpreter.py:162 | an int index in range into a str gives the one-character str at that position, counted from the end when negative |
| PyValues.ElementRow | Interpreter.py:14-17 | a row of an element-wise result has m entries, each the op applied to the corresponding entries; it raises exactly when some entry does |
| PyValues.ElementRows | Interpreter.py:14-17 | an element-wise result has n rows as ElementRow gives them; it raises exactly when some row does |
| PyValues.ElementWiseShape | Interpreter.py:14-17 | `.+ .- .* ./` on two n×m matrices give an n×m matrix whose [i][j] is the op on the [i][j] entries |
| PyValues.ElementWiseOnVectorRaises | Interpreter.py:14-17 | element-wise ops on a flat list of numbers raise, since `x[i][j]` subscripts a number |
| PyValues.AssignValue | Interpreter.py:20-26 | `=` stores the right value; `+= -= *= /=` store `old op right` |
| PyValues.Square | Interpreter.py:29-31 | the comprehension has n rows, none for n ≤ 0 |
| PyValues.Construct | Interpreter.py:28-32 | zeros/ones/eye are defined exactly on an int and build the n×n table |
| PyValues.ConstructShape | Interpreter.py:28-32 | zeros(n) is n×n of 0, ones(n) n×n of 1, eye(n) n×n with 1 exactly where i = j and 0 elsewhere; a negative n gives the empty list |
| PyValues.Iter | Interpreter.py:173 | iterating a list gives its items and a str its characters; anything else raises |
| PyValues.IterAll | Interpreter.py:173 | `zip(*v)` iterates every row of v |
| PyValues.Shortest | Interpreter.py:173 | zip stops at the shortest row |
| PyValues.Zip | Interpreter.py:173 | `zip` gives as many tuples as the shortest row, the k-th holding every row's k-th item |
| PyValues.Transpose | Interpreter.py:171-173 | transposition is defined exactly when the value and each row are iterable |
| PyValues.TransposeShape | Interpreter.py:173 | the transpose of an n×m matrix (n > 0) is m×n with result[j][i] = input[i][j] |
| PyValues.TransposeTwice | Interpreter.py:173 | transposing a matrix with non-empty rows twice gives it back |
| PyValues.TransposeTruncates | Interpreter.py:173 | transposing ragged rows drops the entries past the shortest row |
| PyValues.RangeSeq | Interpreter.py:73 | `range(start, stop, step)` is start + k·step for each k, stopping before stop in the direction of the step |
| PyValues.RangeValues | Interpreter.py:71-73 | the range node is `range(start, end + 1, jump)`, defined exactly on ints with a non-zero jump |
| PyValues.InclusiveRange | Interpreter.py:73 | with a positive step the range starts at start and ends at the last element ≤ end; with step 1 it is exactly start..end |
| PyValues.Condition | Interpreter.py:34-41 | `==` and `!=` are Python equality and its negation, `< <= > >=` are the Python ordering `Order`, and a non-comparison operator has no entry and raises |
| PyValues.PyEqReflexive | Interpreter.py:39 | `x == x` holds for every value |
| PyValues.Subscripts | Interpreter.py:158-163 | the Access loop: no index gives the value itself, and two int indices read entry [i][j] |
| PyValues.SubscriptsOne | Interpreter.py:158-163 | the Access loop with one index is a single subscription (vector access) |
| PyValues.Arith | Interpreter.py:9-13 | `+ - * /` on numbers: defined except division by zero, with the real sum, difference, product or quotient; int results exactly for two ints except `/`, whose result is a float; `-` and `/` are defined only on numbers; None operands raise |
| PyValues.Entry | Interpreter.py:14-17 | `x[i][j]` on a list of lists in range is that entry; a non-sequence raises; a list indexed out of range raises |
| PyValues.ElementWise | Interpreter.py:14-17 | an element-wise operation on a non-sequence raises, on an empty one gives `[]`, and otherwise gives a list with one row per row of x, each row the element-wise row over the width of x's first row |
| PyValues.BinOp | Interpreter.py:9-17 | the ExpressionDict lookup: a comparison operator is not in the table and raises, `+ - * /` are Arith, and `.+ .- .* ./` are ElementWise of the base operator |
| PyValues.Cell | Interpreter.py:29-31 | a constructor cell is 1 exactly for ones and the diagonal of eye, and 0 exactly for zeros and eye off the diagonal |
| PyValues.PyEq | Interpreter.py:39-40 | Python `==`: numbers compare by numeric value (1 == 1.0), strings by content; equal values are of the same kind, and equal lists have the same length |
| PyValues.PyEqSymmetric | Interpreter.py:39-40 | Python `==` on these values is symmetric |
| PyValues.CompareStrs | Interpreter.py:35-38 | string ordering is lexicographic: a prefix compares by length, otherwise the first differing characters decide |
| PyValues.CompareLists | Interpreter.py:35-38 | list ordering is lexicographic: a prefix compares by length, otherwise the first pair of unequal elements decides, by the operator on those elements |
| PyValues.Order | Interpreter.py:35-38 | `< <= > >=` compare numbers by value and strings lexicographically, are defined on non-lists exactly for two numbers or two strings, compare a list with its prefix by length, and an equal pair gives true exactly for `<=` and `>=` |
| Interp.Get | Interpreter.py:57-59 | an identifier evaluates to its innermost binding, or None |
| Interp.EvalAll | Interpreter.py:183-195 | the Matrix and Sequence loops evaluate each element in order, and raise exactly when one does |
| Interp.Push | Interpreter.py:78 | push adds a frame and keeps the output |
| Interp.Pop | Interpreter.py:89 | pop removes a frame and keeps the output |
| Interp.Insert | Interpreter.py:80 | insert keeps the depth and the output |
| Interp.Exec | Interpreter.py:61-152 | a statement never lowers the stack below where it started and only appends output |
| Interp.StoreAssignment | Interpreter.py:148-156 | an assignment either ends normally with depth and output unchanged, or faults with the state unchanged |
| Interp.StartFor | Interpreter.py:75-90 | a for statement never lowers the stack below where it started |
| Interp.IfThen | Interpreter.py:108-113 | an if statement never lowers the stack below where it started |
| Interp.IfThenElse | Interpreter.py:115-122 | an if/else statement never lowers the stack below where it started |
| Interp.ReturnValue | Interpreter.py:132-134 | return changes nothing and raises the value, or faults |
| Interp.PrintValues | Interpreter.py:136-140 | print adds exactly one output line and keeps the stack, or faults with nothing changed |
| Interp.ForIter | Interpreter.py:79-90 | the for iterations pop at most the loop's own frame |
| Interp.ForNext | Interpreter.py:81-88 | after one iteration, the loop pops at most its own frame |
| Interp.LoopExit | Interpreter.py:85-88 | break, return, fault or fuel exhaustion ends a loop, popping at most one frame |
| Interp.WhileIter | Interpreter.py:94-106 | the while iterations pop at most the loop's own frame |
| Interp.WhileBody | Interpreter.py:96-98 | an iteration whose condition held pops at most the loop's frame |
| Interp.WhileNext | Interpreter.py:99-104 | after the body, the while loop pops at most its own frame |
| Interp.ExecAll | Interpreter.py:61-69 | an instruction list never lowers the stack and only appends output |
| Interp.BalancedDepth | Interpreter.py:75-122 | a statement with no break, continue or return raises no signal, and when it ends normally the stack is exactly as deep as before |
| Interp.BalancedDepthFor | Interpreter.py:79-89 | a for loop whose body has no jumps pops exactly its own frame when it ends normally |
| Interp.BalancedDepthForNext | Interpreter.py:81-89 | the same, from the second iteration on |
| Interp.BalancedDepthWhile | Interpreter.py:96-105 | a while loop whose body has no jumps pops exactly its own frame when it ends normally |
| Interp.BalancedDepthWhileNext | Interpreter.py:98-105 | the same, after one iteration |
| Interp.BalancedDepthAll | Interpreter.py:61-69 | an instruction list with no jumps keeps the stack depth when it ends normally |
| Interp.BreakThroughIfLeaksFrame | Interpreter.py:108-113 | `for i = 1:1 if 1 == 1 break` ends normally one frame deeper than it started: the if's frame is never popped |
| Interp.IfBreaks | Interpreter.py:108-113 | an if whose condition holds and whose body is break passes the break up with its frame still pushed |
| Interp.OneToOneRange | Interpreter.py:71-73 | the range 1:1 is [1] |
| Interp.ReturnInForLeaksFrame | Interpreter.py:87-88 | a return in a for body ends the loop normally with its frame and the loop variable still there |
| Interp.Printed | Interpreter.py:136-140 | the lines printed by `print i` for each element: one line per element, holding it |
| Interp.ForIterStep | Interpreter.py:79-82 | one iteration binds the variable to the first element and runs the body |
| Interp.PrintStep | Interpreter.py:136-140 | `print id` appends one line holding the variable's value |
| Interp.ForPrintsStep | Interpreter.py:79-84 | an iteration of `print i` prints the element and goes on with the rest |
| Interp.ForPrintsEach | Interpreter.py:79-89 | a for loop over e whose body prints its variable and ends normally or with continue prints each element of e in order and pops its frame |
| Interp.ExecForCase | Interpreter.py:75-79 | a for statement pushes, evaluates its range in the new frame, and iterates over it or faults |
| Interp.ExecWhileCase | Interpreter.py:92-96 | a while statement pushes and iterates |
| Interp.WhileIterStep | Interpreter.py:96-100 | an iteration whose condition holds runs the body once |
| Interp.ExecIfCase | Interpreter.py:108-113 | an if statement runs as IfThen |
| Interp.ExecBlockCase | Interpreter.py:66-69 | a block runs its instruction list |
| Interp.ExecAllStep | Interpreter.py:66-69 | an instruction list runs its first instruction and goes on with the rest only when that ends normally |
| Interp.ForInclusiveCase | Interpreter.py:71-79 | `for i = a:b` pushes a frame and iterates over a, a+1, …, b |
| Interp.ForPrintsInclusive | Interpreter.py:71-90 | `for i = a:b` with a body that prints i prints a, …, b one per line and leaves the stack as it found it |
| Interp.ForPrintsRange | Interpreter.py:71-90 | `for i = a:b print i` prints a, a+1, …, b, one per line, and leaves the stack as it found it |
| Interp.ForPrintsContinueRange | Interpreter.py:71-90 | `for i = a:b { print i; continue; }` prints the same lines: continue only moves on to the next element |
| Loops.ForRounds | Interpreter.py:79-90 | after k rounds that each ended normally or with continue, the loop is the same loop over the remaining elements from the state they left; the stack stays well formed and no lower, and output only grows |
| Loops.ForStopsAt | Interpreter.py:79-90 | after those rounds, the next round decides: break ends the loop normally and pops its frame, return ends it normally without the pop, normal and continue go on with the next element, a fault or running out of fuel is passed up |
| Loops.ForRunsOut | Interpreter.py:79-90 | when every round goes on, the loop ends normally after the last element and pops its frame |
| Loops.WhileRounds | Interpreter.py:94-106 | rounds whose condition held and that ended normally or with continue leave the loop equal to the same loop, from the state they left, with that much less fuel |
| Loops.WhileStopsAt | Interpreter.py:94-106 | after those rounds: a false condition or break ends the loop normally with one pop, return ends it normally with no pop, a raising condition or a fault is passed up, normal and continue go round again, and no fuel left means OutOfFuel |
| Loops.EqualsConst | Interpreter.py:34-41 | `id == n` is true exactly when id is bound to the int n |
| Loops.JumpTest | Interpreter.py:108-113 | `if (id == n) { jump; }` passes the jump up with its frame still pushed when id is n, and otherwise changes nothing |
| Loops.JumpThenPrintRound | Interpreter.py:61-69 | `{ if (id == n) { jump; } print id; }` raises the jump one frame deeper when id is n, and otherwise prints id |
| Loops.JumpLoopStep | Interpreter.py:79-88 | one round of a loop over that body: an element other than n is printed and the loop goes on; n with break ends the loop without printing; n with continue goes on one frame deeper without printing |
| Loops.BreakLoopPrints | Interpreter.py:79-88 | a loop over elems whose first n is at position k prints exactly elems[..k] and ends normally at the depth it started: the pop after break removes the if's frame, so the loop's own frame stays |
| Loops.ContinueLoopPrints | Interpreter.py:79-89 | with continue, the loop prints every element other than n in order and ends normally; it pops its own frame at the end but leaves one if frame per occurrence of n |
| Loops.BreakAtThree | Interpreter.py:71-88 | `for i = 1:5 { if (i == 3) { break; } print i; }` prints 1 and 2 and ends normally, one frame deeper (the if's frame) |
| Loops.ContinueAtThree | Interpreter.py:71-89 | the same loop with continue prints 1, 2, 4 and 5 and ends normally, one frame deeper |
| Loops.OneToFive | Interpreter.py:71-73 | the range 1:5 is [1, 2, 3, 4, 5] |
| Loops.SkipThree | Interpreter.py:79-89 | 3 occurs once in 1..5, and skipping it prints 1, 2, 4 and 5 |
| Loops.PrefixTail | Interpreter.py:79-82 | a first occurrence at k > 0 is a first occurrence at k − 1 in the tail |
| Loops.PrintedCons | Interpreter.py:136-140 | printing x and then xs is printing x :: xs |
| Loops.CountFirst | Interpreter.py:79-82 | the occurrences of n and the skipped list, split at the first element |
| Interp.AssignmentStores | Interpreter.py:148-152 | `name op= right` stores AssignValue of the old and right values under the name and changes no other name; any raise leaves the state unchanged |
| Interp.AccessReadsEntry | Interpreter.py:158-163 | indexing an n×m matrix with [i, j] reads row i then column j, counting negative indices from the end |
| Interp.Interpreter.constructor | Interpreter.py:46-47 | a new interpreter has a fresh, initial memory stack and no output |
| Interp.Interpreter.Load | Interpreter.py:57-59 | reads the innermost binding, or None |
| Interp.Interpreter.Store | Interpreter.py:80 | insert rebinds the name where bound, else in the top frame |
| Interp.Interpreter.VisitExpr | Interpreter.py:53-195 | visiting an expression computes Eval on the current stack |
| Interp.Interpreter.VisitSequence | Interpreter.py:183-195 | the append loop computes EvalAll |
| Interp.Interpreter.VisitSubscripts | Interpreter.py:161-162 | the subscription loop applies each index in order |
| Interp.Interpreter.VisitCondition | Interpreter.py:142-146 | the condition visit as EvalCond gives it |
| Interp.Interpreter.VisitRange | Interpreter.py:71-73 | the range visit as EvalRange gives it |
| Interp.Interpreter.PopFrame | Interpreter.py:89 | pop removes the top frame |
| Interp.Interpreter.VisitFor | Interpreter.py:75-90 | the for visit's loop reaches the outcome Exec gives |
| Interp.Interpreter.ForRound | Interpreter.py:80-88 | one round of the for loop: either the loop's outcome, or the same iteration over the remaining elements |
| Interp.Interpreter.VisitWhile | Interpreter.py:92-106 | the while visit's loop reaches the outcome WhileIter gives |
| Interp.Interpreter.WhileRound | Interpreter.py:96-104 | one round of the while loop: either the loop's outcome, or the same loop with one less unit of fuel |
| Interp.Interpreter.VisitStmt | Interpreter.py:61-152 | visiting a statement reaches the outcome Exec gives |
| Interp.Interpreter.VisitAssignment | Interpreter.py:148-152 | the assignment visit as StoreAssignment gives it |
| Interp.Interpreter.VisitIf | Interpreter.py:108-113 | the if visit as IfThen gives it |
| Interp.Interpreter.VisitIfElse | Interpreter.py:115-122 | the if/else visit as IfThenElse gives it |
| Interp.Interpreter.VisitPrint | Interpreter.py:136-140 | the print visit as PrintValues gives it |
| Interp.Interpreter.VisitStmts | Interpreter.py:63-69 | the instruction loop as ExecAll gives it |
| Interp.Interpreter.VisitProgram | Interpreter.py:61-64 | the program visit runs the instructions in the current frame; on a fresh interpreter this is Run |
| Scoping.IfAssignmentIsLocal | Interpreter.py:108-113 | `if (c) { x = e; }` with x bound nowhere ends normally or faults; a normal end gives back the exact state before the if, so x is still unbound |
| Scoping.AssignRound | Interpreter.py:148-152 | one round of `x = i` with x bound only below the loop's frame ends normally, binds x to the element and keeps x out of the loop's frame |
| Scoping.AssignRoundsAssign | Interpreter.py:148-152 | `x = i` is a body whose every round ends normally at the same depth and output with x holding the element |
| Scoping.AssignStep | Interpreter.py:79-82 | one round of a for loop over such a body: the loop goes on with the remaining elements from a state where x holds the first |
| Scoping.EndsWithLastStep | Interpreter.py:79-89 | if the loop over the tail ends with x holding the last element, so does the loop over the whole sequence |
| Scoping.ForAssignsLast | Interpreter.py:79-89 | a for loop over such a body ends normally, pops its frame, keeps the output, and leaves x holding the last element |
| Scoping.ForRebindsOuterName | Interpreter.py:75-90 | `for i = a:b { x = i; }` with x bound outside the loop ends normally at the same depth and output, with x holding b |
| Scoping.AssignIdType | TypeChecker.py:267-272 | the checker's `x = i` with i bound gives i's type and no report |
| Scoping.CheckedIfAssignmentIsLocal | TypeChecker.py:228-233 | the checker's visit of `if (c) { x = e; }` with x bound nowhere leaves the stack exactly as it found it, so x is still unbound |
| Scoping.CheckedForRebindsOuterName | TypeChecker.py:214-219 | the checker's visit of `for i = rng { x = i; }` with x bound outside the loop leaves x bound to the type the range gave i |
| Scoping.CheckedForAssignmentIsLocal | TypeChecker.py:214-219 | the same loop with x bound nowhere leaves x unbound after the loop |
| Interp.LiteralValue | Interpreter.py:53-55 | an int, float or str constant evaluates to a value of that kind holding the constant |
| Interp.Eval | Interpreter.py:53-59 | a constant evaluates to its literal value and an identifier to its innermost binding, or None |
| Interp.EvalCases | Interpreter.py:165-195 | a comparison operator in an expression raises; a matrix or vector literal evaluates exactly when all its elements do; literals, function calls and transpositions give lists and negations give numbers |
| Interp.EvalCondCases | Interpreter.py:142-146 | the outcomes of the condition visit `EvalCond`: a condition raises when an operand raises or the operator is not a comparison; `==` and `!=` give Python equality of the operand values and its negation, and `< <= > >=` give PyValues.Order of the operand values |
| Interp.EvalRange | Interpreter.py:71-73 | a range evaluates exactly when start, end and jump give ints and the jump is not 0; it is `range(start, end + 1, jump)`, and with a positive jump every element lies between start and end |
| Interp.PopIfNormal | Interpreter.py:108-122 | the pop after an if: the signal and the output are kept; a normal end pops one frame, any other signal leaves the outcome as it is |
| Interp.IfThenElseSteps | Interpreter.py:115-122 | an if/else pushes a frame and faults if the condition raises; otherwise it runs the branch the condition picks, in the pushed frame, and pops only after a normal end |
| Interp.Run | Interpreter.py:61-64 | a program run leaves a well-formed stack; a program with no break, continue or return ends normally, faults or runs out of fuel, and a normal end leaves only the root frame |

## Left out

- The lexer, the parser, the tree printer and `main` (scaner.py, scanner.py, parser.py, mparser.py, TreePrinter.py, main.py). Programs are given as Dafny syntax trees (module `Ast`). The node names of ast.py are not used, since the visitors dispatch on other names.
- Memory.py, Exceptions.py and visit.py are not part of this model. The memory stack is a `ScopeTable<Value>` with the get/insert behaviour described above, that stack's `push()` gives every frame the one tag "frame", exceptions are signals, and the visitor dispatch is a `match`.
- The text of the checker's diagnostics and the print statement's output formatting (TypeChecker.py `print` calls, Interpreter.py:138-140). Diagnostics are events; a print line is the list of printed values.
- Floats are Dafny `real`s, so float rounding, overflow, `inf` and `nan` are not modelled. Python integers are unbounded, as Dafny's are.
- `sys.setrecursionlimit` (Interpreter.py:7) and Python's stack depth.
- The values a `for` or `while` visit returns (`r`, and `e.value` on return) are dropped. No caller inside the core uses them.
- ErrorNode visits (TypeChecker.py:410-411, Interpreter.py:197-199), the ConstValue visit's fallback for a constant of another Python type (TypeChecker.py:186), and the generic `NodeVisitor` machinery (TypeChecker.py:5-23).
- PyValues.CompareLists: the first-difference clause is stated for a position whose elements are unequal and before which the two lists are identical. Lists that differ earlier only in elements Python calls equal, such as `1` and `1.0`, are compared by the same function but not covered by the clause.
- Interp.WhileIter: a while loop runs on fuel, one unit per iteration; a program that loops forever ends in `OutOfFuel` instead of running forever.
- TypeCheck.NegationType: the source writes the negated constant (or UnknownType) into the operand's own type object. That changes the stored type of a negated variable as a side effect. The model returns a new type and does not capture this aliasing.
- Types.NewMatrixType: the requires excludes an empty or non-vector row list, on which the Python constructor raises. The only caller, the matrix-literal visitor, raises before it constructs in those cases.
- TypeCheck.CheckStmt: the contract states the stack shape and log growth; which diagnostics are printed is stated by the per-expression functions and the break/continue lemmas, not by CheckStmt itself.
- TypeCheck.CheckStmt, TypeCheck.CheckStmts and TypeCheck.CheckProgram: a raise is a bare `Raised` that carries no diagnostics. The source prints each report as it goes, so the reports before the exception are already printed. For example, `A = zeros(2); x = A[k, 0];` prints the not-initialised report for k (TypeChecker.py:191) and then raises at TypeChecker.py:326. The model keeps only the fact that the check raised. The same holds for the methods of `TypeCheck.TypeChecker`: when they return false, their contracts say nothing about `log`.
- Interp.Exec: the contract states only the stack depth and output growth. How loops end on each signal is stated by Loops.ForStopsAt, Loops.ForRunsOut and Loops.WhileStopsAt. Prints, assignments, if and blocks have their own lemmas. Other statement shapes have no lemma of their own.

## Findings

| source | as written | input that shows it | evidently intended | confidence | as-written member | corrected member |
|---|---|---|---|---|---|---|
| TypeChecker.py:60 | the matrix × scalar branch reads `type2.width` on the scalar | a matrix type of width 2 and height 3 `.*` an Int: AttributeError | test `type1.height is None` | high, not executed | TypeRules.MatrixScalarAsWritten | TypeRules.CheckMatrixExprType |
| TypeChecker.py:326 | `j` is checked to be an int twice and `i` never | `A = zeros(2); x = A[k, 0];` with k never assigned (Unknown, value None): `None >= width` raises TypeError | check `i` and `j` | high, not executed | TypeCheck.MatrixAccessAsWrittenUncheckedRow | TypeCheck.MatrixAccessType |
| TypeChecker.py:328-337 | the row index `i` is bounded by the width and `j` by the height | `[0,2]` on a 2-row, 3-column literal is reported out of bounds; `[2,0]` raises IndexError | bound `i` by the height and `j` by the width | high, not executed | TypeCheck.MatrixAccessAsWrittenSwapsBounds | TypeCheck.MatrixAccessType |
| TypeChecker.py:123 | `Int / Int` folding stores the true quotient in an Int type | `1 / 2` gives `IntType(0.5)`; every Int/Int quotient is stored as a float, so `4 / 2` gives `IntType(2.0)`, which `checkType(i, int)` then rejects as an index | an Int of known value only for an exact quotient; the corrected FoldInt stores exact quotients as integers, which also changes the `4 / 2` case | medium, not executed | TypeRules.IntQuotientAsWrittenNotIntegral | TypeRules.FoldInt |
| TypeChecker.py:381-388 | a negative argument falls through to the "wanted type Int" report | `zeros(-1)`: two reports | one report for a negative argument | high, not executed | TypeCheck.FunctionTypeAsWrittenReportsTwice | TypeCheck.FunctionType |
| TypeChecker.py:289 | the left side of an assignment is looked up with `find_scope` (scope tags) | `x = 1; x += 1`: "left side is not initialized" | `find_variable_scope` | high, not executed | TypeCheck.TargetTypeAsWrittenMissesVariable | TypeCheck.TargetType |
| TypeChecker.py:366 | negating an Int or Float of unknown value computes `-None` | an Expression node with a comparison operator, e.g. `-(a == b)`: the comparison types to `IntType()`, and negating it computes `-None`, a TypeError. The grammar admits comparisons only as if/while conditions, so a parsed program does not reach this | leave the unknown value unknown | low, not executed | TypeCheck.NegationAsWrittenRaises | TypeCheck.NegationType |
