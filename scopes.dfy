/** The scope stack of ScopeTable.py: numbered frames (SymbolTable), each
    with a tag such as "program", "loop", "if" or "block" and a table of
    names, and the ScopeTable object that pushes, pops, reads and writes
    them. The pure functions on Env are the specification of the
    ScopeTable methods and are what the checker and the evaluator
    specifications are written with. */
module Scopes {
  import opened Base

  /** One frame. `name` is the frame's tag, `number` its position. */
  datatype SymbolTable<S> = SymbolTable(name: string, number: int, symbols: map<string, S>)
  {
    /** `SymbolTable.put`: last writer wins. */
    function Put(key: string, symbol: S): (t: SymbolTable<S>)
      ensures t.name == name && t.number == number
      ensures key in t.symbols && t.symbols[key] == symbol
      ensures t.symbols.Keys == symbols.Keys + {key}
      ensures forall k :: k in symbols && k != key ==> t.symbols[k] == symbols[k]
    {
      this.(symbols := symbols[key := symbol])
    }

    /** `SymbolTable.get`: a missing name raises KeyError. */
    function Get(key: string): (r: Checked<S>)
      ensures r.Ok? <==> key in symbols
      ensures r.Ok? ==> r.value == symbols[key]
    {
      if key in symbols then Ok(symbols[key]) else Raised
    }
  }

  /** The state of a ScopeTable: the `scopes` dictionary and
      `current_scope_number`. */
  datatype Env<S> = Env(scopes: map<int, SymbolTable<S>>, current: int)

  /** The frames are exactly 0..current, and each knows its own number.
      A fully popped table has current == -1 and no frames. */
  ghost predicate Wf<S>(env: Env<S>)
  {
    && env.current >= -1
    && (forall n :: n in env.scopes <==> 0 <= n <= env.current)
    && (forall n :: n in env.scopes ==> env.scopes[n].number == n)
  }

  /** The state right after `ScopeTable()`: the root frame alone. */
  function Initial<S>(): (env: Env<S>)
    ensures Wf(env) && env.current == 0
    ensures env.scopes[0] == SymbolTable("root", 0, map[])
  {
    Env(map[0 := SymbolTable("root", 0, map[])], 0)
  }

  /** `pushScope(tag)`. */
  function PushFrame<S>(env: Env<S>, tag: string): (e: Env<S>)
    requires Wf(env)
    ensures Wf(e) && e.current == env.current + 1
    ensures e.scopes[e.current] == SymbolTable(tag, e.current, map[])
    ensures forall n :: 0 <= n <= env.current ==> e.scopes[n] == env.scopes[n]
  {
    Env(env.scopes[env.current + 1 := SymbolTable(tag, env.current + 1, map[])], env.current + 1)
  }

  /** `popScope()` when the current frame exists. */
  function PopFrame<S>(env: Env<S>): (e: Env<S>)
    requires Wf(env) && env.current >= 0
    ensures Wf(e) && e.current == env.current - 1
    ensures forall n :: 0 <= n <= e.current ==> e.scopes[n] == env.scopes[n]
  {
    Env(env.scopes - {env.current}, env.current - 1)
  }

  /** `put(name, symbol, n)` into an existing frame n. */
  function PutSymbol<S>(env: Env<S>, name: string, symbol: S, n: int): (e: Env<S>)
    requires Wf(env) && 0 <= n <= env.current
    ensures Wf(e) && e.current == env.current
    ensures e.scopes[n] == env.scopes[n].Put(name, symbol)
    ensures forall k :: 0 <= k <= env.current && k != n ==> e.scopes[k] == env.scopes[k]
  {
    env.(scopes := env.scopes[n := env.scopes[n].Put(name, symbol)])
  }

  /** `get(name, n)`: a missing frame or a missing name raises KeyError. */
  function GetSymbol<S>(env: Env<S>, name: string, n: int): (r: Checked<S>)
    ensures r.Ok? <==> n in env.scopes && name in env.scopes[n].symbols
    ensures r.Ok? ==> r.value == env.scopes[n].symbols[name]
  {
    if n in env.scopes then env.scopes[n].Get(name) else Raised
  }

  /** The descending search of `find_variable_scope`, from frame k down. */
  function SearchName<S>(env: Env<S>, name: string, k: int): (r: Option<int>)
    requires Wf(env) && -1 <= k <= env.current
    decreases k + 1
    ensures r.Some? ==> 0 <= r.value <= k && name in env.scopes[r.value].symbols
    ensures r.Some? ==> forall j :: r.value < j <= k ==> name !in env.scopes[j].symbols
    ensures r.None? <==> forall j :: 0 <= j <= k ==> name !in env.scopes[j].symbols
  {
    if k < 0 then None
    else if name in env.scopes[k].symbols then Some(env.scopes[k].number)
    else SearchName(env, name, k - 1)
  }

  /** `find_variable_scope(name)`: the innermost frame binding name. */
  function InnermostBinding<S>(env: Env<S>, name: string): (r: Option<int>)
    requires Wf(env)
    ensures r.Some? ==> 0 <= r.value <= env.current && name in env.scopes[r.value].symbols
    ensures r.Some? ==> forall j :: r.value < j <= env.current ==> name !in env.scopes[j].symbols
    ensures r.None? <==> forall j :: 0 <= j <= env.current ==> name !in env.scopes[j].symbols
  {
    SearchName(env, name, env.current)
  }

  /** The descending search of `find_scope`, from frame k down. */
  function SearchTag<S>(env: Env<S>, tag: string, k: int): (r: Option<int>)
    requires Wf(env) && -1 <= k <= env.current
    decreases k + 1
    ensures r.Some? ==> 0 <= r.value <= k && env.scopes[r.value].name == tag
    ensures r.Some? ==> forall j :: r.value < j <= k ==> env.scopes[j].name != tag
    ensures r.None? <==> forall j :: 0 <= j <= k ==> env.scopes[j].name != tag
  {
    if k < 0 then None
    else if env.scopes[k].name == tag then Some(env.scopes[k].number)
    else SearchTag(env, tag, k - 1)
  }

  /** `find_scope(tag)`: the innermost frame carrying tag. */
  function InnermostTag<S>(env: Env<S>, tag: string): (r: Option<int>)
    requires Wf(env)
    ensures r.Some? ==> 0 <= r.value <= env.current && env.scopes[r.value].name == tag
    ensures r.Some? ==> forall j :: r.value < j <= env.current ==> env.scopes[j].name != tag
    ensures r.None? <==> forall j :: 0 <= j <= env.current ==> env.scopes[j].name != tag
  {
    SearchTag(env, tag, env.current)
  }

  /** Reading a name through its innermost binding (find_variable_scope,
      then get): None when no frame binds it. */
  function Lookup<S>(env: Env<S>, name: string): (r: Option<S>)
    requires Wf(env)
    ensures r.Some? <==> exists j :: 0 <= j <= env.current && name in env.scopes[j].symbols
    ensures r.Some? ==> var k := InnermostBinding(env, name).value; r.value == env.scopes[k].symbols[name]
  {
    match InnermostBinding(env, name)
    case Some(k) => Some(env.scopes[k].symbols[name])
    case None => None
  }

  /** `putVariable`: write into the innermost frame that already binds the
      name, otherwise into the current frame. */
  function Rebind<S>(env: Env<S>, name: string, symbol: S): (e: Env<S>)
    requires Wf(env) && env.current >= 0
    ensures Wf(e) && e.current == env.current
    ensures forall k :: 0 <= k <= env.current ==> e.scopes[k].name == env.scopes[k].name
    ensures Lookup(e, name) == Some(symbol)
    ensures var owner := InnermostBinding(env, name);
      var n := if owner.Some? then owner.value else env.current;
      && e.scopes[n].symbols == env.scopes[n].symbols[name := symbol]
      && forall k :: 0 <= k <= env.current && k != n ==> e.scopes[k] == env.scopes[k]
  {
    var owner := InnermostBinding(env, name);
    var n := if owner.Some? then owner.value else env.current;
    var e := PutSymbol(env, name, symbol, n);
    assert InnermostBinding(e, name) == Some(n);
    e
  }

  /** Popping right after a push gives back the previous frames unchanged. */
  lemma PopAfterPush<S>(env: Env<S>, tag: string)
    requires Wf(env)
    ensures PopFrame(PushFrame(env, tag)) == env
  {
    var e := PopFrame(PushFrame(env, tag));
    assert e.scopes.Keys == env.scopes.Keys;
  }

  /** Reading back the frame just written returns what was put. */
  lemma GetAfterPut<S>(env: Env<S>, name: string, symbol: S, n: int)
    requires Wf(env) && 0 <= n <= env.current
    ensures GetSymbol(PutSymbol(env, name, symbol, n), name, n) == Ok(symbol)
  {
  }

  /** Two states whose frames agree on one name agree on its search. */
  lemma {:induction false} SearchNameAgrees<S>(env: Env<S>, env': Env<S>, name: string, k: int)
    requires Wf(env) && Wf(env') && -1 <= k <= env.current && k <= env'.current
    requires forall j :: 0 <= j <= k ==>
      (name in env.scopes[j].symbols <==> name in env'.scopes[j].symbols)
    ensures SearchName(env, name, k) == SearchName(env', name, k)
    decreases k + 1
  {
    if k >= 0 && name !in env.scopes[k].symbols {
      SearchNameAgrees(env, env', name, k - 1);
    }
  }

  /** Rebinding one name leaves the lookup of every other name unchanged. */
  lemma RebindKeepsOthers<S>(env: Env<S>, name: string, symbol: S, other: string)
    requires Wf(env) && env.current >= 0 && other != name
    ensures Lookup(Rebind(env, name, symbol), other) == Lookup(env, other)
  {
    var e := Rebind(env, name, symbol);
    SearchNameAgrees(env, e, other, env.current);
  }

  /** RebindKeepsOthers for every other name at once. */
  lemma RebindKeepsAllOthers<S>(env: Env<S>, name: string, symbol: S)
    requires Wf(env) && env.current >= 0
    ensures forall other :: other != name ==> Lookup(Rebind(env, name, symbol), other) == Lookup(env, other)
  {
    forall other | other != name
      ensures Lookup(Rebind(env, name, symbol), other) == Lookup(env, other)
    {
      RebindKeepsOthers(env, name, symbol, other);
    }
  }

  /** A freshly pushed frame is empty, so it hides no binding. */
  lemma LookupAfterPush<S>(env: Env<S>, tag: string, name: string)
    requires Wf(env)
    ensures Lookup(PushFrame(env, tag), name) == Lookup(env, name)
  {
    var e := PushFrame(env, tag);
    SearchNameAgrees(env, e, name, env.current);
  }

  /** Popping a top frame that does not bind the name leaves its lookup
      as it was. */
  lemma LookupAfterPop<S>(env: Env<S>, name: string)
    requires Wf(env) && env.current >= 0 && name !in env.scopes[env.current].symbols
    ensures Lookup(PopFrame(env), name) == Lookup(env, name)
  {
    var e := PopFrame(env);
    SearchNameAgrees(e, env, name, e.current);
  }

  /** A name that no frame below the top binds is unbound once the top
      frame is popped, whatever the top frame held. */
  lemma UnboundAfterPop<S>(env: Env<S>, name: string)
    requires Wf(env) && env.current >= 0
    requires forall k :: 0 <= k < env.current ==> name !in env.scopes[k].symbols
    ensures Lookup(PopFrame(env), name).None?
  {
  }

  /** A name bound nowhere and written into a frame pushed for the
      occasion is gone once that frame is popped: the stack is exactly
      as it was before the push. */
  lemma PopRebindPush<S>(env: Env<S>, tag: string, name: string, symbol: S)
    requires Wf(env) && Lookup(env, name).None?
    ensures PopFrame(Rebind(PushFrame(env, tag), name, symbol)) == env
  {
    var pushed := PushFrame(env, tag);
    LookupAfterPush(env, tag, name);
    var e := PopFrame(Rebind(pushed, name, symbol));
    assert e.scopes.Keys == env.scopes.Keys;
  }

  /** A name bound nowhere is put in the current frame, so popping that
      frame unbinds it again. */
  lemma PopRebindUnbound<S>(env: Env<S>, name: string, symbol: S)
    requires Wf(env) && env.current >= 0 && Lookup(env, name).None?
    ensures Lookup(PopFrame(Rebind(env, name, symbol)), name).None?
  {
    var e := Rebind(env, name, symbol);
    assert InnermostBinding(env, name).None?;
    assert forall k :: 0 <= k < env.current ==> e.scopes[k] == env.scopes[k];
    UnboundAfterPop(e, name);
  }

  /** Rebinding a name that a frame below the top binds, and the top
      frame does not, leaves the top frame without it. */
  lemma RebindBelowTop<S>(env: Env<S>, name: string, symbol: S)
    requires Wf(env) && env.current >= 0 && Lookup(env, name).Some?
    requires name !in env.scopes[env.current].symbols
    ensures name !in Rebind(env, name, symbol).scopes[env.current].symbols
  {
  }

  /** Rebinding another name changes no frame's binding of this one. */
  lemma RebindKeepsFrames<S>(env: Env<S>, name: string, symbol: S, other: string)
    requires Wf(env) && env.current >= 0 && other != name
    ensures forall k :: 0 <= k <= env.current ==>
      (other in Rebind(env, name, symbol).scopes[k].symbols <==> other in env.scopes[k].symbols)
  {
  }

  /** Two states whose frames carry the same tags agree on the tag search. */
  lemma {:induction false} SearchTagAgrees<S>(env: Env<S>, env': Env<S>, tag: string, k: int)
    requires Wf(env) && Wf(env') && -1 <= k <= env.current && k <= env'.current
    requires forall j :: 0 <= j <= k ==> env.scopes[j].name == env'.scopes[j].name
    ensures SearchTag(env, tag, k) == SearchTag(env', tag, k)
    decreases k + 1
  {
    if k >= 0 && env.scopes[k].name != tag {
      SearchTagAgrees(env, env', tag, k - 1);
    }
  }

  /** The innermost frame with a tag, after pushing a frame with a tag. */
  lemma InnermostTagAfterPush<S>(env: Env<S>, pushed: string, tag: string)
    requires Wf(env)
    ensures InnermostTag(PushFrame(env, pushed), tag)
         == if pushed == tag then Some(env.current + 1) else InnermostTag(env, tag)
  {
    SearchTagAgrees(env, PushFrame(env, pushed), tag, env.current);
  }

  /** The ScopeTable object. */
  class ScopeTable<S> {
    var scopes: map<int, SymbolTable<S>>
    var currentScopeNumber: int

    ghost function State(): Env<S>
      reads this
    {
      Env(scopes, currentScopeNumber)
    }

    ghost predicate Valid()
      reads this
    {
      Wf(State())
    }

    constructor ()
      ensures Valid() && State() == Initial()
    {
      scopes := map[0 := SymbolTable("root", 0, map[])];
      currentScopeNumber := 0;
    }

    /** `put(name, symbol, scope_number=None)`: the current frame when no
        number is given; a number with no frame raises KeyError (ok false). */
    method Put(name: string, symbol: S, scopeNumber: Option<int>) returns (ok: bool)
      requires Valid()
      modifies this
      ensures Valid()
      ensures var n := if scopeNumber.Some? then scopeNumber.value else old(currentScopeNumber);
        && ok == (0 <= n <= old(currentScopeNumber))
        && State() == if ok then PutSymbol(old(State()), name, symbol, n) else old(State())
    {
      var n := if scopeNumber.Some? then scopeNumber.value else currentScopeNumber;
      if n !in scopes {
        return false;
      }
      scopes := scopes[n := scopes[n].Put(name, symbol)];
      return true;
    }

    /** `get(name, scope_number=None)`. */
    method Get(name: string, scopeNumber: Option<int>) returns (r: Checked<S>)
      requires Valid()
      ensures r == GetSymbol(State(), name, if scopeNumber.Some? then scopeNumber.value else currentScopeNumber)
    {
      var n := if scopeNumber.Some? then scopeNumber.value else currentScopeNumber;
      if n !in scopes {
        return Raised;
      }
      r := scopes[n].Get(name);
    }

    /** `find_variable_scope(name)`: a descending loop over the frames. */
    method FindVariableScope(name: string) returns (r: Option<int>)
      requires Valid()
      ensures r == InnermostBinding(State(), name)
    {
      var scopeNumber := currentScopeNumber;
      while scopeNumber >= 0
        invariant -1 <= scopeNumber <= currentScopeNumber
        invariant InnermostBinding(State(), name) == SearchName(State(), name, scopeNumber)
        decreases scopeNumber + 1
      {
        var scope := scopes[scopeNumber];
        if name in scope.symbols {
          return Some(scope.number);
        }
        scopeNumber := scopeNumber - 1;
      }
      return None;
    }

    /** `find_scope(tag)`: a descending loop over the frames. */
    method FindScope(tag: string) returns (r: Option<int>)
      requires Valid()
      ensures r == InnermostTag(State(), tag)
    {
      var scopeNumber := currentScopeNumber;
      while scopeNumber >= 0
        invariant -1 <= scopeNumber <= currentScopeNumber
        invariant InnermostTag(State(), tag) == SearchTag(State(), tag, scopeNumber)
        decreases scopeNumber + 1
      {
        var scope := scopes[scopeNumber];
        if scope.name == tag {
          return Some(scope.number);
        }
        scopeNumber := scopeNumber - 1;
      }
      return None;
    }

    /** `pushScope(tag)`: returns the new frame's number. */
    method PushScope(tag: string) returns (n: int)
      requires Valid()
      modifies this
      ensures Valid()
      ensures State() == PushFrame(old(State()), tag)
      ensures n == currentScopeNumber == old(currentScopeNumber) + 1
    {
      currentScopeNumber := currentScopeNumber + 1;
      scopes := scopes[currentScopeNumber := SymbolTable(tag, currentScopeNumber, map[])];
      n := currentScopeNumber;
    }

    /** `popScope()`: removes the current frame; with no frame left it
        raises KeyError (ok false) and changes nothing. */
    method PopScope() returns (ok: bool, n: int)
      requires Valid()
      modifies this
      ensures Valid()
      ensures ok == (old(currentScopeNumber) >= 0)
      ensures ok ==> State() == PopFrame(old(State())) && n == currentScopeNumber
      ensures !ok ==> State() == old(State())
    {
      if currentScopeNumber !in scopes {
        return false, currentScopeNumber;
      }
      scopes := scopes - {currentScopeNumber};
      currentScopeNumber := currentScopeNumber - 1;
      return true, currentScopeNumber;
    }
  }
}
