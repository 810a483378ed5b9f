/** Block scopes: one map of visible variables and, for each open scope, a log of what its declarations hid. */
module Scopes {
  import opened Options

  /** What a scope's first declaration of each name hid, if it hid anything. */
  type UndoLog<V> = map<string, Option<V>>

  datatype State<V> = State(variables: map<string, V>, log: seq<UndoLog<V>>)

  datatype Op<V> = Push | Insert(name: string, binding: V) | Pop

  function Find<V>(variables: map<string, V>, name: string): Option<V> {
    if name in variables then Some(variables[name]) else None
  }

  /** Put back everything the log saved. */
  function Undo<V>(variables: map<string, V>, saved: UndoLog<V>): map<string, V> {
    map name | name in variables.Keys + saved.Keys && !(name in saved && saved[name].None?)
      :: if name in saved then saved[name].value else variables[name]
  }

  function Step<V>(s: State<V>, op: Op<V>): State<V> {
    match op
    case Push => s.(log := s.log + [map[]])
    case Insert(name, binding) =>
      var n := |s.log|;
      State(s.variables[name := binding],
            if n == 0 || name in s.log[n - 1] then s.log
            else s.log[n - 1 := s.log[n - 1][name := Find(s.variables, name)]])
    case Pop =>
      var n := |s.log|;
      if n == 0 then s else State(Undo(s.variables, s.log[n - 1]), s.log[..n - 1])
  }

  function Run<V>(s: State<V>, ops: seq<Op<V>>): State<V>
    decreases |ops|
  {
    if ops == [] then s else Run(Step(s, ops[0]), ops[1..])
  }

  // ---- the plain meaning: a stack of maps, the outermost first ----

  type Stack<V> = seq<map<string, V>>

  ghost function StackStep<V>(env: Stack<V>, op: Op<V>): (r: Stack<V>)
    requires env != []
    ensures r != []
  {
    var n := |env|;
    match op
    case Push => env + [map[]]
    case Insert(name, binding) => env[n - 1 := env[n - 1][name := binding]]
    case Pop => if n == 1 then env else env[..n - 1]
  }

  ghost function StackRun<V>(env: Stack<V>, ops: seq<Op<V>>): (r: Stack<V>)
    requires env != []
    ensures r != []
    decreases |ops|
  {
    if ops == [] then env else StackRun(StackStep(env, ops[0]), ops[1..])
  }

  /** The innermost declaration of a name. */
  ghost function Lookup<V>(env: Stack<V>, name: string): Option<V> {
    if env == [] then None
    else if name in env[|env| - 1] then Some(env[|env| - 1][name])
    else Lookup(env[..|env| - 1], name)
  }

  /** The map holds what lookup finds, and each log holds, for exactly the names its scope declares, what
      lookup finds outside that scope. */
  ghost predicate Agrees<V>(s: State<V>, env: Stack<V>) {
    && |env| == |s.log| + 1
    && (forall name :: Find(s.variables, name) == Lookup(env, name))
    && (forall k, name :: 0 <= k < |s.log| ==> LogAgrees(s.log[k], env, k, name))
  }

  ghost predicate LogAgrees<V>(saved: UndoLog<V>, env: Stack<V>, k: nat, name: string)
    requires k + 1 < |env|
  {
    && (name in saved <==> name in env[k + 1])
    && (name in saved ==> saved[name] == Lookup(env[..k + 1], name))
  }

  lemma PushAgrees<V>(s: State<V>, env: Stack<V>)
    requires Agrees(s, env)
    ensures Agrees(Step(s, Push), StackStep(env, Push))
  {
    var env' := env + [map[]];
    var s' := Step(s, Push);
    assert env'[..|env|] == env;
    forall k, name | 0 <= k < |s'.log| ensures LogAgrees(s'.log[k], env', k, name) {
      assert env'[..k + 1] == env[..k + 1];
      if k < |s.log| { assert LogAgrees(s.log[k], env, k, name); }
    }
  }

  lemma InsertAgrees<V>(s: State<V>, env: Stack<V>, name: string, binding: V)
    requires Agrees(s, env)
    ensures Agrees(Step(s, Insert(name, binding)), StackStep(env, Insert(name, binding)))
  {
    var n := |env|;
    var env' := StackStep(env, Insert(name, binding));
    var s' := Step(s, Insert(name, binding));
    assert env'[..n - 1] == env[..n - 1];
    forall other ensures Find(s'.variables, other) == Lookup(env', other) {
      assert Find(s.variables, other) == Lookup(env, other);
    }
    forall k, other | 0 <= k < |s'.log| ensures LogAgrees(s'.log[k], env', k, other) {
      assert env'[..k + 1] == env[..k + 1];
      assert LogAgrees(s.log[k], env, k, other);
      assert LogAgrees(s.log[k], env, k, name);
      if k == n - 2 && name !in env[n - 1] {
        assert Find(s.variables, name) == Lookup(env[..n - 1], name);
      }
    }
  }

  lemma PopAgrees<V>(s: State<V>, env: Stack<V>)
    requires Agrees(s, env)
    ensures Agrees(Step(s, Pop), StackStep(env, Pop))
  {
    var n := |env|;
    if n > 1 {
      var env' := env[..n - 1];
      var s' := Step(s, Pop);
      forall name ensures Find(s'.variables, name) == Lookup(env', name) {
        assert LogAgrees(s.log[n - 2], env, n - 2, name);
        assert Find(s.variables, name) == Lookup(env, name);
      }
      forall k, name | 0 <= k < |s'.log| ensures LogAgrees(s'.log[k], env', k, name) {
        assert env'[..k + 1] == env[..k + 1];
        assert LogAgrees(s.log[k], env, k, name);
      }
    }
  }

  /** Over every run the undo log and the stack of maps stay in step. */
  lemma {:induction false} RunAgrees<V>(s: State<V>, env: Stack<V>, ops: seq<Op<V>>)
    requires Agrees(s, env)
    ensures Agrees(Run(s, ops), StackRun(env, ops))
    decreases |ops|
  {
    if ops != [] {
      match ops[0] {
        case Push => PushAgrees(s, env);
        case Insert(name, binding) => InsertAgrees(s, env, name, binding);
        case Pop => PopAgrees(s, env);
      }
      RunAgrees(Step(s, ops[0]), StackStep(env, ops[0]), ops[1..]);
    }
  }

  /** After every run from a function's parameters, a name is bound to its innermost live declaration. */
  lemma VisibleIsInnermost<V>(parameters: map<string, V>, ops: seq<Op<V>>, name: string)
    ensures Find(Run(State(parameters, []), ops).variables, name) == Lookup(StackRun([parameters], ops), name)
  {
    var env: Stack<V> := [parameters];
    assert env[..0] == [];
    assert Agrees(State(parameters, []), env);
    RunAgrees(State(parameters, []), env, ops);
  }

  // ---- a pop gives back the map of the matching push ----

  lemma PopAfterPush<V>(s: State<V>)
    ensures Step(Step(s, Push), Pop) == s
  {
    assert (s.log + [map[]])[..|s.log|] == s.log;
    assert Undo(s.variables, map[]) == s.variables;
  }

  /** However often a name is declared again, the pop does not see it. */
  lemma PopAfterInsert<V>(s: State<V>, name: string, binding: V)
    requires s.log != []
    ensures Step(Step(s, Insert(name, binding)), Pop) == Step(s, Pop)
  {
    var n := |s.log|;
    var s' := Step(s, Insert(name, binding));
    assert s'.log[..n - 1] == s.log[..n - 1];
    assert Undo(s'.variables, s'.log[n - 1]) == Undo(s.variables, s.log[n - 1]);
  }

  /** With d inner scopes open, the operations keep to the scopes opened so far and close the inner ones. */
  ghost predicate Nested<V>(ops: seq<Op<V>>, d: nat) {
    if ops == [] then d == 0
    else match ops[0]
      case Push => Nested(ops[1..], d + 1)
      case Insert(_, _) => Nested(ops[1..], d)
      case Pop => d > 0 && Nested(ops[1..], d - 1)
  }

  ghost function Pops<V>(s: State<V>, n: nat): State<V>
    decreases n
  {
    if n == 0 then s else Pops(Step(s, Pop), n - 1)
  }

  lemma {:induction false} NestedPops<V>(s: State<V>, ops: seq<Op<V>>, d: nat)
    requires Nested(ops, d) && |s.log| > d
    ensures Step(Run(s, ops), Pop) == Pops(s, d + 1)
    decreases |ops|
  {
    if ops == [] {
      assert Pops(s, 1) == Pops(Step(s, Pop), 0);
    } else {
      match ops[0]
      case Push =>
        NestedPops(Step(s, Push), ops[1..], d + 1);
        PopAfterPush(s);
      case Insert(name, binding) =>
        NestedPops(Step(s, ops[0]), ops[1..], d);
        PopAfterInsert(s, name, binding);
      case Pop => NestedPops(Step(s, Pop), ops[1..], d - 1);
    }
  }

  /** A pop restores exactly the state, map and logs, held at the matching push. */
  lemma PopRestores<V>(s: State<V>, ops: seq<Op<V>>)
    requires Nested(ops, 0)
    ensures Step(Run(Step(s, Push), ops), Pop) == s
  {
    NestedPops(Step(s, Push), ops, 0);
    assert Pops(Step(s, Push), 1) == Pops(Step(Step(s, Push), Pop), 0);
    PopAfterPush(s);
  }

  class ScopedVariables<V> {
    var variables: map<string, V>
    var scopeStack: seq<UndoLog<V>>

    ghost function Held(): State<V>
      reads this
    {
      State(variables, scopeStack)
    }

    constructor (parameters: map<string, V>)
      ensures Held() == State(parameters, [])
    {
      variables, scopeStack := parameters, [];
    }

    method PushScope()
      modifies this
      ensures Held() == Step(old(Held()), Push)
    {
      scopeStack := scopeStack + [map[]];
    }

    /** Restore, in any order, what the innermost scope hid. */
    method PopScope()
      modifies this
      ensures Held() == Step(old(Held()), Pop)
    {
      if scopeStack != [] {
        var saved := scopeStack[|scopeStack| - 1];
        scopeStack := scopeStack[..|scopeStack| - 1];
        ghost var before := variables;
        var names := saved.Keys;
        while names != {}
          invariant names <= saved.Keys
          invariant scopeStack == old(scopeStack)[..|old(scopeStack)| - 1]
          invariant forall name ::
            Find(variables, name) == if name in saved && name !in names then saved[name] else Find(before, name)
          decreases names
        {
          var name :| name in names;
          names := names - {name};
          match saved[name]
          case Some(binding) => variables := variables[name := binding];
          case None => variables := variables - {name};
        }
        SameFinds(variables, Undo(before, saved));
      }
    }

    /** Only the first declaration of a name in a scope is logged. */
    method InsertScopedVariable(name: string, binding: V)
      modifies this
      ensures Held() == Step(old(Held()), Insert(name, binding))
    {
      var n := |scopeStack|;
      if n > 0 {
        var scope := scopeStack[n - 1];
        if name !in scope {
          scope := scope[name := Find(variables, name)];
        }
        scopeStack := scopeStack[n - 1 := scope];
      }
      variables := variables[name := binding];
    }
  }

  lemma SameFinds<V>(a: map<string, V>, b: map<string, V>)
    requires forall name :: Find(a, name) == Find(b, name)
    ensures a == b
  {
    forall name ensures name in a <==> name in b { assert Find(a, name) == Find(b, name); }
    forall name | name in a ensures a[name] == b[name] { assert Find(a, name) == Find(b, name); }
  }
}
