/** A whole function body: lowering, the default return, and the clean-up of blocks. */
module Functions {
  import opened CStatements
  import opened Options
  import opened BlockMachine
  import opened LowerSpec
  import opened LowerFacts
  import opened SwitchDispatch
  import opened Shapes
  import opened Simulation
  import opened Arithmetic
  import opened BranchTargets

  function Start(isVoid: bool): Builder { Builder([[]], 0, [], [], map[], isVoid) }

  function DefaultReturn(isVoid: bool): Instr { Ret(if isVoid then Nothing else Zero) }

  /** The body's statements one after the other, then a default return if the end can be reached. */
  function LowerFunction(isVoid: bool, body: Stmts): Builder {
    var st := LowerList(Start(isVoid), body);
    if Open(st) then Put(st, DefaultReturn(isVoid)) else st
  }

  /** A block without a terminator gets one: a return in the entry block, unreachable elsewhere. */
  function Sealed(blocks: seq<Block>, isVoid: bool): (r: seq<Block>)
    ensures |r| == |blocks|
  {
    seq(|blocks|, b requires 0 <= b < |blocks| => SealedBlock(blocks[b], b, isVoid))
  }

  function SealedBlock(block: Block, b: nat, isVoid: bool): Block {
    if Terminated(block) then block
    else block + [if b == 0 then DefaultReturn(isVoid) else Unreachable]
  }

  /** Lowering emits no unreachable, so a block that starts with one had no code before it was sealed. */
  lemma UnreachableFirst(block: Block, b: nat, isVoid: bool)
    requires forall k :: 0 <= k < |block| ==> block[k] != Unreachable
    requires var c := Code(SealedBlock(block, b, isVoid)); c != [] && c[0] == Unreachable
    ensures Code(block) == []
    ensures forall k :: 0 <= k < |SealedBlock(block, b, isVoid)| ==> Targets(SealedBlock(block, b, isVoid)[k]) == {}
  {
    var c := Code(block);
    if c != [] {
      CodeFrom(block, 0);
      if !Terminated(block) { Appended(block, if b == 0 then DefaultReturn(isVoid) else Unreachable); }
    } else {
      NoCode(block);
    }
  }

  /** What sealing is for: a block that was left open takes the machine nowhere, unless it is the entry, which
      returns. */
  lemma OpenEnd(o: Oracle, blocks: seq<Block>, isVoid: bool, b: nat, h: History)
    requires b < |blocks|
    ensures var p := Everything(Sealed(blocks, isVoid));
            && b in p && (Terminated(blocks[b]) ==> p[b] == blocks[b])
            && (!Terminated(blocks[b]) ==>
                  Step(o, p, Running(b, |blocks[b]|, h)) ==
                  if b == 0 then Halted(if isVoid then Nothing else Zero, h) else Stuck)
  {
    hide Terminated;
  }

  /** Which blocks are deleted, said of the blocks as lowering leaves them: those but the entry that have no code
      and that no instruction refers to. */
  lemma DeletedExactly(blocks: seq<Block>, isVoid: bool, b: nat)
    requires b < |blocks| && forall c, k :: 0 <= c < |blocks| && 0 <= k < |blocks[c]| ==> blocks[c][k] != Unreachable
    ensures b !in Live(Sealed(blocks, isVoid)) <==> b != 0 && Code(blocks[b]) == [] && !Used(blocks, b)
  {
    SealedUses(blocks, isVoid, b);
    if b != 0 { SealedStart(blocks[b], b, isVoid); }
    hide Code, Used, Terminated;
  }

  lemma SealedStart(block: Block, b: nat, isVoid: bool)
    requires b != 0 && forall k :: 0 <= k < |block| ==> block[k] != Unreachable
    ensures var c := Code(SealedBlock(block, b, isVoid)); c != [] && c[0] == Unreachable <==> Code(block) == []
  {
    Appended(block, Unreachable);
    var c := Code(SealedBlock(block, b, isVoid));
    if c != [] && c[0] == Unreachable { UnreachableFirst(block, b, isVoid); }
  }

  lemma SealedUses(blocks: seq<Block>, isVoid: bool, b: nat)
    ensures Used(Sealed(blocks, isVoid), b) <==> Used(blocks, b)
  {
    hide Terminated;
    var s := Sealed(blocks, isVoid);
    if Used(s, b) {
      var c, i :| 0 <= c < |s| && 0 <= i < |s[c]| && b in Targets(s[c][i]);
      assert i < |blocks[c]| && s[c][i] == blocks[c][i];
    }
    if Used(blocks, b) {
      var c, i :| 0 <= c < |blocks| && 0 <= i < |blocks[c]| && b in Targets(blocks[c][i]);
      assert s[c][i] == blocks[c][i];
    }
  }

  lemma {:induction false} CodeFrom(block: Block, k: nat)
    requires k < |Code(block)|
    ensures Code(block)[k] in block
  {
    var front := block[..|block| - 1];
    if k < |Code(front)| { CodeFrom(front, k); }
  }

  ghost predicate Used(blocks: seq<Block>, b: nat) {
    exists c, i :: 0 <= c < |blocks| && 0 <= i < |blocks[c]| && b in Targets(blocks[c][i])
  }

  ghost predicate Dead(blocks: seq<Block>, b: nat) {
    b != 0 && b < |blocks| && Code(blocks[b]) != [] && Code(blocks[b])[0] == Unreachable && !Used(blocks, b)
  }

  ghost function Everything(blocks: seq<Block>): Program {
    map b | 0 <= b < |blocks| :: blocks[b]
  }

  /** The blocks that survive the clean-up. */
  ghost function Live(blocks: seq<Block>): Program {
    map b | 0 <= b < |blocks| && !Dead(blocks, b) :: blocks[b]
  }

  ghost function Emitted(isVoid: bool, body: Stmts): Program {
    Live(Sealed(LowerFunction(isVoid, body).blocks, isVoid))
  }

  /** What calling the function with this body does. */
  function Called(o: Oracle, isVoid: bool, body: Stmts, fuel: nat): Run {
    match ExecFrom(o, isVoid, body, 0, [], fuel)
    case Done(Normal, h) => Done(Left(if isVoid then Nothing else Zero), h)
    case r => r
  }

  /** Deleting dead blocks is invisible to the machine. */
  lemma {:induction false} DeadInvisible(o: Oracle, blocks: seq<Block>, c: Config, n: nat)
    requires c.Running? ==> !Dead(blocks, c.block)
    ensures Steps(o, Live(blocks), c, n) == Steps(o, Everything(blocks), c, n)
    decreases n
  {
    if n > 0 {
      StepsAlive(o, blocks, c);
      DeadInvisible(o, blocks, Step(o, Everything(blocks), c), n - 1);
    }
  }

  lemma StepsAlive(o: Oracle, blocks: seq<Block>, c: Config)
    requires c.Running? ==> !Dead(blocks, c.block)
    ensures var d := Step(o, Everything(blocks), c); d.Running? ==> !Dead(blocks, d.block)
  {
    var d := Step(o, Everything(blocks), c);
    if c.Running? && d.Running? && d.block != c.block {
      SelectTargets(blocks[c.block][c.pc], o, c.h);
      assert d.block in Targets(blocks[c.block][c.pc]);
    }
  }

  lemma SelectTargets(i: Instr, o: Oracle, h: History)
    ensures i.SwitchBr? ==> forall p :: Select(i.cases, p, i.dflt) in Targets(i)
  {
    if i.SwitchBr? {
      forall p ensures Select(i.cases, p, i.dflt) in Targets(i) { SelectIn(i.cases, p, i.dflt); }
    }
  }

  lemma {:induction false} SelectIn(cases: seq<(nat, nat)>, p: nat, d: nat)
    ensures Select(cases, p, d) == d || exists k :: 0 <= k < |cases| && cases[k].1 == Select(cases, p, d)
  {
    if cases != [] && cases[0].0 != p {
      SelectIn(cases[1..], p, d);
      if Select(cases, p, d) != d {
        var k :| 0 <= k < |cases[1..]| && cases[1..][k].1 == Select(cases, p, d);
        assert cases[k + 1].1 == Select(cases, p, d);
      }
    }
  }

  /** Without an enclosing loop or switch nothing breaks or continues, and nothing jumps away. */
  lemma {:induction false} Contained(o: Oracle, isVoid: bool, s: Stmt, brk: bool, cont: bool, h: History, fuel: nat)
    requires Supported(s, brk, cont, isVoid)
    ensures var r := Exec(o, isVoid, s, h, fuel);
            r.Done? ==> (r.out.Broke? ==> brk) && (r.out.Continued? ==> cont) && !r.out.Jumped?
    decreases fuel, s, 1
  {
    match s
    case Compound(l) => ContainedFrom(o, isVoid, l, 0, false, brk, cont, h, fuel);
    case If(c, thn, els) =>
      Contained(o, isVoid, thn, brk, cont, h + [c.id], fuel);
      Contained(o, isVoid, els, brk, cont, h + [c.id], fuel);
    case While(c, b) => ContainedLoop(o, isVoid, c, None, b, h, fuel);
    case DoWhile(b, c) =>
      Contained(o, isVoid, b, true, true, h, fuel);
      var r := Exec(o, isVoid, b, h, fuel);
      if r.Done? { ContainedLoop(o, isVoid, c, None, b, r.h, fuel); }
    case For(i, c, n, b) =>
      Contained(o, isVoid, i, brk, cont, h, fuel);
      var r := Exec(o, isVoid, i, h, fuel);
      if r.Done? { ContainedLoop(o, isVoid, c, n, b, r.h, fuel); }
    case Switch(c, w, sg, l) =>
      SwitchRun(o, isVoid, s, brk, cont, h, fuel);
      var k := Entry(l, Wrap(o(h, c.id), w, sg), w, sg);
      if k.Some? { ContainedFrom(o, isVoid, l, k.value, true, true, cont, h + [c.id], fuel); }
    case _ =>
  }

  lemma {:induction false} ContainedFrom(o: Oracle, isVoid: bool, l: Stmts, k: nat, labels: bool, brk: bool,
                                         cont: bool, h: History, fuel: nat)
    requires SupportedList(l, labels, brk, cont, isVoid)
    ensures var r := ExecFrom(o, isVoid, l, k, h, fuel);
            r.Done? ==> (r.out.Broke? ==> brk) && (r.out.Continued? ==> cont) && !r.out.Jumped?
    decreases fuel, l, 0
  {
    if l.Cons? {
      if k > 0 {
        ContainedFrom(o, isVoid, l.tail, k - 1, labels, brk, cont, h, fuel);
      } else {
        if !l.head.Case? && !l.head.Default? { Contained(o, isVoid, l.head, brk, cont, h, fuel); }
        var r := Exec(o, isVoid, l.head, h, fuel);
        if r.Done? { ContainedFrom(o, isVoid, l.tail, 0, labels, brk, cont, r.h, fuel); }
      }
    }
  }

  lemma {:induction false} ContainedLoop(o: Oracle, isVoid: bool, test: Option<Expr>, incr: Option<Expr>, body: Stmt,
                                         h: History, fuel: nat)
    requires Supported(body, true, true, isVoid)
    ensures var r := Iterate(o, isVoid, test, incr, body, h, fuel); r.Done? ==> r.out.Normal? || r.out.Left?
    decreases fuel, body, 2
  {
    if fuel > 0 {
      var h1 := Evaluated(test, h);
      Contained(o, isVoid, body, true, true, h1, fuel - 1);
      var r := Exec(o, isVoid, body, h1, fuel - 1);
      if r.Done? { ContainedLoop(o, isVoid, test, incr, body, Evaluated(incr, r.h), fuel - 1); }
    }
  }

  /** A fuel at which the call finishes is matched by a halting run of the machine with the same
      evaluations and the same result; at any other fuel the machine is still running. */
  lemma Calls(o: Oracle, isVoid: bool, body: Stmts, fuel: nat) returns (n: nat)
    requires SupportedList(body, false, false, false, isVoid)
    ensures match Called(o, isVoid, body, fuel)
            case Timeout => n >= fuel && Steps(o, Emitted(isVoid, body), Running(0, 0, []), n).Running?
            case Done(Left(r), h) => Steps(o, Emitted(isVoid, body), Running(0, 0, []), n) == Halted(r, h)
            case _ => false
  {
    hide Keeps, Own, Dead, Holds, Sane, LowerFunction, LowerList, Sealed, Everything, Live, Arrives, SupportedList;
    var st0, st1 := Start(isVoid), LowerList(Start(isVoid), body);
    var blocks := Sealed(LowerFunction(isVoid, body).blocks, isVoid);
    var p := Everything(blocks);
    FunctionHolds(isVoid, body);
    n := SimulateList(o, p, st0, body, [], fuel);
    ContainedFrom(o, isVoid, body, 0, false, false, false, [], fuel);
    n := ThenReturn(o, p, isVoid, st1, n, ExecFrom(o, isVoid, body, 0, [], fuel), fuel);
    EntryAlive(blocks);
    DeadInvisible(o, blocks, Running(0, 0, []), n);
  }

  /** A body that completes normally runs on into the default return. */
  lemma ThenReturn(o: Oracle, p: Program, isVoid: bool, st: Builder, m: nat, r: Run, fuel: nat) returns (n: nat)
    requires Arrives(o, p, Running(0, 0, []), m, r, fuel, st, 0, 0)
    requires r.Done? ==> r.out.Normal? || r.out.Left?
    requires Sane(st) && (Open(st) ==> Holds(p, Put(st, DefaultReturn(isVoid)).blocks))
    ensures match r
            case Timeout => n >= fuel && Steps(o, p, Running(0, 0, []), n).Running?
            case Done(Normal, h) => Steps(o, p, Running(0, 0, []), n) == Halted(if isVoid then Nothing else Zero, h)
            case Done(Left(v), h) => Steps(o, p, Running(0, 0, []), n) == Halted(v, h)
            case _ => false
  {
    hide Holds, Sane;
    n := m;
    if r.Done? && r.out.Normal? {
      RunInstr(o, p, st, DefaultReturn(isVoid), r.h);
      StepsAdd(o, p, Running(0, 0, []), m, 1);
      n := m + 1;
    }
  }

  /** What the body left is still there after the default return and the clean-up. */
  lemma FunctionHolds(isVoid: bool, body: Stmts)
    ensures var st := LowerList(Start(isVoid), body);
            var p := Everything(Sealed(LowerFunction(isVoid, body).blocks, isVoid));
            && Sane(st) && Holds(p, st.blocks) && Sane(Start(isVoid))
            && (Open(st) ==> Holds(p, Put(st, DefaultReturn(isVoid)).blocks))
  {
    hide Keeps, Own, LowerList;
    var st0, st := Start(isVoid), LowerList(Start(isVoid), body);
    var st2 := LowerFunction(isVoid, body);
    var p := Everything(Sealed(st2.blocks, isVoid));
    ListKeeps(st0, body);
    KeepsSize(st0.blocks, Own(st0), st);
    KeepsSelf(st);
    PutKeeps(st.blocks, Own(st), st, DefaultReturn(isVoid));
    assert Holds(p, st2.blocks);
    HoldsDown(p, st.blocks, Own(st), st2);
  }

  lemma EntryAlive(blocks: seq<Block>)
    ensures !Dead(blocks, 0)
  {
  }

  /** The emitted function halts with a result exactly when the C function returns it, having
      evaluated the same expressions in the same order; so it runs forever exactly when C does. */
  lemma FunctionMeaning(o: Oracle, isVoid: bool, body: Stmts, r: Returned, h: History)
    requires SupportedList(body, false, false, false, isVoid)
    ensures (exists n :: Steps(o, Emitted(isVoid, body), Running(0, 0, []), n) == Halted(r, h))
            <==> (exists fuel :: Called(o, isVoid, body, fuel) == Done(Left(r), h))
  {
    var p, c := Emitted(isVoid, body), Running(0, 0, []);
    if exists fuel :: Called(o, isVoid, body, fuel) == Done(Left(r), h) {
      var fuel :| Called(o, isVoid, body, fuel) == Done(Left(r), h);
      var n := Calls(o, isVoid, body, fuel);
      assert Steps(o, p, c, n) == Halted(r, h);
    }
    if exists n :: Steps(o, p, c, n) == Halted(r, h) {
      var n :| Steps(o, p, c, n) == Halted(r, h);
      var m := Calls(o, isVoid, body, n);
      FinalAgrees(o, p, c, n, m);
      assert Called(o, isVoid, body, n) == Done(Left(r), h);
    }
  }

  lemma FinalAgrees(o: Oracle, p: Program, c: Config, m: nat, n: nat)
    requires !Steps(o, p, c, m).Running?
    ensures n >= m || !Steps(o, p, c, n).Running? ==> Steps(o, p, c, n) == Steps(o, p, c, m)
  {
    if n >= m {
      StepsAdd(o, p, c, m, n - m);
      FinalStays(o, p, Steps(o, p, c, m), n - m);
    } else if !Steps(o, p, c, n).Running? {
      StepsAdd(o, p, c, n, m - n);
      FinalStays(o, p, Steps(o, p, c, n), m - n);
    }
  }

  // ----- statements the theorems above leave out -----

  /** Statements that are not lowered because their expression is not. */
  predicate Fails(s: Stmt, isVoid: bool) {
    match s
    case Eval(e) => e.lowers.Failure?
    case If(c, _, _) => c.lowers.Failure?
    case Switch(c, _, _, _) => c.lowers.Failure?
    case Return(Some(e)) => !isVoid && e.lowers.Failure?
    case _ => false
  }

  function Append(a: Stmts, b: Stmts): Stmts {
    match a case Nil => b case Cons(s, t) => Cons(s, Append(t, b))
  }

  lemma {:induction false} LowerAppend(st: Builder, a: Stmts, b: Stmts)
    ensures LowerList(st, Append(a, b)) == LowerList(LowerList(st, a), b)
    decreases a
  {
    hide Lower;
    if a.Cons? { LowerAppend(Lower(st, a.head).st, a.tail, b); }
  }

  lemma FailsAlone(st: Builder, s: Stmt, t: Stmts)
    requires Fails(s, st.isVoid)
    ensures LowerList(st, Cons(s, t)) == LowerList(st, t)
  {
    FailsQuietly(st, s);
    hide Lower;
  }

  lemma FailsQuietly(st: Builder, s: Stmt)
    requires Fails(s, st.isVoid)
    ensures Lower(st, s) == Lowered(st, false)
  {
    hide BlockOfLabel, IfEntry, WhileEntry, ForEntry, ForStep, SwitchEntry, SwitchExit, LowerBody, LowerList, Put;
    match s
    case If(c, _, _) => assert LowerIf(st, s) == Lowered(st, false);
    case Switch(c, _, _, _) => assert LowerSwitch(st, s) == Lowered(st, false);
    case _ =>
  }

  /** A statement that fails leaves no trace: the function is the one without it, what comes after included. */
  lemma FailedSkipped(isVoid: bool, before: Stmts, s: Stmt, after: Stmts)
    requires Fails(s, isVoid)
    ensures Emitted(isVoid, Append(before, Cons(s, after))) == Emitted(isVoid, Append(before, after))
  {
    hide LowerList, Live, Sealed, Fails, Deeper;
    var st := LowerList(Start(isVoid), before);
    ListDiscipline(Start(isVoid), before);
    DeeperVoid(Start(isVoid), st);
    LowerAppend(Start(isVoid), before, Cons(s, after));
    LowerAppend(Start(isVoid), before, after);
    FailsAlone(st, s, after);
  }

  /** Returns whose expression has no value: a void function returns without evaluating one that failed, another
      function returns zero after one that has no value. */
  lemma ReturnAnyway(o: Oracle, p: Program, st: Builder, e: Expr, h: History)
    requires Sane(st) && Holds(p, Lower(st, Return(Some(e))).st.blocks)
    ensures st.isVoid && e.lowers.Failure? ==> Steps(o, p, Pos(st, h), 1) == Halted(Nothing, h)
    ensures !st.isVoid && e.lowers.NoValue? ==> Steps(o, p, Pos(st, h), 2) == Halted(Zero, h + [e.id])
  {
    hide Steps, Holds;
    if st.isVoid && e.lowers.Failure? {
      RunInstr(o, p, st, Ret(Nothing), h);
    } else if !st.isVoid && e.lowers.NoValue? {
      RunExprThen(o, p, st, e, Ret(Zero), h);
    }
  }

  /** A loop test without a value counts as true, after it has been evaluated. */
  lemma TestWithoutValue(o: Oracle, p: Program, st: Builder, e: Expr, body: nat, end: nat, h: History)
    requires Sane(st) && e.lowers.NoValue? && Holds(p, PutTest(st, Some(e), body, end).st.blocks)
    ensures Steps(o, p, Pos(st, h), 2) == Running(body, 0, h + [e.id])
  {
    hide Steps, Holds;
    RunExprThen(o, p, st, e, Br(body), h);
  }
}
