/** What lowering a supported statement leaves behind, part by part, and how the machine runs the
    pieces every part is made of. */
module Shapes {
  import opened Arithmetic
  import opened CStatements
  import opened Options
  import opened BlockMachine
  import opened LowerSpec
  import opened LowerFacts
  import opened SwitchDispatch
  import opened BranchTargets

  predicate IsValue(e: Option<Expr>) { e.Some? ==> e.value.lowers.Value? }

  /** Statements the simulation speaks about: nothing fails to lower, tests and results have values,
      break and continue have something to leave, switch labels fit the condition and are direct children
      of the switch body, a switch has one default at most, and there is no goto.  brk and cont say what
      encloses the statement. */
  predicate Supported(s: Stmt, brk: bool, cont: bool, isVoid: bool) {
    match s
    case Eval(e) => !e.lowers.Failure?
    case Compound(l) => SupportedList(l, false, brk, cont, isVoid)
    case If(c, thn, els) => c.lowers.Value? && Supported(thn, brk, cont, isVoid) && Supported(els, brk, cont, isVoid)
    case While(t, b) => IsValue(t) && Supported(b, true, true, isVoid)
    case DoWhile(b, t) => IsValue(t) && Supported(b, true, true, isVoid)
    case For(i, t, n, b) =>
      Supported(i, brk, cont, isVoid) && IsValue(t) && (n.Some? ==> !n.value.lowers.Failure?)
      && Supported(b, true, true, isVoid)
    case Switch(c, w, sg, l) =>
      c.lowers.Value? && LabelsFit(l, w, sg) && OneDefault(l) && SupportedList(l, true, true, cont, isVoid)
    case Break => brk
    case Continue => cont
    case Return(Some(e)) => if isVoid then !e.lowers.Failure? else e.lowers.Value?
    case Case(_) => false
    case Default => false
    case Goto(_) => false
    case Labeled(_, _) => false
    case _ => true
  }

  /** labels says whether the list is a switch body. */
  predicate SupportedList(l: Stmts, labels: bool, brk: bool, cont: bool, isVoid: bool) {
    l.Cons? ==>
      && ((labels && (l.head.Case? || l.head.Default?)) || Supported(l.head, brk, cont, isVoid))
      && SupportedList(l.tail, labels, brk, cont, isVoid)
  }

  predicate OneDefault(l: Stmts) {
    l.Cons? ==> (l.head.Default? ==> !HasDefault(l.tail)) && OneDefault(l.tail)
  }

  function Top(s: seq<nat>): nat { if s == [] then 0 else s[|s| - 1] }

  /** The program has at least these instructions at these places. */
  ghost predicate Holds(p: Program, blocks: seq<Block>) {
    forall b :: 0 <= b < |blocks| ==> b in p && blocks[b] <= p[b]
  }

  /** The machine about to run what the builder emits next. */
  function Pos(st: Builder, h: History): Config { Running(st.cur, |Here(st)|, h) }

  /** n steps from c carry out run r: they end where the statement's outcome leads, at the insertion
      point of exit if it completes normally; and a run that exhausts its fuel keeps the machine
      going for at least that many steps. */
  ghost predicate Arrives(o: Oracle, p: Program, c: Config, n: nat, r: Run, fuel: nat, exit: Builder, brk: nat,
                          cont: nat) {
    match r
    case Timeout => n >= fuel && Steps(o, p, c, n).Running?
    case Done(Normal, h) => Open(exit) && Steps(o, p, c, n) == Pos(exit, h)
    case Done(Broke, h) => Steps(o, p, c, n) == Running(brk, 0, h)
    case Done(Continued, h) => Steps(o, p, c, n) == Running(cont, 0, h)
    case Done(Left(v), h) => Steps(o, p, c, n) == Halted(v, h)
    case Done(Jumped(_), _) => false
  }

  lemma HoldsDown(p: Program, base: seq<Block>, own: set<nat>, st: Builder)
    requires Keeps(base, own, st) && Holds(p, st.blocks)
    ensures Holds(p, base)
  {
  }

  lemma Fetched(p: Program, st: Builder, i: Instr)
    requires Sane(st) && Holds(p, Put(st, i).blocks)
    ensures Holds(p, st.blocks)
    ensures st.cur in p && |Here(st)| < |p[st.cur]| && p[st.cur][|Here(st)|] == i
  {
    var b := Put(st, i).blocks[st.cur];
    assert b <= p[st.cur];
    assert b[|Here(st)|] == i;
    forall b | 0 <= b < |st.blocks|
      ensures b in p && st.blocks[b] <= p[b]
    {
      assert Put(st, i).blocks[b] <= p[b];
    }
  }

  /** Evaluating leaves an open block open. */
  lemma ExprOpen(st: Builder, e: Expr)
    requires Sane(st) && Open(st)
    ensures Open(PutExpr(st, e)) && Sane(PutExpr(st, e))
  {
    hide Terminated, Code;
    Appended(Here(st), Compute(e.id, e.silent));
  }

  lemma RunExpr(o: Oracle, p: Program, st: Builder, e: Expr, h: History)
    requires Sane(st) && !e.lowers.Failure? && Holds(p, PutExpr(st, e).blocks)
    ensures Steps(o, p, Pos(st, h), 1) == Pos(PutExpr(st, e), h + [e.id])
    ensures Holds(p, st.blocks) && Sane(PutExpr(st, e))
  {
    Fetched(p, st, Compute(e.id, e.silent));
    assert Steps(o, p, Pos(st, h), 1) == Steps(o, p, Step(o, p, Pos(st, h)), 0);
  }

  lemma RunInstr(o: Oracle, p: Program, st: Builder, i: Instr, h: History)
    requires Sane(st) && Holds(p, Put(st, i).blocks)
    ensures Holds(p, st.blocks)
    ensures i.Br? ==> Steps(o, p, Pos(st, h), 1) == Running(i.target, 0, h)
    ensures i.CondBr? ==> Steps(o, p, Pos(st, h), 1) == Running(if LastValueOf(o, h) != 0 then i.thn else i.els, 0, h)
    ensures i.SwitchBr? ==>
              Steps(o, p, Pos(st, h), 1) == Running(Select(i.cases, Pattern(LastValueOf(o, h), i.width), i.dflt), 0, h)
    ensures i.Ret? ==> Steps(o, p, Pos(st, h), 1) == Halted(i.r, h)
  {
    Fetched(p, st, i);
    assert Steps(o, p, Pos(st, h), 1) == Steps(o, p, Step(o, p, Pos(st, h)), 0);
  }

  lemma LastValueAfter(o: Oracle, h: History, e: nat)
    ensures LastValueOf(o, h + [e]) == o(h, e)
  {
    assert (h + [e])[..|h|] == h;
  }

  lemma RunExprThen(o: Oracle, p: Program, st: Builder, e: Expr, i: Instr, h: History)
    requires Sane(st) && !e.lowers.Failure? && !i.Compute? && !i.Unreachable?
    requires Holds(p, Put(PutExpr(st, e), i).blocks)
    ensures Holds(p, st.blocks)
    ensures i.Br? ==> Steps(o, p, Pos(st, h), 2) == Running(i.target, 0, h + [e.id])
    ensures i.CondBr? ==> Steps(o, p, Pos(st, h), 2) == Running(if o(h, e.id) != 0 then i.thn else i.els, 0, h + [e.id])
    ensures i.SwitchBr? ==>
              Steps(o, p, Pos(st, h), 2) ==
              Running(Select(i.cases, Pattern(o(h, e.id), i.width), i.dflt), 0, h + [e.id])
    ensures i.Ret? ==> Steps(o, p, Pos(st, h), 2) == Halted(i.r, h + [e.id])
  {
    Fetched(p, PutExpr(st, e), i);
    RunExpr(o, p, st, e, h);
    RunInstr(o, p, PutExpr(st, e), i, h + [e.id]);
    LastValueAfter(o, h, e.id);
    StepsAdd(o, p, Pos(st, h), 1, 1);
  }

  /** The test of a loop, from its first instruction to the first instruction after it. */
  lemma RunTest(o: Oracle, p: Program, st: Builder, test: Option<Expr>, body: nat, end: nat, h: History)
    returns (n: nat)
    requires Sane(st) && IsValue(test) && Holds(p, PutTest(st, test, body, end).st.blocks)
    ensures n > 0
    ensures Steps(o, p, Pos(st, h), n) ==
            Running(if test.Some? && o(h, test.value.id) == 0 then end else body, 0, Evaluated(test, h))
  {
    if test.Some? {
      RunExprThen(o, p, st, test.value, CondBr(body, end), h);
      n := 2;
    } else {
      RunInstr(o, p, st, Br(body), h);
      n := 1;
    }
  }

  lemma Prepend(o: Oracle, p: Program, c: Config, m: nat, c': Config, n: nat, r: Run, fuel: nat, fuel': nat,
                exit: Builder, brk: nat, cont: nat)
    requires Steps(o, p, c, m) == c' && Arrives(o, p, c', n, r, fuel', exit, brk, cont) && fuel <= m + fuel'
    ensures Arrives(o, p, c, m + n, r, fuel, exit, brk, cont)
  {
    StepsAdd(o, p, c, m, n);
  }

  /** A run that completes normally and then branches to an empty block. */
  lemma ThenBranch(o: Oracle, p: Program, c: Config, n: nat, r: Run, fuel: nat, st: Builder, t: nat, exit: Builder,
                   brk: nat, cont: nat) returns (n': nat)
    requires Arrives(o, p, c, n, r, fuel, st, brk, cont)
    requires Sane(st) && Holds(p, BranchIfOpen(st, t).blocks)
    requires exit.cur == t && Here(exit) == []
    ensures Arrives(o, p, c, n', r, fuel, exit, brk, cont)
  {
    n' := n;
    if r.Done? && r.out.Normal? {
      RunInstr(o, p, st, Br(t), r.h);
      StepsAdd(o, p, c, n, 1);
      n' := n + 1;
    }
  }

  lemma {:induction false} SupportedSucceeds(s: Stmt, brk: bool, cont: bool, isVoid: bool)
    requires Supported(s, brk, cont, isVoid)
    ensures Succeeds(s, isVoid) && Leaks(s, isVoid) == 0
    decreases s, 1
  {
    match s
    case Compound(l) => SupportedNoLeaks(l, false, brk, cont, isVoid);
    case If(_, thn, els) =>
      SupportedSucceeds(thn, brk, cont, isVoid);
      SupportedSucceeds(els, brk, cont, isVoid);
    case While(_, b) => SupportedSucceeds(b, true, true, isVoid);
    case DoWhile(b, _) => SupportedSucceeds(b, true, true, isVoid);
    case For(i, _, _, b) =>
      SupportedSucceeds(i, brk, cont, isVoid);
      SupportedSucceeds(b, true, true, isVoid);
    case Switch(_, _, _, l) => SupportedNoLeaks(l, true, true, cont, isVoid);
    case _ =>
  }

  lemma {:induction false} SupportedNoLeaks(l: Stmts, labels: bool, brk: bool, cont: bool, isVoid: bool)
    requires SupportedList(l, labels, brk, cont, isVoid)
    ensures ListLeaks(l, isVoid) == 0
    decreases l, 0
  {
    if l.Cons? {
      if !l.head.Case? && !l.head.Default? { SupportedSucceeds(l.head, brk, cont, isVoid); }
      SupportedNoLeaks(l.tail, labels, brk, cont, isVoid);
    }
  }

  /** A supported statement lowers without error and hands the builder on with the same stacks. */
  lemma LowerSupported(st: Builder, s: Stmt, brk: bool, cont: bool)
    requires Sane(st) && Supported(s, brk, cont, st.isVoid)
    ensures var r := Lower(st, s);
            && r.ok && Sane(r.st)
            && r.st.breaks == st.breaks && r.st.continues == st.continues && r.st.isVoid == st.isVoid
            && Keeps(st.blocks, Own(st), r.st)
  {
    SupportedSucceeds(s, brk, cont, st.isVoid);
    StacksRestored(st, s);
    StackDiscipline(st, s);
    LowerKeeps(st, s);
  }

  /** A block outside own is as it was, and stays outside. */
  lemma KeepsOut(base: seq<Block>, own: set<nat>, st: Builder, b: nat)
    requires Keeps(base, own, st) && b < |base| && b !in own
    ensures st.blocks[b] == base[b] && b !in Own(st)
  {
  }

  /** A part of a statement, lowered from st and closed with a branch to t. */
  lemma Part(p: Program, st: Builder, s: Stmt, brk: bool, cont: bool, t: nat)
    requires Sane(st) && Supported(s, brk, cont, st.isVoid)
    requires Holds(p, BranchIfOpen(Lower(st, s).st, t).blocks)
    ensures var r := Lower(st, s);
            && r.ok && Sane(r.st)
            && r.st.breaks == st.breaks && r.st.continues == st.continues && r.st.isVoid == st.isVoid
            && Holds(p, r.st.blocks) && Holds(p, st.blocks)
            && Keeps(st.blocks, Own(st), BranchIfOpen(r.st, t))
            && |BranchIfOpen(r.st, t).blocks| == |r.st.blocks|
  {
    hide Keeps, Holds, Sane, Own;
    LowerSupported(st, s, brk, cont);
    var st1 := Lower(st, s).st;
    KeepsSelf(st1);
    BranchKeeps(st1.blocks, Own(st1), st1, t);
    HoldsDown(p, st1.blocks, Own(st1), BranchIfOpen(st1, t));
    HoldsDown(p, st.blocks, Own(st), st1);
    BranchKeeps(st.blocks, Own(st), st1, t);
  }

  /** Moving the insertion point to an empty block. */
  lemma MoveTo(base: seq<Block>, own: set<nat>, st: Builder, b: nat)
    requires Keeps(base, own, st) && b < |base| && b !in own && base[b] == []
    ensures Sane(At(st, b)) && Here(At(st, b)) == [] && Open(At(st, b))
    ensures Own(At(st, b)) == {b} + st.labels.Values
    ensures forall c :: 0 <= c < |base| && c !in own && c != b ==> c !in Own(At(st, b)) && st.blocks[c] == base[c]
  {
    forall c | 0 <= c < |base| && c !in own && c != b
      ensures c !in Own(At(st, b)) && st.blocks[c] == base[c]
    {
      KeepsOut(base, own, st, c);
    }
  }

  lemma IfStart(st: Builder, cond: Expr)
    requires Sane(st)
    ensures var n, st1 := |st.blocks|, IfEntry(st, cond);
            && Sane(st1) && Here(st1) == [] && st1.cur == n && |st1.blocks| == n + 3
            && st1.breaks == st.breaks && st1.continues == st.continues && st1.isVoid == st.isVoid
            && st1.blocks[n + 1] == [] && st1.blocks[n + 2] == [] && n + 1 !in Own(st1) && n + 2 !in Own(st1)
  {
  }

  /** The states of an if whose three parts are in place. */
  lemma IfShape(p: Program, st: Builder, s: Stmt, brk: bool, cont: bool)
    requires Sane(st) && s.If? && Supported(s, brk, cont, st.isVoid)
    requires Holds(p, Lower(st, s).st.blocks)
    ensures var n, st1 := |st.blocks|, IfEntry(st, s.cond);
            var r1 := Lower(st1, s.thn);
            var st2 := At(BranchIfOpen(r1.st, n + 2), n + 1);
            var r2 := Lower(st2, s.els);
            && Sane(st1) && Here(st1) == [] && st1.cur == n
            && st1.breaks == st.breaks && st1.continues == st.continues && st1.isVoid == st.isVoid
            && Sane(r1.st) && Sane(st2) && Here(st2) == [] && st2.cur == n + 1
            && st2.breaks == st.breaks && st2.continues == st.continues && st2.isVoid == st.isVoid
            && Sane(r2.st)
            && Lower(st, s) == Lowered(At(BranchIfOpen(r2.st, n + 2), n + 2), true)
            && Here(Lower(st, s).st) == []
            && Holds(p, st1.blocks) && Holds(p, r1.st.blocks) && Holds(p, BranchIfOpen(r1.st, n + 2).blocks)
            && Holds(p, r2.st.blocks) && Holds(p, BranchIfOpen(r2.st, n + 2).blocks)
  {
    hide Keeps, Holds, Sane, Own, IfEntry;
    var n, st1 := |st.blocks|, IfEntry(st, s.cond);
    IfStart(st, s.cond);
    LowerSupported(st1, s.thn, brk, cont);
    var st1' := Lower(st1, s.thn).st;
    BranchKeeps(st1.blocks, Own(st1), st1', n + 2);
    MoveTo(st1.blocks, Own(st1), BranchIfOpen(st1', n + 2), n + 1);
    var st2 := At(BranchIfOpen(st1', n + 2), n + 1);
    KeepsSize(st1.blocks, Own(st1), st1');
    LowerSupported(st2, s.els, brk, cont);
    var st2' := Lower(st2, s.els).st;
    assert Lower(st, s) == Lowered(At(BranchIfOpen(st2', n + 2), n + 2), true);
    Part(p, st2, s.els, brk, cont, n + 2);
    MoveTo(st2.blocks, Own(st2), BranchIfOpen(st2', n + 2), n + 2);
    Part(p, st1, s.thn, brk, cont, n + 2);
  }

  lemma KeepsMore(base: seq<Block>, own: set<nat>, own': set<nat>, st: Builder)
    requires Keeps(base, own, st) && own <= own'
    ensures Keeps(base, own', st)
  {
  }

  /** A loop in place: its test, body and step blocks, and the builder after it. */
  datatype Loop = Loop(test: Option<Expr>, incr: Option<Expr>, body: Stmt,
                       testSt: Builder, bodySt: Builder, stepSt: Builder, exit: Builder)

  function StepExpr(st: Builder, incr: Option<Expr>): Builder {
    if incr.Some? then PutExpr(st, incr.value) else st
  }

  ghost predicate Built(p: Program, l: Loop) {
    && Sane(l.testSt) && Here(l.testSt) == [] && IsValue(l.test)
    && Holds(p, PutTest(l.testSt, l.test, l.bodySt.cur, l.exit.cur).st.blocks)
    && Sane(l.bodySt) && Here(l.bodySt) == [] && Supported(l.body, true, true, l.bodySt.isVoid)
    && l.bodySt.breaks != [] && Top(l.bodySt.breaks) == l.exit.cur
    && l.bodySt.continues != [] && Top(l.bodySt.continues) == l.stepSt.cur
    && Sane(Lower(l.bodySt, l.body).st) && Holds(p, BranchIfOpen(Lower(l.bodySt, l.body).st, l.stepSt.cur).blocks)
    && Here(l.exit) == []
    && Sane(l.stepSt) && Here(l.stepSt) == [] && (l.incr.Some? ==> !l.incr.value.lowers.Failure?)
    && ((l.stepSt.cur == l.testSt.cur && l.incr.None?)
        || Holds(p, BranchIfOpen(StepExpr(l.stepSt, l.incr), l.testSt.cur).blocks))
  }

  /** A test and a body in place: testSt is at the empty test block, t is where the body goes on. */
  lemma TestAndBody(testSt: Builder, test: Option<Expr>, body: Stmt, bb: nat, eb: nat, t: nat)
    requires Sane(testSt) && bb < |testSt.blocks| && bb !in Own(testSt) && testSt.blocks[bb] == []
    requires Supported(body, true, true, testSt.isVoid)
    ensures var tested := PutTest(testSt, test, bb, eb).st;
            var bodySt := At(tested, bb);
            var st1 := BranchIfOpen(Lower(bodySt, body).st, t);
            && Sane(bodySt) && Here(bodySt) == [] && Sane(Lower(bodySt, body).st)
            && (forall c :: 0 <= c < |testSt.blocks| && c !in Own(testSt) && c != bb ==>
                 c < |bodySt.blocks| && c !in Own(bodySt) && bodySt.blocks[c] == testSt.blocks[c])
            && Keeps(bodySt.blocks, Own(bodySt), st1)
  {
    hide Keeps, Sane, PutTest, Lower;
    var tested := PutTest(testSt, test, bb, eb).st;
    KeepsSelf(testSt);
    TestKeeps(testSt.blocks, Own(testSt), testSt, test, bb, eb);
    TestVoid(testSt, test, bb, eb);
    KeepsSize(testSt.blocks, Own(testSt), tested);
    MoveTo(testSt.blocks, Own(testSt), tested, bb);
    LowerSupported(At(tested, bb), body, true, true);
    BranchKeeps(tested.blocks, Own(At(tested, bb)), Lower(At(tested, bb), body).st, t);
  }

  lemma TestVoid(st: Builder, test: Option<Expr>, bb: nat, eb: nat)
    ensures var r := PutTest(st, test, bb, eb);
            r.st.isVoid == st.isVoid && r.st.breaks == st.breaks && r.st.continues == st.continues
    ensures IsValue(test) ==> PutTest(st, test, bb, eb).ok
  {
  }

  /** The builder at the test block of a loop with k blocks that starts with its test or its body. */
  function LoopTest(st: Builder, k: nat, brk: nat, cont: nat, first: nat): Builder {
    At(Put(PushTargets(AddBlocks(st, k), brk, cont), Br(first)), |st.blocks|)
  }

  lemma LoopStart(st: Builder, k: nat, brk: nat, cont: nat, first: nat)
    requires Sane(st) && k > 0
    ensures var st0, testSt := PushTargets(AddBlocks(st, k), brk, cont), LoopTest(st, k, brk, cont, first);
            && Sane(st0) && st0.cur == st.cur && Here(st0) == Here(st) && Put(st0, Br(first)).blocks == testSt.blocks
            && Sane(testSt) && Here(testSt) == [] && |testSt.blocks| == |st.blocks| + k
            && (forall c :: |st.blocks| < c < |st.blocks| + k ==> testSt.blocks[c] == [] && c !in Own(testSt))
            && testSt.breaks == st.breaks + [brk] && testSt.continues == st.continues + [cont]
            && testSt.isVoid == st.isVoid
  {
  }

  lemma WhileForm(st: Builder, s: Stmt)
    requires (s.While? || s.DoWhile?) && IsValue(s.test)
    ensures var n := |st.blocks|;
            var testSt := LoopTest(st, 3, n + 2, n, if s.DoWhile? then n + 1 else n);
            var bodySt := At(PutTest(testSt, s.test, n + 1, n + 2).st, n + 1);
            Lower(st, s).st == At(PopTargets(BranchIfOpen(Lower(bodySt, s.loopBody).st, n)), n + 2)
  {
    hide PutTest;
    var n := |st.blocks|;
    TestVoid(LoopTest(st, 3, n + 2, n, if s.DoWhile? then n + 1 else n), s.test, n + 1, n + 2);
  }

  /** Block b is there, empty, and not one that lowering from st would touch. */
  ghost predicate Vacant(st: Builder, b: nat) {
    b < |st.blocks| && st.blocks[b] == [] && b !in Own(st)
  }

  /** The states of a while loop whose three blocks start at the end of st. */
  lemma WhileParts(st: Builder, s: Stmt, first: nat)
    requires (s.While? || s.DoWhile?) && Sane(st) && IsValue(s.test) && Supported(s.loopBody, true, true, st.isVoid)
    ensures var n := |st.blocks|;
            var testSt := LoopTest(st, 3, n + 2, n, first);
            var tested := PutTest(testSt, s.test, n + 1, n + 2).st;
            var bodySt := At(tested, n + 1);
            var st1 := Lower(bodySt, s.loopBody).st;
            && Sane(testSt) && Here(testSt) == [] && testSt.cur == n
            && Sane(bodySt) && Here(bodySt) == [] && Sane(st1)
            && bodySt.breaks == st.breaks + [n + 2] && bodySt.continues == st.continues + [n]
            && bodySt.isVoid == st.isVoid
            && Keeps(testSt.blocks, Own(testSt), tested)
            && Keeps(bodySt.blocks, Own(bodySt), BranchIfOpen(st1, n))
            && Vacant(bodySt, n + 2)
  {
    hide Keeps, Sane, Own, PutTest, Lower, BranchIfOpen, LoopTest, IsValue, Supported;
    var n := |st.blocks|;
    var testSt := LoopTest(st, 3, n + 2, n, first);
    LoopStart(st, 3, n + 2, n, first);
    LoopTestAt(st, 3, n + 2, n, first);
    assert testSt.blocks[n + 1] == [] && testSt.blocks[n + 2] == [];
    TestVoid(testSt, s.test, n + 1, n + 2);
    TestAndBody(testSt, s.test, s.loopBody, n + 1, n + 2, n);
    KeepsSelf(testSt);
    TestKeeps(testSt.blocks, Own(testSt), testSt, s.test, n + 1, n + 2);
  }

  lemma WhileShape(p: Program, st: Builder, s: Stmt) returns (l: Loop)
    requires Sane(st) && (s.While? || s.DoWhile?) && IsValue(s.test) && Supported(s.loopBody, true, true, st.isVoid)
    requires Holds(p, Lower(st, s).st.blocks)
    ensures Built(p, l) && l.test == s.test && l.incr == None && l.body == s.loopBody && l.bodySt.isVoid == st.isVoid
    ensures l.testSt.cur == |st.blocks| && l.bodySt.cur == |st.blocks| + 1 && l.exit == Lower(st, s).st
    ensures Holds(p, l.testSt.blocks)
    ensures l.testSt ==
            LoopTest(st, 3, |st.blocks| + 2, |st.blocks|, if s.DoWhile? then |st.blocks| + 1 else |st.blocks|)
  {
    hide Keeps, Holds, Sane, Own, PutTest, Lower, BranchIfOpen, LoopTest, IsValue, Supported;
    var n := |st.blocks|;
    var first := if s.DoWhile? then n + 1 else n;
    var testSt := LoopTest(st, 3, n + 2, n, first);
    WhileForm(st, s);
    WhileParts(st, s, first);
    var tested := PutTest(testSt, s.test, n + 1, n + 2).st;
    var bodySt := At(tested, n + 1);
    var st1 := BranchIfOpen(Lower(bodySt, s.loopBody).st, n);
    HoldsDown(p, bodySt.blocks, Own(bodySt), st1);
    HoldsDown(p, testSt.blocks, Own(testSt), tested);
    KeepsOut(bodySt.blocks, Own(bodySt), st1, n + 2);
    KeepsSize(bodySt.blocks, Own(bodySt), st1);
    l := Loop(s.test, None, s.loopBody, testSt, bodySt, testSt, Lower(st, s).st);
  }

  lemma LoopTestAt(st: Builder, k: nat, brk: nat, cont: nat, first: nat)
    ensures LoopTest(st, k, brk, cont, first).cur == |st.blocks|
  {
  }

  lemma ForForm(st: Builder, s: Stmt)
    requires s.For? && Lower(st, s.init).ok && IsValue(s.test) && (s.incr.Some? ==> !s.incr.value.lowers.Failure?)
    ensures var st1 := Lower(st, s.init).st;
            var n := |st1.blocks|;
            var testSt := LoopTest(st1, 4, n + 3, n + 1, n);
            var bodySt := At(PutTest(testSt, s.test, n + 2, n + 3).st, n + 2);
            var stepSt := At(BranchIfOpen(Lower(bodySt, s.loopBody).st, n + 1), n + 1);
            Lower(st, s).st == At(PopTargets(BranchIfOpen(StepExpr(stepSt, s.incr), n)), n + 3)
  {
    hide PutTest;
    var st1 := Lower(st, s.init).st;
    var n := |st1.blocks|;
    TestVoid(LoopTest(st1, 4, n + 3, n + 1, n), s.test, n + 2, n + 3);
  }

  lemma StepKeeps(st: Builder, incr: Option<Expr>, t: nat)
    requires Sane(st)
    ensures Keeps(st.blocks, Own(st), BranchIfOpen(StepExpr(st, incr), t))
  {
    hide Keeps, Own;
    KeepsSelf(st);
    if incr.Some? { ExprKeeps(st.blocks, Own(st), st, incr.value); }
    BranchKeeps(st.blocks, Own(st), StepExpr(st, incr), t);
  }

  /** The states of a for loop whose four blocks start at the end of st. */
  lemma ForParts(st: Builder, s: Stmt)
    requires s.For? && Sane(st) && IsValue(s.test) && Supported(s.loopBody, true, true, st.isVoid)
    ensures var n := |st.blocks|;
            var testSt := LoopTest(st, 4, n + 3, n + 1, n);
            var tested := PutTest(testSt, s.test, n + 2, n + 3).st;
            var bodySt := At(tested, n + 2);
            var st2 := Lower(bodySt, s.loopBody).st;
            var stepSt := At(BranchIfOpen(st2, n + 1), n + 1);
            && Sane(testSt) && Here(testSt) == [] && testSt.cur == n
            && Sane(bodySt) && Here(bodySt) == [] && Sane(st2)
            && bodySt.breaks == st.breaks + [n + 3] && bodySt.continues == st.continues + [n + 1]
            && bodySt.isVoid == st.isVoid
            && Keeps(testSt.blocks, Own(testSt), tested)
            && Keeps(bodySt.blocks, Own(bodySt), BranchIfOpen(st2, n + 1))
            && Sane(stepSt) && Here(stepSt) == []
            && Vacant(stepSt, n + 3)
  {
    hide Keeps, Sane, Own, PutTest, Lower, BranchIfOpen, LoopTest, IsValue, Supported;
    var n := |st.blocks|;
    var testSt := LoopTest(st, 4, n + 3, n + 1, n);
    LoopStart(st, 4, n + 3, n + 1, n);
    LoopTestAt(st, 4, n + 3, n + 1, n);
    assert testSt.blocks[n + 1] == [] && testSt.blocks[n + 2] == [] && testSt.blocks[n + 3] == [];
    var bodySt := At(PutTest(testSt, s.test, n + 2, n + 3).st, n + 2);
    var st2 := Lower(bodySt, s.loopBody).st;
    TestVoid(testSt, s.test, n + 2, n + 3);
    TestAndBody(testSt, s.test, s.loopBody, n + 2, n + 3, n + 1);
    KeepsSelf(testSt);
    TestKeeps(testSt.blocks, Own(testSt), testSt, s.test, n + 2, n + 3);
    MoveTo(bodySt.blocks, Own(bodySt), BranchIfOpen(st2, n + 1), n + 1);
    KeepsSize(bodySt.blocks, Own(bodySt), BranchIfOpen(st2, n + 1));
    assert bodySt.blocks[n + 3] == [];
  }

  lemma ForShape(p: Program, st: Builder, s: Stmt) returns (l: Loop)
    requires s.For? && Lower(st, s.init).ok && Sane(Lower(st, s.init).st) && IsValue(s.test)
    requires Supported(s.loopBody, true, true, Lower(st, s.init).st.isVoid)
    requires s.incr.Some? ==> !s.incr.value.lowers.Failure?
    requires Holds(p, Lower(st, s).st.blocks)
    ensures var st1 := Lower(st, s.init).st;
            && Built(p, l) && l.test == s.test && l.incr == s.incr && l.body == s.loopBody
            && l.bodySt.isVoid == st1.isVoid
            && l.testSt.cur == |st1.blocks| && l.exit == Lower(st, s).st
            && l.testSt == LoopTest(st1, 4, |st1.blocks| + 3, |st1.blocks| + 1, |st1.blocks|)
            && Holds(p, l.testSt.blocks)
  {
    hide Keeps, Holds, Sane, Own, PutTest, Lower, BranchIfOpen, LoopTest, IsValue, Supported, StepExpr;
    var st1 := Lower(st, s.init).st;
    var n := |st1.blocks|;
    var testSt := LoopTest(st1, 4, n + 3, n + 1, n);
    ForForm(st, s);
    ForParts(st1, s);
    var tested := PutTest(testSt, s.test, n + 2, n + 3).st;
    var bodySt := At(tested, n + 2);
    var st2 := Lower(bodySt, s.loopBody).st;
    var stepSt := At(BranchIfOpen(st2, n + 1), n + 1);
    StepKeeps(stepSt, s.incr, n);
    HoldsDown(p, stepSt.blocks, Own(stepSt), BranchIfOpen(StepExpr(stepSt, s.incr), n));
    HoldsDown(p, bodySt.blocks, Own(bodySt), BranchIfOpen(st2, n + 1));
    HoldsDown(p, testSt.blocks, Own(testSt), tested);
    KeepsOut(stepSt.blocks, Own(stepSt), BranchIfOpen(StepExpr(stepSt, s.incr), n), n + 3);
    l := Loop(s.test, s.incr, s.loopBody, testSt, bodySt, stepSt, Lower(st, s).st);
    KeepsSize(stepSt.blocks, Own(stepSt), BranchIfOpen(StepExpr(stepSt, s.incr), n));
  }

  /** The label blocks of a switch body are empty and nobody's. */
  ghost predicate LabelsReady(st: Builder, l: Stmts, next: nat, dflt: nat) {
    forall b :: b in LabelBlocks(l, next, dflt) ==> b < |st.blocks| && st.blocks[b] == [] && b !in Own(st)
  }

  lemma SwitchStart(st: Builder, s: Stmt)
    requires Sane(st) && s.Switch? && s.cond.lowers.Value?
    ensures var n, st1, k := |st.blocks|, SwitchEntry(st, s), CountCases(s.body);
            var st0 := AddBlocks(PutExpr(st, s.cond), 2 + k);
            var sw := SwitchBr(s.width, Dedup(CollectCases(s.body, n + 2, s.width), {}), n + 1);
            && Sane(st0) && Pos(st0, []) == Pos(PutExpr(st, s.cond), []) && Put(st0, sw).blocks == st1.blocks
            && Sane(st1) && |st1.blocks| == n + 2 + k
            && st1.breaks == st.breaks + [n] && st1.continues == st.continues && st1.isVoid == st.isVoid
            && (forall c :: n <= c < n + 2 + k ==> st1.blocks[c] == [] && c !in Own(st1))
  {
  }

  ghost function Span(lo: nat, hi: nat): (s: set<nat>)
    ensures forall b :: b in s <==> lo <= b < hi
    decreases hi - lo
  {
    if lo < hi then {lo} + Span(lo + 1, hi) else {}
  }

  /** The states of a switch around its body. */
  lemma SwitchShape(p: Program, st: Builder, s: Stmt)
    requires Sane(st) && s.Switch? && s.cond.lowers.Value?
    requires Holds(p, Lower(st, s).st.blocks)
    ensures var n, st1, fin := |st.blocks|, SwitchEntry(st, s), Lower(st, s).st;
            var st2 := LowerBody(st1, s.body, n + 2, n + 1);
            var dflt := At(BranchIfOpen(st2, n), n + 1);
            && LabelsReady(st1, s.body, n + 2, n + 1)
            && Sane(st2) && Holds(p, st1.blocks) && Holds(p, st2.blocks) && Holds(p, BranchIfOpen(st2, n).blocks)
            && fin.cur == n && Here(fin) == []
            && (!HasDefault(s.body) ==> Sane(dflt) && Here(dflt) == [] && Holds(p, Put(dflt, Br(n)).blocks))
  {
    hide Keeps, Holds, Sane, Own, SwitchEntry, SwitchClose, Lower, LowerBody, BranchIfOpen;
    var n, st1, k := |st.blocks|, SwitchEntry(st, s), CountCases(s.body);
    var st2 := LowerBody(st1, s.body, n + 2, n + 1);
    SwitchStart(st, s);
    LowerIsSwitch(st, s);
    LabelBlocksBound(s.body, n + 2, n + 1);
    assert LabelsReady(st1, s.body, n + 2, n + 1);
    assert st1.blocks[n] == [];
    var own := Own(st1) + Span(n + 1, n + 2 + k);
    KeepsSelf(st1);
    KeepsMore(st1.blocks, Own(st1), own, st1);
    BodyKeeps(st1.blocks, own, st1, s.body, n + 2, n + 1);
    KeepsSize(st1.blocks, own, st2);
    SwitchCloseKeeps(st1.blocks, own, st2, s.body, n);
    KeepsOut(st1.blocks, own, SwitchClose(st2, s.body, n), n);
    HoldsDown(p, st1.blocks, own, SwitchClose(st2, s.body, n));
    if !HasDefault(s.body) { NoDefaultShape(st1, s.body, n, k); }
    ClosedHolds(p, st2, s.body, n);
  }

  /** Without a default label nothing touches the default block before it is closed. */
  lemma NoDefaultShape(st: Builder, body: Stmts, n: nat, k: nat)
    requires Sane(st) && k == CountCases(body) && |st.blocks| == n + 2 + k && !HasDefault(body)
    requires st.blocks[n + 1] == [] && n + 1 !in Own(st)
    ensures var dflt := At(BranchIfOpen(LowerBody(st, body, n + 2, n + 1), n), n + 1);
            Sane(dflt) && Here(dflt) == [] && Open(dflt)
  {
    hide Keeps, Sane, Own, LowerBody, BranchIfOpen;
    var own := Own(st) + Span(n + 2, n + 2 + k);
    var st1 := LowerBody(st, body, n + 2, n + 1);
    KeepsSelf(st);
    KeepsMore(st.blocks, Own(st), own, st);
    BodyKeeps(st.blocks, own, st, body, n + 2, n + 1);
    BranchKeeps(st.blocks, own, st1, n);
    MoveTo(st.blocks, own, BranchIfOpen(st1, n), n + 1);
  }

  lemma LowerIsSwitch(st: Builder, s: Stmt)
    requires s.Switch? && s.cond.lowers.Value?
    ensures Lower(st, s).st == SwitchExit(LowerBody(SwitchEntry(st, s), s.body, |st.blocks| + 2, |st.blocks| + 1),
                                          s.body, |st.blocks|)
  {
  }

  /** Closing the blocks of a switch leaves what was emitted before in place. */
  lemma ClosedHolds(p: Program, st: Builder, body: Stmts, n: nat)
    requires Sane(st) && n + 2 + CountCases(body) <= |st.blocks| && Holds(p, SwitchClose(st, body, n).blocks)
    ensures Holds(p, st.blocks) && Holds(p, BranchIfOpen(st, n).blocks)
    ensures !HasDefault(body) && Open(At(BranchIfOpen(st, n), n + 1)) ==>
              Holds(p, Put(At(BranchIfOpen(st, n), n + 1), Br(n)).blocks)
  {
    hide Keeps, Holds, Own;
    LabelBlocksBound(body, n + 2, n + 1);
    var st1 := BranchIfOpen(st, n);
    var st2 := if HasDefault(body) then st1 else BranchIfOpen(At(st1, n + 1), n);
    var all := Span(0, |st.blocks|);
    KeepsSelf(st);
    BranchKeeps(st.blocks, Own(st), st, n);
    KeepsSelf(st1);
    KeepsAll(st1, all);
    AtKeeps(st1.blocks, all, st1, n + 1);
    BranchKeeps(st1.blocks, all, At(st1, n + 1), n);
    KeepsSelf(st2);
    KeepsAll(st2, all);
    CloseAllKeeps(st2.blocks, all, st2, LabelBlocks(body, n + 2, n + 1), n);
    HoldsDown(p, st2.blocks, all, SwitchClose(st, body, n));
    HoldsDown(p, st1.blocks, all, st2);
    HoldsDown(p, st.blocks, Own(st), st1);
  }

  lemma KeepsAll(st: Builder, all: set<nat>)
    requires Sane(st) && forall b :: 0 <= b < |st.blocks| ==> b in all
    ensures Keeps(st.blocks, all, st)
  {
  }

  lemma BodyHolds(p: Program, st: Builder, l: Stmts, next: nat, dflt: nat)
    requires Sane(st) && dflt < |st.blocks| && next + CountCases(l) <= |st.blocks|
    requires Holds(p, LowerBody(st, l, next, dflt).blocks)
    ensures Holds(p, st.blocks)
  {
    hide Holds;
    var all := Span(0, |st.blocks|);
    KeepsAll(st, all);
    BodyKeeps(st.blocks, all, st, l, next, dflt);
    HoldsDown(p, st.blocks, all, LowerBody(st, l, next, dflt));
  }
}
