/** Running the emitted blocks does what the statement means. */
module Simulation {
  import opened Arithmetic
  import opened CStatements
  import opened Options
  import opened BlockMachine
  import opened LowerSpec
  import opened LowerFacts
  import opened SwitchDispatch
  import opened Shapes

  /** From the insertion point at entry, the emitted blocks evaluate the same expressions in the same
      order as the statement and end where its outcome leads: at the insertion point at exit, at the
      innermost break or continue target, or in a return; and they run on as long as it does. */
  lemma {:induction false} Simulate(o: Oracle, p: Program, st: Builder, s: Stmt, h: History, fuel: nat) returns (n: nat)
    requires Sane(st) && Open(st) && Supported(s, st.breaks != [], st.continues != [], st.isVoid)
    requires Holds(p, Lower(st, s).st.blocks)
    ensures Arrives(o, p, Pos(st, h), n, Exec(o, st.isVoid, s, h, fuel), fuel, Lower(st, s).st, Top(st.breaks),
                    Top(st.continues))
    decreases fuel, s, 1
  {
    hide Holds, Keeps, Sane, Own, Arrives, Pos;
    match s {
      case Compound(l) => n := SimulateList(o, p, st, l, h, fuel);
      case If(_, _, _) => n := SimulateIf(o, p, st, s, h, fuel);
      case While(_, _) => n := SimulateWhile(o, p, st, s, h, fuel);
      case DoWhile(_, _) => n := SimulateWhile(o, p, st, s, h, fuel);
      case For(_, _, _, _) => n := SimulateFor(o, p, st, s, h, fuel);
      case Switch(_, _, _, _) => n := SimulateSwitch(o, p, st, s, h, fuel);
      case Return(_) => n := SimulateReturn(o, p, st, s, h, fuel);
      case _ => n := SimulateSimple(o, p, st, s, h, fuel);
    }
  }

  lemma SimulateSimple(o: Oracle, p: Program, st: Builder, s: Stmt, h: History, fuel: nat) returns (n: nat)
    requires s.Empty? || s.Eval? || s.Case? || s.Default? || s.Break? || s.Continue?
    requires Sane(st) && Open(st) && Supported(s, st.breaks != [], st.continues != [], st.isVoid)
    requires Holds(p, Lower(st, s).st.blocks)
    ensures Arrives(o, p, Pos(st, h), n, Exec(o, st.isVoid, s, h, fuel), fuel, Lower(st, s).st, Top(st.breaks),
                    Top(st.continues))
  {
    hide Holds, Code, Terminated;
    n := 0;
    match s {
      case Eval(e) =>
        RunExpr(o, p, st, e, h);
        ExprOpen(st, e);
        n := 1;
      case Break =>
        RunInstr(o, p, st, Br(Top(st.breaks)), h);
        n := 1;
      case Continue =>
        RunInstr(o, p, st, Br(Top(st.continues)), h);
        n := 1;
      case _ =>
    }
  }

  lemma SimulateReturn(o: Oracle, p: Program, st: Builder, s: Stmt, h: History, fuel: nat) returns (n: nat)
    requires s.Return? && Sane(st) && Open(st) && Supported(s, st.breaks != [], st.continues != [], st.isVoid)
    requires Holds(p, Lower(st, s).st.blocks)
    ensures Arrives(o, p, Pos(st, h), n, Exec(o, st.isVoid, s, h, fuel), fuel, Lower(st, s).st, Top(st.breaks),
                    Top(st.continues))
  {
    hide Holds, Sane;
    if s.result.None? {
      RunInstr(o, p, st, Ret(if st.isVoid then Nothing else Zero), h);
      n := 1;
    } else {
      RunExprThen(o, p, st, s.result.value, Ret(if st.isVoid then Nothing else LastValue), h);
      n := 2;
    }
  }

  lemma {:induction false} SimulateList(o: Oracle, p: Program, st: Builder, l: Stmts, h: History, fuel: nat)
    returns (n: nat)
    requires Sane(st) && Open(st) && SupportedList(l, false, st.breaks != [], st.continues != [], st.isVoid)
    requires Holds(p, LowerList(st, l).blocks)
    ensures Arrives(o, p, Pos(st, h), n, ExecFrom(o, st.isVoid, l, 0, h, fuel), fuel, LowerList(st, l),
                    Top(st.breaks), Top(st.continues))
    decreases fuel, l, 0
  {
    hide Holds, Keeps, Sane, Own, Lower, Exec, Arrives, Supported, Open;
    if l.Nil? {
      n := 0;
      EmptyList(o, p, st, h, fuel);
    } else {
      var st1 := Lower(st, l.head).st;
      LowerSupported(st, l.head, st.breaks != [], st.continues != []);
      ListKeeps(st1, l.tail);
      HoldsDown(p, st1.blocks, Own(st1), LowerList(st1, l.tail));
      n := Simulate(o, p, st, l.head, h, fuel);
      var r := Exec(o, st.isVoid, l.head, h, fuel);
      if r.Done? && r.out.Normal? {
        OpenAfter(o, p, Pos(st, h), n, r.h, fuel, st1, Top(st.breaks), Top(st.continues));
        var m := SimulateList(o, p, st1, l.tail, r.h, fuel);
        Prepend(o, p, Pos(st, h), n, Pos(st1, r.h), m, ExecFrom(o, st.isVoid, l.tail, 0, r.h, fuel), fuel, fuel,
                LowerList(st, l), Top(st.breaks), Top(st.continues));
        n := n + m;
      } else {
        OtherExit(o, p, Pos(st, h), n, r, fuel, st1, LowerList(st, l), Top(st.breaks), Top(st.continues));
      }
    }
  }

  lemma EmptyList(o: Oracle, p: Program, st: Builder, h: History, fuel: nat)
    requires Open(st)
    ensures Arrives(o, p, Pos(st, h), 0, Done(Normal, h), fuel, st, Top(st.breaks), Top(st.continues))
  {
  }

  lemma {:induction false} SimulateIf(o: Oracle, p: Program, st: Builder, s: Stmt, h: History, fuel: nat)
    returns (n: nat)
    requires s.If? && Sane(st) && Open(st) && Supported(s, st.breaks != [], st.continues != [], st.isVoid)
    requires Holds(p, Lower(st, s).st.blocks)
    ensures Arrives(o, p, Pos(st, h), n, Exec(o, st.isVoid, s, h, fuel), fuel, Lower(st, s).st, Top(st.breaks),
                    Top(st.continues))
    decreases fuel, s, 0
  {
    hide Holds, Keeps, Sane, Own, Lower, IfEntry, BranchIfOpen, Arrives;
    var b, st1, fin := |st.blocks|, IfEntry(st, s.cond), Lower(st, s).st;
    IfShape(p, st, s, st.breaks != [], st.continues != []);
    var r1 := Lower(st1, s.thn);
    var st2 := At(BranchIfOpen(r1.st, b + 2), b + 1);
    RunIfTest(o, p, st, s.cond, h);
    var h1, thn := h + [s.cond.id], o(h, s.cond.id) != 0;
    var part, entry := if thn then s.thn else s.els, if thn then st1 else st2;
    n := Simulate(o, p, entry, part, h1, fuel);
    var r := Exec(o, st.isVoid, part, h1, fuel);
    n := ThenBranch(o, p, Pos(entry, h1), n, r, fuel, Lower(entry, part).st, b + 2, fin, Top(st.breaks),
                    Top(st.continues));
    Prepend(o, p, Pos(st, h), 2, Pos(entry, h1), n, r, fuel, fuel, fin, Top(st.breaks), Top(st.continues));
    n := n + 2;
  }

  lemma RunIfTest(o: Oracle, p: Program, st: Builder, cond: Expr, h: History)
    requires Sane(st) && cond.lowers.Value? && Holds(p, IfEntry(st, cond).blocks)
    ensures Steps(o, p, Pos(st, h), 2) ==
            Running(if o(h, cond.id) != 0 then |st.blocks| else |st.blocks| + 1, 0, h + [cond.id])
  {
    RunExprAddThen(o, p, st, cond, 3, CondBr(|st.blocks|, |st.blocks| + 1), h);
  }

  /** An expression, some new blocks, and an instruction that uses the expression's value. */
  lemma RunExprAddThen(o: Oracle, p: Program, st: Builder, e: Expr, k: nat, i: Instr, h: History)
    requires Sane(st) && !e.lowers.Failure? && (i.CondBr? || i.SwitchBr?)
    requires Holds(p, Put(AddBlocks(PutExpr(st, e), k), i).blocks)
    ensures i.CondBr? ==> Steps(o, p, Pos(st, h), 2) == Running(if o(h, e.id) != 0 then i.thn else i.els, 0, h + [e.id])
    ensures i.SwitchBr? ==>
              Steps(o, p, Pos(st, h), 2) ==
              Running(Select(i.cases, Pattern(o(h, e.id), i.width), i.dflt), 0, h + [e.id])
  {
    hide Holds, Keeps, Own;
    var st1 := PutExpr(st, e);
    var st2 := AddBlocks(st1, k);
    KeepsSelf(st1);
    AddBlocksKeeps(st1.blocks, Own(st1), st1, k);
    RunInstr(o, p, st2, i, h + [e.id]);
    HoldsDown(p, st1.blocks, Own(st1), st2);
    RunExpr(o, p, st, e, h);
    LastValueAfter(o, h, e.id);
    StepsAdd(o, p, Pos(st, h), 1, 1);
  }

  /** One pass through the body of a loop and what follows it. */
  ghost function Turn(o: Oracle, isVoid: bool, l: Loop, h: History, fuel: nat): Run {
    Resume(o, isVoid, Exec(o, isVoid, l.body, h, fuel), l.test, l.incr, l.body, fuel)
  }

  lemma RunStep(o: Oracle, p: Program, l: Loop, h: History) returns (n: nat)
    requires Built(p, l)
    ensures Steps(o, p, Running(l.stepSt.cur, 0, h), n) == Running(l.testSt.cur, 0, Evaluated(l.incr, h))
  {
    if l.stepSt.cur == l.testSt.cur && l.incr.None? {
      n := 0;
    } else if l.incr.Some? {
      ExprOpen(l.stepSt, l.incr.value);
      RunExprThen(o, p, l.stepSt, l.incr.value, Br(l.testSt.cur), h);
      n := 2;
    } else {
      RunInstr(o, p, l.stepSt, Br(l.testSt.cur), h);
      n := 1;
    }
  }

  lemma {:induction false} SimulateTurn(o: Oracle, p: Program, l: Loop, h: History, fuel: nat, brk: nat, cont: nat)
    returns (n: nat)
    requires Built(p, l)
    ensures Arrives(o, p, Running(l.bodySt.cur, 0, h), n, Turn(o, l.bodySt.isVoid, l, h, fuel), fuel, l.exit, brk, cont)
    decreases fuel, l.body, 3
  {
    hide Holds, Keeps, Sane, Own, Lower, BranchIfOpen, Supported;
    var c, v, sb := Running(l.bodySt.cur, 0, h), l.bodySt.isVoid, l.stepSt.cur;
    TurnHolds(p, l);
    n := Simulate(o, p, l.bodySt, l.body, h, fuel);
    var r := Exec(o, v, l.body, h, fuel);
    n := ThenBranch(o, p, c, n, r, fuel, Lower(l.bodySt, l.body).st, sb, l.stepSt, l.exit.cur, sb);
    if r.Done? && (r.out.Normal? || r.out.Continued?) {
      var h1 := Evaluated(l.incr, r.h);
      var m := RunStep(o, p, l, r.h);
      StepsAdd(o, p, c, n, m);
      var k := SimulateLoop(o, p, l, h1, fuel, brk, cont);
      Prepend(o, p, c, n + m, Running(l.testSt.cur, 0, h1), k, Iterate(o, v, l.test, l.incr, l.body, h1, fuel),
              fuel, fuel, l.exit, brk, cont);
      n := n + m + k;
    }
  }

  lemma TurnHolds(p: Program, l: Loop)
    requires Built(p, l)
    ensures Holds(p, Lower(l.bodySt, l.body).st.blocks)
  {
    hide Keeps, Own;
    var st, t := Lower(l.bodySt, l.body).st, l.stepSt.cur;
    KeepsSelf(st);
    BranchKeeps(st.blocks, Own(st), st, t);
    HoldsDown(p, st.blocks, Own(st), BranchIfOpen(st, t));
  }

  lemma {:induction false} SimulateLoop(o: Oracle, p: Program, l: Loop, h: History, fuel: nat, brk: nat, cont: nat)
    returns (n: nat)
    requires Built(p, l)
    ensures Arrives(o, p, Running(l.testSt.cur, 0, h), n, Iterate(o, l.bodySt.isVoid, l.test, l.incr, l.body, h, fuel),
                    fuel, l.exit, brk, cont)
    decreases fuel, l.body, 2
  {
    hide Holds, Keeps, Sane, Own, Lower, PutTest, Supported;
    n := 0;
    if fuel > 0 {
      n := RunTest(o, p, l.testSt, l.test, l.bodySt.cur, l.exit.cur, h);
      if !(l.test.Some? && o(h, l.test.value.id) == 0) {
        var h1 := Evaluated(l.test, h);
        var m := SimulateTurn(o, p, l, h1, fuel - 1, brk, cont);
        Prepend(o, p, Running(l.testSt.cur, 0, h), n, Running(l.bodySt.cur, 0, h1), m,
                Turn(o, l.bodySt.isVoid, l, h1, fuel - 1), fuel, fuel - 1, l.exit, brk, cont);
        n := n + m;
      }
    }
  }

  lemma {:induction false} SimulateWhile(o: Oracle, p: Program, st: Builder, s: Stmt, h: History, fuel: nat)
    returns (n: nat)
    requires s.While? || s.DoWhile?
    requires Sane(st) && Open(st) && Supported(s, st.breaks != [], st.continues != [], st.isVoid)
    requires Holds(p, Lower(st, s).st.blocks)
    ensures Arrives(o, p, Pos(st, h), n, Exec(o, st.isVoid, s, h, fuel), fuel, Lower(st, s).st, Top(st.breaks),
                    Top(st.continues))
    decreases fuel, s, 0
  {
    hide Holds, Keeps, Sane, Own, Lower, Built, LoopTest;
    var b, brk, cont := |st.blocks|, Top(st.breaks), Top(st.continues);
    var l := WhileShape(p, st, s);
    var first := if s.DoWhile? then b + 1 else b;
    EnterLoop(o, p, st, 3, b + 2, b, first, h);
    if s.DoWhile? {
      n := SimulateTurn(o, p, l, h, fuel, brk, cont);
    } else {
      n := SimulateLoop(o, p, l, h, fuel, brk, cont);
    }
    Prepend(o, p, Pos(st, h), 1, Running(first, 0, h), n, Exec(o, st.isVoid, s, h, fuel), fuel, fuel, l.exit, brk,
            cont);
    n := n + 1;
  }

  lemma EnterLoop(o: Oracle, p: Program, st: Builder, k: nat, brk: nat, cont: nat, first: nat, h: History)
    requires Sane(st) && k > 0 && Holds(p, LoopTest(st, k, brk, cont, first).blocks)
    ensures Steps(o, p, Pos(st, h), 1) == Running(first, 0, h)
  {
    hide Holds, Sane;
    LoopStart(st, k, brk, cont, first);
    RunInstr(o, p, PushTargets(AddBlocks(st, k), brk, cont), Br(first), h);
  }

  lemma {:induction false} SimulateFor(o: Oracle, p: Program, st: Builder, s: Stmt, h: History, fuel: nat)
    returns (n: nat)
    requires s.For?
    requires Sane(st) && Open(st) && Supported(s, st.breaks != [], st.continues != [], st.isVoid)
    requires Holds(p, Lower(st, s).st.blocks)
    ensures Arrives(o, p, Pos(st, h), n, Exec(o, st.isVoid, s, h, fuel), fuel, Lower(st, s).st, Top(st.breaks),
                    Top(st.continues))
    decreases fuel, s, 0
  {
    hide Holds, Keeps, Sane, Own, Lower, Built, LoopTest, Exec, Arrives, Iterate, Supported;
    ForMeaning(o, st.isVoid, s, h, fuel);
    ForSupported(s, st.breaks != [], st.continues != [], st.isVoid);
    var brk, cont, st1 := Top(st.breaks), Top(st.continues), Lower(st, s.init).st;
    LowerSupported(st, s.init, st.breaks != [], st.continues != []);
    var l := ForShape(p, st, s);
    InitHolds(p, st1, l);
    n := Simulate(o, p, st, s.init, h, fuel);
    var r := Exec(o, st.isVoid, s.init, h, fuel);
    if r.Done? && r.out.Normal? {
      OpenAfter(o, p, Pos(st, h), n, r.h, fuel, st1, brk, cont);
      var b := |st1.blocks|;
      EnterLoop(o, p, st1, 4, b + 3, b + 1, b, r.h);
      StepsAdd(o, p, Pos(st, h), n, 1);
      var m := SimulateLoop(o, p, l, r.h, fuel, brk, cont);
      Prepend(o, p, Pos(st, h), n + 1, Running(b, 0, r.h), m,
              Iterate(o, st.isVoid, s.test, s.incr, s.loopBody, r.h, fuel), fuel, fuel, l.exit, brk, cont);
      n := n + 1 + m;
    } else {
      OtherExit(o, p, Pos(st, h), n, r, fuel, st1, Lower(st, s).st, brk, cont);
    }
  }

  lemma ForMeaning(o: Oracle, isVoid: bool, s: Stmt, h: History, fuel: nat)
    requires s.For?
    ensures Exec(o, isVoid, s, h, fuel) ==
            match Exec(o, isVoid, s.init, h, fuel)
            case Done(Normal, h1) => Iterate(o, isVoid, s.test, s.incr, s.loopBody, h1, fuel)
            case r => r
  {
  }

  lemma ForSupported(s: Stmt, brk: bool, cont: bool, isVoid: bool)
    requires s.For? && Supported(s, brk, cont, isVoid)
    ensures Supported(s.init, brk, cont, isVoid) && Supported(s.loopBody, true, true, isVoid)
    ensures IsValue(s.test) && (s.incr.Some? ==> !s.incr.value.lowers.Failure?)
  {
  }

  lemma InitHolds(p: Program, st: Builder, l: Loop)
    requires Sane(st) && l.testSt == LoopTest(st, 4, |st.blocks| + 3, |st.blocks| + 1, |st.blocks|)
             && Holds(p, l.testSt.blocks)
    ensures Holds(p, st.blocks)
  {
    hide Keeps, Own, Sane, Holds;
    var n := |st.blocks|;
    KeepsSelf(st);
    AddBlocksKeeps(st.blocks, Own(st), st, 4);
    var st1 := PushTargets(AddBlocks(st, 4), n + 3, n + 1);
    StacksKeep(st.blocks, Own(st), AddBlocks(st, 4), st1.breaks, st1.continues);
    PutKeeps(st.blocks, Own(st), st1, Br(n));
    AtKeeps(st.blocks, Own(st), Put(st1, Br(n)), n);
    HoldsDown(p, st.blocks, Own(st), l.testSt);
  }

  lemma {:induction false} SimulateSwitch(o: Oracle, p: Program, st: Builder, s: Stmt, h: History, fuel: nat)
    returns (n: nat)
    requires s.Switch?
    requires Sane(st) && Open(st) && Supported(s, st.breaks != [], st.continues != [], st.isVoid)
    requires Holds(p, Lower(st, s).st.blocks)
    ensures Arrives(o, p, Pos(st, h), n, Exec(o, st.isVoid, s, h, fuel), fuel, Lower(st, s).st, Top(st.breaks),
                    Top(st.continues))
    decreases fuel, s, 0
  {
    hide Holds, Sane, Own, Lower, SwitchEntry, LowerBody, BranchIfOpen, LabelsReady, LabelsFit, Wrap, Arrives, Entry,
         Exec, ExecFrom, Supported, EntryBlock, CountCases, HasDefault, SupportedList, OneDefault, Steps;
    var b, st1, fin := |st.blocks|, SwitchEntry(st, s), Lower(st, s).st;
    var st2 := LowerBody(st1, s.body, b + 2, b + 1);
    var x, h1, cont := Wrap(o(h, s.cond.id), s.width, s.signed), h + [s.cond.id], Top(st.continues);
    var k := Entry(s.body, x, s.width, s.signed);
    SwitchSupported(s, st.breaks != [], st.continues != [], st.isVoid);
    EntryIsLabel(s.body, x, s.width, s.signed);
    SwitchRun(o, st.isVoid, s, st.breaks != [], st.continues != [], h, fuel);
    if k.None? {
      n := SwitchNone(o, p, st, s, h, fuel);
    } else {
      SwitchReady(p, st, s);
      var e := EntryBlock(s.body, k.value, b + 2, b + 1);
      n := SimulateBody(o, p, st1, s.body, b + 2, b + 1, k, h1, fuel);
      var r := ExecFrom(o, st.isVoid, s.body, k.value, h1, fuel);
      n := ThenBranch(o, p, Running(e, 0, h1), n, r, fuel, st2, b, fin, b, cont);
      RunSwitch(o, p, st, s, h);
      Prepend(o, p, Pos(st, h), 2, Running(e, 0, h1), n, r, fuel, fuel, fin, b, cont);
      n := n + 2;
      SwitchLeft(o, p, Pos(st, h), n, r, fuel, fin, Top(st.breaks), cont);
    }
  }

  /** The parts of a switch in place, as far as its body and its end need them. */
  lemma SwitchReady(p: Program, st: Builder, s: Stmt)
    requires Sane(st) && s.Switch? && s.cond.lowers.Value? && Holds(p, Lower(st, s).st.blocks)
    ensures var b, st1, fin := |st.blocks|, SwitchEntry(st, s), Lower(st, s).st;
            var st2 := LowerBody(st1, s.body, b + 2, b + 1);
            && Sane(st1) && b + 2 + CountCases(s.body) <= |st1.blocks| && LabelsReady(st1, s.body, b + 2, b + 1)
            && st1.breaks != [] && Top(st1.breaks) == b && st1.continues == st.continues && st1.isVoid == st.isVoid
            && Holds(p, st1.blocks) && Sane(st2) && Holds(p, st2.blocks) && Holds(p, BranchIfOpen(st2, b).blocks)
            && fin.cur == b && Here(fin) == []
  {
    hide Holds, Sane, Own, Lower, SwitchEntry, LowerBody, BranchIfOpen, LabelsReady, HasDefault;
    SwitchStart(st, s);
    SwitchShape(p, st, s);
  }

  /** No label: the switch goes to the default block and from there to the end. */
  lemma SwitchNone(o: Oracle, p: Program, st: Builder, s: Stmt, h: History, fuel: nat) returns (n: nat)
    requires s.Switch? && Sane(st) && s.cond.lowers.Value? && LabelsFit(s.body, s.width, s.signed)
    requires Entry(s.body, Wrap(o(h, s.cond.id), s.width, s.signed), s.width, s.signed).None? && !HasDefault(s.body)
    requires Holds(p, Lower(st, s).st.blocks)
    ensures Arrives(o, p, Pos(st, h), n, Done(Normal, h + [s.cond.id]), fuel, Lower(st, s).st, Top(st.breaks),
                    Top(st.continues))
  {
    hide Holds, Sane, Own, Lower, SwitchEntry, LowerBody, BranchIfOpen, LabelsReady, LabelsFit, Wrap, Arrives, Entry,
         Steps;
    var b, h1 := |st.blocks|, h + [s.cond.id];
    var dflt := At(BranchIfOpen(LowerBody(SwitchEntry(st, s), s.body, b + 2, b + 1), b), b + 1);
    SwitchShape(p, st, s);
    RunSwitch(o, p, st, s, h);
    RunInstr(o, p, dflt, Br(b), h1);
    StepsAdd(o, p, Pos(st, h), 2, 1);
    n := 3;
    SwitchSkipped(o, p, Pos(st, h), n, h1, fuel, Lower(st, s).st, Top(st.breaks), Top(st.continues));
  }

  lemma SwitchSupported(s: Stmt, brk: bool, cont: bool, isVoid: bool)
    requires s.Switch? && Supported(s, brk, cont, isVoid)
    ensures s.cond.lowers.Value? && LabelsFit(s.body, s.width, s.signed)
    ensures OneDefault(s.body) && SupportedList(s.body, true, true, cont, isVoid)
  {
    hide LabelsFit;
  }

  lemma SwitchSkipped(o: Oracle, p: Program, c: Config, n: nat, h: History, fuel: nat, exit: Builder, brk: nat,
                      cont: nat)
    requires Steps(o, p, c, n) == Running(exit.cur, 0, h) && Here(exit) == []
    ensures Arrives(o, p, c, n, Done(Normal, h), fuel, exit, brk, cont)
  {
  }

  /** A break inside a switch ends the switch normally. */
  lemma SwitchLeft(o: Oracle, p: Program, c: Config, n: nat, r: Run, fuel: nat, exit: Builder, brk: nat, cont: nat)
    requires Arrives(o, p, c, n, r, fuel, exit, exit.cur, cont) && Here(exit) == []
    ensures Arrives(o, p, c, n, match r case Done(Broke, h) => Done(Normal, h) case _ => r, fuel, exit, brk, cont)
  {
  }

  /** The switch instruction takes the machine to the block of the label C selects. */
  lemma RunSwitch(o: Oracle, p: Program, st: Builder, s: Stmt, h: History)
    requires s.Switch? && Sane(st) && s.cond.lowers.Value? && LabelsFit(s.body, s.width, s.signed)
    requires Holds(p, SwitchEntry(st, s).blocks)
    ensures var b, x := |st.blocks|, Wrap(o(h, s.cond.id), s.width, s.signed);
            var target := match Entry(s.body, x, s.width, s.signed)
                          case None => b + 1
                          case Some(k) => EntryBlock(s.body, k, b + 2, b + 1);
            Steps(o, p, Pos(st, h), 2) == Running(target, 0, h + [s.cond.id])
  {
    hide Holds, LabelsFit, Entry, EntryBlock, CollectCases, Dedup, Select, Wrap, Pattern, InWindow, CountCases, Sane;
    var b, v := |st.blocks|, o(h, s.cond.id);
    var sw := SwitchBr(s.width, Dedup(CollectCases(s.body, b + 2, s.width), {}), b + 1);
    RunExprAddThen(o, p, st, s.cond, 2 + CountCases(s.body), sw, h);
    WrapMeaning(v, s.width, s.signed);
    Dispatch(s.body, b + 2, b + 1, s.width, s.signed, Wrap(v, s.width, s.signed));
  }

  /** In a supported switch body no child has a label inside it. */
  lemma {:induction false} NoTargetInside(s: Stmt, brk: bool, cont: bool, isVoid: bool, t: Target)
    requires Supported(s, brk, cont, isVoid)
    ensures !HasTarget(s, t)
    decreases s, 1
  {
    match s
    case Compound(l) => NoTargetInList(l, brk, cont, isVoid, t);
    case If(_, thn, els) =>
      NoTargetInside(thn, brk, cont, isVoid, t);
      NoTargetInside(els, brk, cont, isVoid, t);
    case While(_, b) => NoTargetInside(b, true, true, isVoid, t);
    case DoWhile(b, _) => NoTargetInside(b, true, true, isVoid, t);
    case For(_, _, _, b) => NoTargetInside(b, true, true, isVoid, t);
    case _ =>
  }

  lemma {:induction false} NoTargetInList(l: Stmts, brk: bool, cont: bool, isVoid: bool, t: Target)
    requires SupportedList(l, false, brk, cont, isVoid)
    ensures !ListHasTarget(l, t)
    decreases l, 0
  {
    if l.Cons? {
      NoTargetInside(l.head, brk, cont, isVoid, t);
      NoTargetInList(l.tail, brk, cont, isVoid, t);
    }
  }

  lemma {:induction false} ReachedLabel(l: Stmts, brk: bool, cont: bool, isVoid: bool, t: Target)
    requires SupportedList(l, true, brk, cont, isVoid)
    ensures Reached(l, t).Some? ==> IsLabelAt(l, Reached(l, t).value)
  {
    if l.Cons? {
      if !l.head.Case? && !l.head.Default? { NoTargetInside(l.head, brk, cont, isVoid, t); }
      ReachedLabel(l.tail, brk, cont, isVoid, t);
    }
  }

  /** So the labels among the children say where it is entered. */
  lemma SwitchRun(o: Oracle, isVoid: bool, s: Stmt, brk: bool, cont: bool, h: History, fuel: nat)
    requires s.Switch? && Supported(s, brk, cont, isVoid)
    ensures Exec(o, isVoid, s, h, fuel) ==
            match Entry(s.body, Wrap(o(h, s.cond.id), s.width, s.signed), s.width, s.signed)
            case None => Done(Normal, h + [s.cond.id])
            case Some(k) =>
              match ExecFrom(o, isVoid, s.body, k, h + [s.cond.id], fuel)
              case Done(Broke, h2) => Done(Normal, h2)
              case r => r
  {
    hide Wrap;
    ReachedLabel(s.body, true, cont, isVoid,
                 Sought(s.body, Wrap(o(h, s.cond.id), s.width, s.signed), s.width, s.signed));
    SwitchAtLabel(o, isVoid, s.cond, s.width, s.signed, s.body, h, fuel);
  }

  /** The children of a switch body, entered at the top (from None) or at the label at position k. */
  lemma {:induction false} SimulateBody(o: Oracle, p: Program, st: Builder, l: Stmts, next: nat, dflt: nat,
                                        from: Option<nat>, h: History, fuel: nat) returns (n: nat)
    requires Sane(st) && SupportedList(l, true, st.breaks != [], st.continues != [], st.isVoid) && OneDefault(l)
    requires dflt < next && next + CountCases(l) <= |st.blocks| && LabelsReady(st, l, next, dflt)
    requires match from case None => Open(st) case Some(k) => IsLabelAt(l, k)
    requires Holds(p, LowerBody(st, l, next, dflt).blocks)
    ensures var c := match from case None => Pos(st, h) case Some(k) => Running(EntryBlock(l, k, next, dflt), 0, h);
            var k := match from case None => 0 case Some(k) => k;
            Arrives(o, p, c, n, ExecFrom(o, st.isVoid, l, k, h, fuel), fuel, LowerBody(st, l, next, dflt),
                    Top(st.breaks), Top(st.continues))
    decreases fuel, l, 0
  {
    hide Holds, Keeps, Sane, Own, Lower, LabelsReady, BranchIfOpen, Arrives, Supported, Exec, Open, CountCases,
         HasDefault;
    ExecPast(o, st.isVoid, l, h, fuel);
    if l.Nil? {
      n := 0;
      BodyEnd(o, p, st, next, dflt, h, fuel);
    } else if l.head.Case? || l.head.Default? {
      var b := if l.head.Case? then next else dflt;
      var next' := if l.head.Case? then next + 1 else next;
      var st1, exit := At(BranchIfOpen(st, b), b), LowerBody(st, l, next, dflt);
      LabelStep(st, l, next, dflt);
      var from' := if from.None? || from.value == 0 then None else Some(from.value - 1);
      n := SimulateBody(o, p, st1, l.tail, next', dflt, from', h, fuel);
      if from == None {
        BodyHolds(p, st1, l.tail, next', dflt);
        RunFallThrough(o, p, st, b, h);
        Prepend(o, p, Pos(st, h), 1, Running(b, 0, h), n, ExecFrom(o, st.isVoid, l.tail, 0, h, fuel), fuel, fuel,
                exit, Top(st.breaks), Top(st.continues));
        n := n + 1;
      }
    } else {
      var st1, exit := Lower(st, l.head).st, LowerBody(st, l, next, dflt);
      StatementStep(st, l, next, dflt);
      if from == None {
        BodyHolds(p, st1, l.tail, next, dflt);
        n := Simulate(o, p, st, l.head, h, fuel);
        var r := Exec(o, st.isVoid, l.head, h, fuel);
        if r.Done? && r.out.Normal? {
          OpenAfter(o, p, Pos(st, h), n, r.h, fuel, st1, Top(st.breaks), Top(st.continues));
          var m := SimulateBody(o, p, st1, l.tail, next, dflt, None, r.h, fuel);
          Prepend(o, p, Pos(st, h), n, Pos(st1, r.h), m, ExecFrom(o, st.isVoid, l.tail, 0, r.h, fuel), fuel, fuel,
                  exit, Top(st.breaks), Top(st.continues));
          n := n + m;
        } else {
          OtherExit(o, p, Pos(st, h), n, r, fuel, st1, exit, Top(st.breaks), Top(st.continues));
        }
      } else {
        n := SimulateBody(o, p, st1, l.tail, next, dflt, Some(from.value - 1), h, fuel);
      }
    }
  }

  /** A label by itself does nothing. */
  lemma ExecPast(o: Oracle, isVoid: bool, l: Stmts, h: History, fuel: nat)
    ensures l.Cons? && (l.head.Case? || l.head.Default?) ==>
              ExecFrom(o, isVoid, l, 0, h, fuel) == ExecFrom(o, isVoid, l.tail, 0, h, fuel)
  {
  }

  lemma BodyEnd(o: Oracle, p: Program, st: Builder, next: nat, dflt: nat, h: History, fuel: nat)
    requires Open(st)
    ensures Arrives(o, p, Pos(st, h), 0, Done(Normal, h), fuel, LowerBody(st, Nil, next, dflt), Top(st.breaks),
                    Top(st.continues))
  {
  }

  lemma OpenAfter(o: Oracle, p: Program, c: Config, n: nat, h: History, fuel: nat, exit: Builder, brk: nat, cont: nat)
    requires Arrives(o, p, c, n, Done(Normal, h), fuel, exit, brk, cont)
    ensures Open(exit) && Steps(o, p, c, n) == Pos(exit, h)
  {
  }

  /** Where control goes after anything but a normal completion does not depend on the exit. */
  lemma OtherExit(o: Oracle, p: Program, c: Config, n: nat, r: Run, fuel: nat, exit: Builder, exit': Builder,
                  brk: nat, cont: nat)
    requires Arrives(o, p, c, n, r, fuel, exit, brk, cont) && !(r.Done? && r.out.Normal?)
    ensures Arrives(o, p, c, n, r, fuel, exit', brk, cont)
  {
  }

  lemma RunFallThrough(o: Oracle, p: Program, st: Builder, b: nat, h: History)
    requires Sane(st) && Open(st) && Holds(p, BranchIfOpen(st, b).blocks)
    ensures Steps(o, p, Pos(st, h), 1) == Running(b, 0, h)
  {
    RunInstr(o, p, st, Br(b), h);
  }

  /** Falling through into, or jumping to, the label at the head of what is left of a body. */
  lemma LabelStep(st: Builder, l: Stmts, next: nat, dflt: nat)
    requires Sane(st) && l.Cons? && (l.head.Case? || l.head.Default?) && OneDefault(l)
    requires dflt < next && next + CountCases(l) <= |st.blocks| && LabelsReady(st, l, next, dflt)
    ensures var b := if l.head.Case? then next else dflt;
            var st1 := At(BranchIfOpen(st, b), b);
            && Sane(st1) && Here(st1) == [] && Open(st1) && |st1.blocks| == |st.blocks|
            && (if l.head.Case? then next + 1 else next) + CountCases(l.tail) <= |st1.blocks|
            && st1.breaks == st.breaks && st1.continues == st.continues && st1.isVoid == st.isVoid
            && LabelsReady(st1, l.tail, if l.head.Case? then next + 1 else next, dflt)
  {
    hide Keeps, Sane, Own;
    var b := if l.head.Case? then next else dflt;
    var next' := if l.head.Case? then next + 1 else next;
    var st1 := BranchIfOpen(st, b);
    KeepsSelf(st);
    BranchKeeps(st.blocks, Own(st), st, b);
    assert b in LabelBlocks(l, next, dflt);
    MoveTo(st.blocks, Own(st), st1, b);
    TailLabels(l.tail, next', dflt);
    forall c | c in LabelBlocks(l.tail, next', dflt)
      ensures c < |st1.blocks| && At(st1, b).blocks[c] == [] && c !in Own(At(st1, b))
    {
      assert c in LabelBlocks(l, next, dflt);
      assert st.blocks[c] == [];
    }
  }

  lemma {:induction false} TailLabels(l: Stmts, next: nat, dflt: nat)
    ensures forall c :: c in LabelBlocks(l, next, dflt) ==>
              next <= c < next + CountCases(l) || (c == dflt && HasDefault(l))
  {
    if l.Cons? { TailLabels(l.tail, if l.head.Case? then next + 1 else next, dflt); }
  }

  lemma StatementStep(st: Builder, l: Stmts, next: nat, dflt: nat)
    requires Sane(st) && l.Cons? && !l.head.Case? && !l.head.Default?
    requires SupportedList(l, true, st.breaks != [], st.continues != [], st.isVoid)
    requires next + CountCases(l) <= |st.blocks| && LabelsReady(st, l, next, dflt)
    ensures var st1 := Lower(st, l.head).st;
            && Sane(st1) && |st.blocks| <= |st1.blocks| && next + CountCases(l.tail) <= |st1.blocks|
            && st1.breaks == st.breaks && st1.continues == st.continues && st1.isVoid == st.isVoid
            && LabelsReady(st1, l.tail, next, dflt)
  {
    hide Keeps, Sane, Own;
    var st1 := Lower(st, l.head).st;
    LowerSupported(st, l.head, st.breaks != [], st.continues != []);
    KeepsSize(st.blocks, Own(st), st1);
    forall c | c in LabelBlocks(l.tail, next, dflt)
      ensures c < |st1.blocks| && st1.blocks[c] == [] && c !in Own(st1)
    {
      assert c in LabelBlocks(l, next, dflt);
      KeepsOut(st.blocks, Own(st), st1, c);
    }
  }
}
