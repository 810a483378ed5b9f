/** The stacks of break and continue targets, over every lowering, failing ones included. */
module BranchTargets {
  import opened CStatements
  import opened Options
  import opened LowerSpec

  /** Whether lowering s succeeds; it fails only through an expression. */
  function Succeeds(s: Stmt, isVoid: bool): bool {
    match s
    case Eval(e) => !e.lowers.Failure?
    case If(c, thn, els) => c.lowers.Value? && Succeeds(thn, isVoid) && Succeeds(els, isVoid)
    case While(t, _) => TestSucceeds(t)
    case DoWhile(_, t) => TestSucceeds(t)
    case For(i, t, n, _) => Succeeds(i, isVoid) && TestSucceeds(t) && TestSucceeds(n)
    case Switch(c, _, _, _) => c.lowers.Value?
    case Return(Some(e)) => isVoid || !e.lowers.Failure?
    case Labeled(_, inner) => Succeeds(inner, isVoid)
    case _ => true
  }

  predicate TestSucceeds(t: Option<Expr>) { t.Some? ==> !t.value.lowers.Failure? }

  /** How many loops that lowering reaches fail in their test or increment. */
  function Leaks(s: Stmt, isVoid: bool): nat {
    match s
    case Compound(l) => ListLeaks(l, isVoid)
    case If(c, thn, els) =>
      if !c.lowers.Value? then 0
      else Leaks(thn, isVoid) + if Succeeds(thn, isVoid) then Leaks(els, isVoid) else 0
    case While(t, b) => if TestSucceeds(t) then Leaks(b, isVoid) else 1
    case DoWhile(b, t) => if TestSucceeds(t) then Leaks(b, isVoid) else 1
    case For(i, t, n, b) =>
      Leaks(i, isVoid) +
      if !Succeeds(i, isVoid) then 0
      else if !TestSucceeds(t) then 1
      else Leaks(b, isVoid) + if TestSucceeds(n) then 0 else 1
    case Switch(c, _, _, l) => if c.lowers.Value? then ListLeaks(l, isVoid) else 0
    case Labeled(_, inner) => Leaks(inner, isVoid)
    case _ => 0
  }

  function ListLeaks(l: Stmts, isVoid: bool): nat {
    match l
    case Nil => 0
    case Cons(s, t) => Leaks(s, isVoid) + ListLeaks(t, isVoid)
  }

  /** The stacks of r are those of st with j break and k continue targets more on top. */
  ghost predicate Deeper(st: Builder, r: Builder, j: nat, k: nat) {
    && |r.breaks| == |st.breaks| + j && r.breaks[..|st.breaks|] == st.breaks
    && |r.continues| == |st.continues| + k && r.continues[..|st.continues|] == st.continues
    && r.isVoid == st.isVoid
  }

  lemma DeeperTrans(a: Builder, b: Builder, c: Builder, j: nat, k: nat, j': nat, k': nat)
    requires Deeper(a, b, j, k) && Deeper(b, c, j', k')
    ensures Deeper(a, c, j + j', k + k')
  {
    assert c.breaks[..|a.breaks|] == c.breaks[..|b.breaks|][..|a.breaks|];
    assert c.continues[..|a.continues|] == c.continues[..|b.continues|][..|a.continues|];
  }

  lemma SameStacks(a: Builder, b: Builder, c: Builder, j: nat, k: nat)
    requires Deeper(a, b, j, k)
    requires c.breaks == b.breaks && c.continues == b.continues && c.isVoid == b.isVoid
    ensures Deeper(a, c, j, k)
  {
  }

  lemma DeeperPop(st: Builder, r: Builder, j: nat, k: nat)
    requires Deeper(st, r, j + 1, k)
    ensures Deeper(st, r.(breaks := Pop(r.breaks)), j, k)
    ensures k > 0 ==> Deeper(st, PopTargets(r), j, k - 1)
    ensures Deeper(st, r, j + 1, k)
  {
    assert Pop(r.breaks)[..|st.breaks|] == r.breaks[..|st.breaks|];
    if k > 0 { assert Pop(r.continues)[..|st.continues|] == r.continues[..|st.continues|]; }
  }

  lemma CloseAllStacks(st: Builder, bs: seq<nat>, end: nat)
    ensures var r := CloseAll(st, bs, end);
            r.breaks == st.breaks && r.continues == st.continues && r.isVoid == st.isVoid
    decreases bs
  {
    if bs != [] { CloseAllStacks(CloseOne(st, bs[0], end), bs[1..], end); }
  }

  lemma WhileStacks(st: Builder, s: Stmt)
    requires s.While? || s.DoWhile?
    ensures Deeper(st, WhileEntry(st, s).st, 1, 1) && WhileEntry(st, s).ok == TestSucceeds(s.test)
  {
  }

  lemma ForStacks(st: Builder, test: Option<Expr>)
    ensures Deeper(st, ForEntry(st, test).st, 1, 1) && ForEntry(st, test).ok == TestSucceeds(test)
  {
  }

  lemma SwitchStacks(st: Builder, s: Stmt)
    requires s.Switch?
    ensures Deeper(st, SwitchEntry(st, s), 1, 0)
  {
  }

  lemma IfStacks(st: Builder, cond: Expr)
    ensures Deeper(st, IfEntry(st, cond), 0, 0)
  {
  }

  lemma StepStacks(st: Builder, incr: Option<Expr>, n: nat)
    ensures var r := ForStep(st, incr, n);
            && r.ok == TestSucceeds(incr)
            && r.st.breaks == st.breaks && r.st.continues == st.continues && r.st.isVoid == st.isVoid
  {
  }

  lemma SelfStacks(st: Builder)
    ensures Deeper(st, st, 0, 0)
  {
  }

  /** Every loop that lowering reaches and cannot finish leaves exactly one entry on each stack;
      nothing else does, and no entry that was there before is lost. */
  lemma {:induction false} StackDiscipline(st: Builder, s: Stmt)
    ensures Lower(st, s).ok == Succeeds(s, st.isVoid)
    ensures Deeper(st, Lower(st, s).st, Leaks(s, st.isVoid), Leaks(s, st.isVoid))
    decreases s, 1
  {
    hide Deeper, Put, PutExpr, LabelEntry, LowerIf, LowerWhile, LowerFor, LowerSwitch;
    SelfStacks(st);
    match s {
      case Compound(l) => ListDiscipline(st, l);
      case If(_, _, _) => IfDiscipline(st, s);
      case While(_, _) => WhileDiscipline(st, s);
      case DoWhile(_, _) => WhileDiscipline(st, s);
      case For(_, _, _, _) => ForDiscipline(st, s);
      case Switch(_, _, _, _) => SwitchDiscipline(st, s);
      case Labeled(name, inner) =>
        var st2 := if name == "" then st else LabelEntry(st, name);
        LabelStacks(st, name);
        DeeperVoid(st, st2);
        StackDiscipline(st2, inner);
        DeeperTrans(st, st2, Lower(st2, inner).st, 0, 0, Leaks(inner, st.isVoid), Leaks(inner, st.isVoid));
      case _ => PlainStacks(st, s);
    }
  }

  lemma PlainStacks(st: Builder, s: Stmt)
    requires !s.Compound? && !s.If? && !s.While? && !s.DoWhile? && !s.For? && !s.Switch? && !s.Labeled?
    ensures Lower(st, s).ok == Succeeds(s, st.isVoid) && Leaks(s, st.isVoid) == 0
    ensures Deeper(st, Lower(st, s).st, 0, 0)
  {
  }

  lemma LabelStacks(st: Builder, name: string)
    ensures Deeper(st, st, 0, 0)
    ensures Deeper(st, LabelEntry(st, name), 0, 0)
  {
  }

  lemma DeeperVoid(st: Builder, r: Builder)
    requires exists j, k :: Deeper(st, r, j, k)
    ensures r.isVoid == st.isVoid
  {
  }

  lemma {:induction false} ListDiscipline(st: Builder, l: Stmts)
    ensures Deeper(st, LowerList(st, l), ListLeaks(l, st.isVoid), ListLeaks(l, st.isVoid))
    decreases l, 0
  {
    hide Deeper;
    SelfStacks(st);
    if l.Cons? {
      var st1, j, k := Lower(st, l.head).st, Leaks(l.head, st.isVoid), ListLeaks(l.tail, st.isVoid);
      StackDiscipline(st, l.head);
      DeeperVoid(st, st1);
      ListDiscipline(st1, l.tail);
      DeeperTrans(st, st1, LowerList(st, l), j, j, k, k);
    }
  }

  lemma {:induction false} IfDiscipline(st: Builder, s: Stmt)
    requires s.If?
    ensures LowerIf(st, s).ok == Succeeds(s, st.isVoid)
    ensures Deeper(st, LowerIf(st, s).st, Leaks(s, st.isVoid), Leaks(s, st.isVoid))
    decreases s, 0
  {
    hide Deeper, IfEntry, Lower;
    SelfStacks(st);
    if !s.cond.lowers.Value? {
      SameStacks(st, st, PutExpr(st, s.cond), 0, 0);
    } else {
      var st1, n, j, k := IfEntry(st, s.cond), |st.blocks|, Leaks(s.thn, st.isVoid), Leaks(s.els, st.isVoid);
      IfStacks(st, s.cond);
      DeeperVoid(st, st1);
      StackDiscipline(st1, s.thn);
      var r1 := Lower(st1, s.thn);
      DeeperTrans(st, st1, r1.st, 0, 0, j, j);
      if r1.ok {
        var st2 := At(BranchIfOpen(r1.st, n + 2), n + 1);
        SameStacks(st, r1.st, st2, j, j);
        DeeperVoid(st, st2);
        StackDiscipline(st2, s.els);
        var r2 := Lower(st2, s.els);
        DeeperTrans(st, st2, r2.st, j, j, k, k);
        SameStacks(st, r2.st, At(BranchIfOpen(r2.st, n + 2), n + 2), j + k, j + k);
      }
    }
  }

  lemma {:induction false} WhileDiscipline(st: Builder, s: Stmt)
    requires s.While? || s.DoWhile?
    ensures LowerWhile(st, s).ok == Succeeds(s, st.isVoid)
    ensures Deeper(st, LowerWhile(st, s).st, Leaks(s, st.isVoid), Leaks(s, st.isVoid))
    decreases s, 0
  {
    hide Deeper, WhileEntry, Lower, TestSucceeds;
    var n, r, k := |st.blocks|, WhileEntry(st, s), Leaks(s.loopBody, st.isVoid);
    WhileStacks(st, s);
    DeeperVoid(st, r.st);
    if r.ok {
      StackDiscipline(r.st, s.loopBody);
      var st1 := Lower(r.st, s.loopBody).st;
      DeeperTrans(st, r.st, st1, 1, 1, k, k);
      SameStacks(st, st1, BranchIfOpen(st1, n), k + 1, k + 1);
      DeeperPop(st, BranchIfOpen(st1, n), k, k + 1);
      SameStacks(st, PopTargets(BranchIfOpen(st1, n)), LowerWhile(st, s).st, k, k);
    }
  }

  lemma {:induction false} ForDiscipline(st: Builder, s: Stmt)
    requires s.For?
    ensures LowerFor(st, s).ok == Succeeds(s, st.isVoid)
    ensures Deeper(st, LowerFor(st, s).st, Leaks(s, st.isVoid), Leaks(s, st.isVoid))
    decreases s, 0
  {
    hide Deeper, ForEntry, ForStep, TestSucceeds, Lower;
    var r0, i, k := Lower(st, s.init), Leaks(s.init, st.isVoid), Leaks(s.loopBody, st.isVoid);
    StackDiscipline(st, s.init);
    DeeperVoid(st, r0.st);
    if r0.ok {
      var n, r1 := |r0.st.blocks|, ForEntry(r0.st, s.test);
      ForStacks(r0.st, s.test);
      DeeperTrans(st, r0.st, r1.st, i, i, 1, 1);
      DeeperVoid(st, r1.st);
      if r1.ok {
        StackDiscipline(r1.st, s.loopBody);
        var st2 := Lower(r1.st, s.loopBody).st;
        DeeperTrans(st, r1.st, st2, i + 1, i + 1, k, k);
        var r3 := ForStep(st2, s.incr, n);
        StepStacks(st2, s.incr, n);
        SameStacks(st, st2, r3.st, i + k + 1, i + k + 1);
        DeeperPop(st, r3.st, i + k, i + k + 1);
        SameStacks(st, PopTargets(r3.st), At(PopTargets(r3.st), n + 3), i + k, i + k);
      }
    }
  }

  lemma {:induction false} SwitchDiscipline(st: Builder, s: Stmt)
    requires s.Switch?
    ensures LowerSwitch(st, s).ok == Succeeds(s, st.isVoid)
    ensures Deeper(st, LowerSwitch(st, s).st, Leaks(s, st.isVoid), Leaks(s, st.isVoid))
    decreases s, 0
  {
    hide Deeper, SwitchEntry, SwitchClose, Lower, LowerBody;
    SelfStacks(st);
    if !s.cond.lowers.Value? {
      SameStacks(st, st, PutExpr(st, s.cond), 0, 0);
    } else {
      var n, st1, k := |st.blocks|, SwitchEntry(st, s), ListLeaks(s.body, st.isVoid);
      SwitchStacks(st, s);
      DeeperVoid(st, st1);
      BodyDiscipline(st1, s.body, n + 2, n + 1);
      var st2 := LowerBody(st1, s.body, n + 2, n + 1);
      DeeperTrans(st, st1, st2, 1, 0, k, k);
      var st3 := SwitchClose(st2, s.body, n);
      SwitchCloseStacks(st2, s.body, n);
      SameStacks(st, st2, st3, k + 1, k);
      DeeperPop(st, st3, k, k);
      SameStacks(st, st3.(breaks := Pop(st3.breaks)), SwitchExit(st2, s.body, n), k, k);
    }
  }

  lemma SwitchCloseStacks(st: Builder, body: Stmts, n: nat)
    ensures var r := SwitchClose(st, body, n);
            r.breaks == st.breaks && r.continues == st.continues && r.isVoid == st.isVoid
  {
    var st1 := BranchIfOpen(st, n);
    CloseAllStacks(if HasDefault(body) then st1 else BranchIfOpen(At(st1, n + 1), n),
                   LabelBlocks(body, n + 2, n + 1), n);
  }

  lemma {:induction false} BodyDiscipline(st: Builder, l: Stmts, next: nat, dflt: nat)
    ensures Deeper(st, LowerBody(st, l, next, dflt), ListLeaks(l, st.isVoid), ListLeaks(l, st.isVoid))
    decreases l, 0
  {
    hide Deeper;
    SelfStacks(st);
    if l.Cons? {
      var j, k := Leaks(l.head, st.isVoid), ListLeaks(l.tail, st.isVoid);
      var b := if l.head.Case? then next else dflt;
      var isLabel := l.head.Case? || l.head.Default?;
      var st1 := if isLabel then At(BranchIfOpen(st, b), b) else Lower(st, l.head).st;
      if isLabel { SameStacks(st, st, st1, 0, 0); } else { StackDiscipline(st, l.head); }
      DeeperVoid(st, st1);
      BodyDiscipline(st1, l.tail, if l.head.Case? then next + 1 else next, dflt);
      DeeperTrans(st, st1, LowerBody(st, l, next, dflt), j, j, k, k);
    }
  }

  /** The stacks come back as they were exactly when no loop failed. */
  lemma StacksRestored(st: Builder, s: Stmt)
    ensures (Lower(st, s).st.breaks == st.breaks && Lower(st, s).st.continues == st.continues)
            <==> Leaks(s, st.isVoid) == 0
  {
    StackDiscipline(st, s);
    var r := Lower(st, s).st;
    if Leaks(s, st.isVoid) == 0 {
      assert r.breaks == r.breaks[..|st.breaks|];
      assert r.continues == r.continues[..|st.continues|];
    }
  }

  /** A while loop whose test cannot be lowered leaves its end block on the stack, where a later
      break in the same function finds it. */
  lemma LeakedBreakTarget()
    ensures var loop := While(Some(Expr(0, Failure, false)), Empty);
            var st := Builder([[]], 0, [], [], map[], true);
            var st1 := LowerList(st, Cons(loop, Cons(Break, Nil)));
            st1.breaks == [3] && st1.continues == [1]
  {
    var st := Builder([[]], 0, [], [], map[], true);
    var loop := While(Some(Expr(0, Failure, false)), Empty);
    assert Lower(st, loop).st.breaks == [] + [3];
  }
}
