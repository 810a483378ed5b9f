/** Which block each break and each continue of a statement branches to. */
module JumpTargets {
  import opened CStatements
  import opened Options
  import opened BlockMachine
  import opened LowerSpec
  import opened BranchTargets

  /** The jump is lowered to a branch to its target, or to nothing if nothing encloses it. */
  ghost predicate JumpsTo(st: Builder, s: Stmt, target: Option<nat>) {
    Lower(st, s) == Lowered(if target.Some? then Put(st, Br(target.value)) else st, true)
  }

  /** Every break and continue of s, lowered from st, goes where its place in the statement says: to the end
      block of the innermost loop or switch around it, and to the test block of a while or do-while or the
      increment block of a for; brk and cont are the targets for s itself. */
  ghost predicate Aimed(st: Builder, s: Stmt, brk: Option<nat>, cont: Option<nat>)
    decreases s, 1
  {
    var n := |st.blocks|;
    match s
    case Compound(l) => ListAimed(st, l, brk, cont)
    case If(_, _, _) => s.cond.lowers.Value? ==> ArmsAimed(st, s, brk, cont)
    case While(_, b) => WhileEntry(st, s).ok ==> Aimed(WhileEntry(st, s).st, b, Some(n + 2), Some(n))
    case DoWhile(b, _) => WhileEntry(st, s).ok ==> Aimed(WhileEntry(st, s).st, b, Some(n + 2), Some(n))
    case For(_, _, _, _) => ForAimed(st, s, brk, cont)
    case Switch(_, _, _, l) => s.cond.lowers.Value? ==> BodyAimed(SwitchEntry(st, s), l, n + 2, n + 1, Some(n), cont)
    case Break => JumpsTo(st, s, brk)
    case Continue => JumpsTo(st, s, cont)
    case Labeled(name, inner) => Aimed(if name == "" then st else LabelEntry(st, name), inner, brk, cont)
    case _ => true
  }

  ghost predicate ArmsAimed(st: Builder, s: Stmt, brk: Option<nat>, cont: Option<nat>)
    requires s.If?
    decreases s, 0
  {
    var n, r := |st.blocks|, Lower(IfEntry(st, s.cond), s.thn);
    && Aimed(IfEntry(st, s.cond), s.thn, brk, cont)
    && (r.ok ==> Aimed(At(BranchIfOpen(r.st, n + 2), n + 1), s.els, brk, cont))
  }

  ghost predicate ForAimed(st: Builder, s: Stmt, brk: Option<nat>, cont: Option<nat>)
    requires s.For?
    decreases s, 0
  {
    var r := Lower(st, s.init);
    var n := |r.st.blocks|;
    && Aimed(st, s.init, brk, cont)
    && (r.ok && ForEntry(r.st, s.test).ok ==> Aimed(ForEntry(r.st, s.test).st, s.loopBody, Some(n + 3), Some(n + 1)))
  }

  ghost predicate ListAimed(st: Builder, l: Stmts, brk: Option<nat>, cont: Option<nat>)
    decreases l, 0
  {
    l.Cons? ==> Aimed(st, l.head, brk, cont) && ListAimed(Lower(st, l.head).st, l.tail, brk, cont)
  }

  ghost predicate BodyAimed(st: Builder, l: Stmts, next: nat, dflt: nat, brk: Option<nat>, cont: Option<nat>)
    decreases l, 0
  {
    l.Cons? ==>
      if l.head.Case? then BodyAimed(At(BranchIfOpen(st, next), next), l.tail, next + 1, dflt, brk, cont)
      else if l.head.Default? then BodyAimed(At(BranchIfOpen(st, dflt), dflt), l.tail, next, dflt, brk, cont)
      else Aimed(st, l.head, brk, cont) && BodyAimed(Lower(st, l.head).st, l.tail, next, dflt, brk, cont)
  }

  /** The entries on top of the two stacks. */
  ghost function LastOf(s: seq<nat>): Option<nat> { if s == [] then None else Some(s[|s| - 1]) }

  ghost predicate InForce(st: Builder, brk: Option<nat>, cont: Option<nat>) {
    LastOf(st.breaks) == brk && LastOf(st.continues) == cont
  }

  /** A step that leaves the stacks as they were leaves the same targets in force. */
  lemma StillInForce(st: Builder, r: Builder, brk: Option<nat>, cont: Option<nat>)
    requires InForce(st, brk, cont) && Deeper(st, r, 0, 0)
    ensures InForce(r, brk, cont) && r.isVoid == st.isVoid
  {
    assert r.breaks == r.breaks[..|st.breaks|] && r.continues == r.continues[..|st.continues|];
  }

  lemma WhileInForce(st: Builder, s: Stmt)
    requires s.While? || s.DoWhile?
    ensures InForce(WhileEntry(st, s).st, Some(|st.blocks| + 2), Some(|st.blocks|))
    ensures WhileEntry(st, s).st.isVoid == st.isVoid
  {
  }

  lemma ForInForce(st: Builder, test: Option<Expr>)
    ensures InForce(ForEntry(st, test).st, Some(|st.blocks| + 3), Some(|st.blocks| + 1))
    ensures ForEntry(st, test).st.isVoid == st.isVoid
  {
  }

  lemma SwitchInForce(st: Builder, s: Stmt)
    requires s.Switch?
    ensures LastOf(SwitchEntry(st, s).breaks) == Some(|st.blocks|) && SwitchEntry(st, s).continues == st.continues
    ensures SwitchEntry(st, s).isVoid == st.isVoid
  {
  }

  /** When no loop fails to lower, every jump is aimed as C says. */
  lemma {:induction false} JumpsAimed(st: Builder, s: Stmt, brk: Option<nat>, cont: Option<nat>)
    requires Leaks(s, st.isVoid) == 0 && InForce(st, brk, cont)
    ensures Aimed(st, s, brk, cont)
    decreases s, 1
  {
    hide Deeper, Lower, WhileEntry, ForEntry, SwitchEntry, InForce;
    match s
    case Compound(l) => ListJumps(st, l, brk, cont);
    case If(_, _, _) => if s.cond.lowers.Value? { ArmJumps(st, s, brk, cont); }
    case While(_, _) => WhileJumps(st, s);
    case DoWhile(_, _) => WhileJumps(st, s);
    case For(_, _, _, _) => ForJumps(st, s, brk, cont);
    case Switch(_, _, _, l) =>
      if s.cond.lowers.Value? {
        var n := |st.blocks|;
        SwitchInForce(st, s);
        SwitchTargets(st, s, brk, cont);
        BodyJumps(SwitchEntry(st, s), l, n + 2, n + 1, Some(n), cont);
      }
    case Break => PlainJump(st, s, brk, cont);
    case Continue => PlainJump(st, s, brk, cont);
    case Labeled(name, inner) =>
      var st1 := if name == "" then st else LabelEntry(st, name);
      LabelStacks(st, name);
      StillInForce(st, st1, brk, cont);
      JumpsAimed(st1, inner, brk, cont);
    case _ =>
  }

  lemma {:induction false} WhileJumps(st: Builder, s: Stmt)
    requires (s.While? || s.DoWhile?) && Leaks(s, st.isVoid) == 0
    ensures WhileEntry(st, s).ok ==>
              Aimed(WhileEntry(st, s).st, s.loopBody, Some(|st.blocks| + 2), Some(|st.blocks|))
    decreases s, 0
  {
    hide Deeper, InForce, WhileEntry, Aimed;
    WhileStacks(st, s);
    WhileInForce(st, s);
    if WhileEntry(st, s).ok {
      JumpsAimed(WhileEntry(st, s).st, s.loopBody, Some(|st.blocks| + 2), Some(|st.blocks|));
    }
  }

  lemma PlainJump(st: Builder, s: Stmt, brk: Option<nat>, cont: Option<nat>)
    requires (s.Break? || s.Continue?) && InForce(st, brk, cont)
    ensures JumpsTo(st, s, if s.Break? then brk else cont)
  {
  }

  lemma SwitchTargets(st: Builder, s: Stmt, brk: Option<nat>, cont: Option<nat>)
    requires s.Switch? && InForce(st, brk, cont)
    ensures InForce(SwitchEntry(st, s), Some(|st.blocks|), cont)
  {
    hide SwitchEntry;
    SwitchInForce(st, s);
  }

  lemma {:induction false} ListJumps(st: Builder, l: Stmts, brk: Option<nat>, cont: Option<nat>)
    requires ListLeaks(l, st.isVoid) == 0 && InForce(st, brk, cont)
    ensures ListAimed(st, l, brk, cont)
    decreases l, 0
  {
    hide Deeper, Lower, InForce, Aimed;
    if l.Cons? {
      JumpsAimed(st, l.head, brk, cont);
      StackDiscipline(st, l.head);
      StillInForce(st, Lower(st, l.head).st, brk, cont);
      ListJumps(Lower(st, l.head).st, l.tail, brk, cont);
    }
  }

  lemma {:induction false} ArmJumps(st: Builder, s: Stmt, brk: Option<nat>, cont: Option<nat>)
    requires s.If? && s.cond.lowers.Value? && Leaks(s, st.isVoid) == 0 && InForce(st, brk, cont)
    ensures ArmsAimed(st, s, brk, cont)
    decreases s, 0
  {
    hide Deeper, Lower, InForce, Aimed, IfEntry, BranchIfOpen;
    var n, st1 := |st.blocks|, IfEntry(st, s.cond);
    IfStacks(st, s.cond);
    StillInForce(st, st1, brk, cont);
    JumpsAimed(st1, s.thn, brk, cont);
    StackDiscipline(st1, s.thn);
    var r := Lower(st1, s.thn);
    StillInForce(st1, r.st, brk, cont);
    if r.ok {
      var st2 := At(BranchIfOpen(r.st, n + 2), n + 1);
      ArmStacks(r.st, n + 2, n + 1);
      StillInForce(r.st, st2, brk, cont);
      JumpsAimed(st2, s.els, brk, cont);
    }
  }

  lemma ArmStacks(st: Builder, t: nat, b: nat)
    ensures Deeper(st, At(BranchIfOpen(st, t), b), 0, 0)
  {
  }

  lemma {:induction false} ForJumps(st: Builder, s: Stmt, brk: Option<nat>, cont: Option<nat>)
    requires s.For? && Leaks(s, st.isVoid) == 0 && InForce(st, brk, cont)
    ensures ForAimed(st, s, brk, cont)
    decreases s, 0
  {
    hide Deeper, Lower, InForce, Aimed, ForEntry;
    JumpsAimed(st, s.init, brk, cont);
    StackDiscipline(st, s.init);
    var r := Lower(st, s.init);
    StillInForce(st, r.st, brk, cont);
    if r.ok {
      ForStacks(r.st, s.test);
      ForInForce(r.st, s.test);
      if ForEntry(r.st, s.test).ok {
        JumpsAimed(ForEntry(r.st, s.test).st, s.loopBody, Some(|r.st.blocks| + 3), Some(|r.st.blocks| + 1));
      }
    }
  }

  lemma {:induction false} BodyJumps(st: Builder, l: Stmts, next: nat, dflt: nat, brk: Option<nat>, cont: Option<nat>)
    requires ListLeaks(l, st.isVoid) == 0 && InForce(st, brk, cont)
    ensures BodyAimed(st, l, next, dflt, brk, cont)
    decreases l, 0
  {
    hide Deeper, Lower, InForce, Aimed, BranchIfOpen;
    if l.Cons? {
      if l.head.Case? || l.head.Default? {
        var b := if l.head.Case? then next else dflt;
        ArmStacks(st, b, b);
        StillInForce(st, At(BranchIfOpen(st, b), b), brk, cont);
        BodyJumps(At(BranchIfOpen(st, b), b), l.tail, if l.head.Case? then next + 1 else next, dflt, brk, cont);
      } else {
        JumpsAimed(st, l.head, brk, cont);
        StackDiscipline(st, l.head);
        StillInForce(st, Lower(st, l.head).st, brk, cont);
        BodyJumps(Lower(st, l.head).st, l.tail, next, dflt, brk, cont);
      }
    }
  }
}
