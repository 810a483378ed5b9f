/** What lowering leaves behind: every block it has left ends in a terminator, so only the block it is in and
    blocks it never entered can be open, and there is nothing for the last loop of a switch to close. */
module Settled {
  import opened CStatements
  import opened Options
  import opened BlockMachine
  import opened LowerSpec
  import opened LowerFacts
  import opened Functions

  ghost predicate Shut(st: Builder, b: nat) { b < |st.blocks| && Terminated(st.blocks[b]) }

  /** Of the entered blocks each is the current one or terminated, and no other block that is not terminated has
      code. */
  ghost predicate Settled(st: Builder, entered: set<nat>) {
    && Sane(st)
    && (forall b :: b in entered ==> b == st.cur || Shut(st, b))
    && (forall b :: 0 <= b < |st.blocks| && b != st.cur ==> Shut(st, b) || Code(st.blocks[b]) == [])
  }

  lemma PutSettled(st: Builder, e: set<nat>, i: Instr)
    requires Settled(st, e)
    ensures Settled(Put(st, i), e) && |Put(st, i).blocks| == |st.blocks| && Put(st, i).cur == st.cur
    ensures IsTerminator(i) ==> !Open(Put(st, i))
  {
    hide Code;
    Appended(Here(st), i);
  }

  lemma ExprSettled(st: Builder, e: set<nat>, x: Expr)
    requires Settled(st, e)
    ensures Settled(PutExpr(st, x), e) && |PutExpr(st, x).blocks| == |st.blocks| && PutExpr(st, x).cur == st.cur
  {
    hide Settled;
    PutSettled(st, e, Compute(x.id, x.silent));
  }

  lemma BranchSettled(st: Builder, e: set<nat>, t: nat)
    requires Settled(st, e)
    ensures var r := BranchIfOpen(st, t); Settled(r, e) && !Open(r) && |r.blocks| == |st.blocks| && r.cur == st.cur
  {
    hide Settled, Terminated;
    PutSettled(st, e, Br(t));
  }

  lemma AddSettled(st: Builder, e: set<nat>, n: nat)
    requires Settled(st, e)
    ensures Settled(AddBlocks(st, n), e) && |AddBlocks(st, n).blocks| == |st.blocks| + n
    ensures AddBlocks(st, n).cur == st.cur
  {
  }

  /** Leaving a terminated block for another one. */
  lemma MoveSettled(st: Builder, e: set<nat>, b: nat)
    requires Settled(st, e) && !Open(st) && b < |st.blocks|
    ensures Settled(At(st, b), e + {b}) && Settled(At(st, b), e)
  {
    hide Terminated, Code;
  }

  lemma OtherStacks(st: Builder, e: set<nat>, brk: seq<nat>, cont: seq<nat>)
    requires Settled(st, e)
    ensures Settled(st.(breaks := brk, continues := cont), e)
  {
    hide Terminated, Code;
  }

  lemma TestSettled(st: Builder, e: set<nat>, test: Option<Expr>, body: nat, end: nat)
    requires Settled(st, e)
    ensures var r := PutTest(st, test, body, end);
            Settled(r.st, e) && |r.st.blocks| == |st.blocks| && (r.ok ==> !Open(r.st))
  {
    hide Settled, Terminated, Put;
    if test.Some? {
      ExprSettled(st, e, test.value);
      PutSettled(PutExpr(st, test.value), e, Br(body));
      PutSettled(PutExpr(st, test.value), e, CondBr(body, end));
    } else {
      PutSettled(st, e, Br(body));
    }
  }

  lemma LabelSettled(st: Builder, e: set<nat>, name: string)
    requires Settled(st, e)
    ensures var r := BlockOfLabel(st, name);
            Settled(r, e) && name in r.labels && r.labels[name] < |r.blocks| && |st.blocks| <= |r.blocks|
  {
    hide Terminated, Code;
    AddSettled(st, e, 1);
  }

  lemma EntrySettled(st: Builder, e: set<nat>, x: Expr, k: nat, i: Instr)
    requires Settled(st, e) && IsTerminator(i)
    ensures var r := Put(AddBlocks(PutExpr(st, x), k), i);
            Settled(r, e) && !Open(r) && |r.blocks| == |st.blocks| + k && r.cur == st.cur
  {
    hide Settled, Terminated, Put, PutExpr, AddBlocks;
    ExprSettled(st, e, x);
    AddSettled(PutExpr(st, x), e, k);
    PutSettled(AddBlocks(PutExpr(st, x), k), e, i);
  }

  /** The way into a loop whose test is in block n. */
  lemma LoopSettled(st: Builder, e: set<nat>, k: nat, brk: nat, cont: nat, first: nat, test: Option<Expr>, body: nat,
                    end: nat)
    requires Settled(st, e) && k > 0
    ensures var st1 := Put(PushTargets(AddBlocks(st, k), brk, cont), Br(first));
            var r := PutTest(At(st1, |st.blocks|), test, body, end);
            Settled(r.st, e) && |r.st.blocks| == |st.blocks| + k && (r.ok ==> !Open(r.st))
  {
    hide Settled, Terminated, Put, AddBlocks, PutTest;
    AddSettled(st, e, k);
    OtherStacks(AddBlocks(st, k), e, st.breaks + [brk], st.continues + [cont]);
    SameStacksAdded(st, k);
    var st1 := PushTargets(AddBlocks(st, k), brk, cont);
    PutSettled(st1, e, Br(first));
    MoveSettled(Put(st1, Br(first)), e, |st.blocks|);
    TestSettled(At(Put(st1, Br(first)), |st.blocks|), e, test, body, end);
  }

  lemma SameStacksAdded(st: Builder, k: nat)
    ensures AddBlocks(st, k).breaks == st.breaks && AddBlocks(st, k).continues == st.continues
  {
  }

  /** Any statement, failing or not, with labels and gotos or without. */
  lemma {:induction false} LowerSettled(st: Builder, e: set<nat>, s: Stmt)
    requires Settled(st, e)
    ensures Settled(Lower(st, s).st, e) && |st.blocks| <= |Lower(st, s).st.blocks|
    decreases s, 2
  {
    hide Settled, Terminated, Put, PutExpr, BlockOfLabel, LabelEntry, IfEntry, WhileEntry, ForEntry, SwitchEntry;
    match s {
      case Eval(x) => ExprSettled(st, e, x);
      case Compound(l) => ListSettled(st, e, l);
      case If(_, _, _) => IfSettled(st, e, s);
      case While(_, _) => WhileSettled(st, e, s);
      case DoWhile(_, _) => WhileSettled(st, e, s);
      case For(_, _, _, _) => ForSettled(st, e, s);
      case Switch(_, _, _, _) => SwitchSettled(st, e, s);
      case Break => if st.breaks != [] { PutSettled(st, e, Br(st.breaks[|st.breaks| - 1])); }
      case Continue => if st.continues != [] { PutSettled(st, e, Br(st.continues[|st.continues| - 1])); }
      case Return(None) => PutSettled(st, e, Ret(if st.isVoid then Nothing else Zero));
      case Return(Some(x)) =>
        ExprSettled(st, e, x);
        PutSettled(PutExpr(st, x), e, Ret(Nothing));
        PutSettled(PutExpr(st, x), e, Ret(if x.lowers.Value? then LastValue else Zero));
      case Goto(name) =>
        if name != "" {
          LabelSettled(st, e, name);
          var st1 := BlockOfLabel(st, name);
          PutSettled(st1, e, Br(st1.labels[name]));
        }
      case Labeled(name, inner) =>
        if name == "" {
          LowerSettled(st, e, inner);
        } else {
          LabelEntrySettled(st, e, name);
          LowerSettled(LabelEntry(st, name), e, inner);
        }
      case _ =>
    }
  }

  lemma LabelEntrySettled(st: Builder, e: set<nat>, name: string)
    requires Settled(st, e)
    ensures Settled(LabelEntry(st, name), e) && |st.blocks| <= |LabelEntry(st, name).blocks|
  {
    hide Settled, Terminated, BlockOfLabel, BranchIfOpen;
    LabelSettled(st, e, name);
    var st1 := BlockOfLabel(st, name);
    BranchSettled(st1, e, st1.labels[name]);
    MoveSettled(BranchIfOpen(st1, st1.labels[name]), e, st1.labels[name]);
  }

  lemma {:induction false} ListSettled(st: Builder, e: set<nat>, l: Stmts)
    requires Settled(st, e)
    ensures Settled(LowerList(st, l), e) && |st.blocks| <= |LowerList(st, l).blocks|
    decreases l, 0
  {
    hide Settled;
    if l.Cons? {
      LowerSettled(st, e, l.head);
      ListSettled(Lower(st, l.head).st, e, l.tail);
    }
  }

  /** Going on in block b after whatever came last. */
  lemma NextSettled(st: Builder, e: set<nat>, t: nat, b: nat)
    requires Settled(st, e) && b < |st.blocks|
    ensures var r := At(BranchIfOpen(st, t), b); Settled(r, e) && Settled(r, e + {b}) && |r.blocks| == |st.blocks|
  {
    hide Settled, Terminated, BranchIfOpen;
    BranchSettled(st, e, t);
    MoveSettled(BranchIfOpen(st, t), e, b);
  }

  lemma {:induction false} IfSettled(st: Builder, e: set<nat>, s: Stmt)
    requires Settled(st, e) && s.If?
    ensures Settled(LowerIf(st, s).st, e) && |st.blocks| <= |LowerIf(st, s).st.blocks|
    decreases s, 0
  {
    hide Settled, Terminated, Put, PutExpr, AddBlocks, BranchIfOpen;
    var n := |st.blocks|;
    ExprSettled(st, e, s.cond);
    if s.cond.lowers.Value? {
      EntrySettled(st, e, s.cond, 3, CondBr(n, n + 1));
      MoveSettled(Put(AddBlocks(PutExpr(st, s.cond), 3), CondBr(n, n + 1)), e, n);
      LowerSettled(IfEntry(st, s.cond), e, s.thn);
      var r1 := Lower(IfEntry(st, s.cond), s.thn);
      NextSettled(r1.st, e, n + 2, n + 1);
      if r1.ok {
        var st2 := At(BranchIfOpen(r1.st, n + 2), n + 1);
        LowerSettled(st2, e, s.els);
        NextSettled(Lower(st2, s.els).st, e, n + 2, n + 2);
      }
    }
  }

  lemma {:induction false} WhileSettled(st: Builder, e: set<nat>, s: Stmt)
    requires Settled(st, e) && (s.While? || s.DoWhile?)
    ensures Settled(LowerWhile(st, s).st, e) && |st.blocks| <= |LowerWhile(st, s).st.blocks|
    decreases s, 0
  {
    hide Settled, Terminated, Put, PutTest, AddBlocks, BranchIfOpen, PushTargets;
    var n := |st.blocks|;
    LoopSettled(st, e, 3, n + 2, n, if s.DoWhile? then n + 1 else n, s.test, n + 1, n + 2);
    var r := WhileEntry(st, s);
    if r.ok {
      var test := PutTest(At(Put(PushTargets(AddBlocks(st, 3), n + 2, n), Br(if s.DoWhile? then n + 1 else n)), n),
                          s.test, n + 1, n + 2).st;
      MoveSettled(test, e, n + 1);
      LowerSettled(r.st, e, s.loopBody);
      var end := BranchIfOpen(Lower(r.st, s.loopBody).st, n);
      BranchSettled(Lower(r.st, s.loopBody).st, e, n);
      MoveSettled(end, e, n + 2);
      OtherStacks(At(end, n + 2), e, Pop(end.breaks), Pop(end.continues));
    }
  }

  lemma {:induction false} ForSettled(st: Builder, e: set<nat>, s: Stmt)
    requires Settled(st, e) && s.For?
    ensures Settled(LowerFor(st, s).st, e) && |st.blocks| <= |LowerFor(st, s).st.blocks|
    decreases s, 0
  {
    hide Settled, Terminated, Put, PutTest, AddBlocks, BranchIfOpen, PushTargets, ForStep;
    LowerSettled(st, e, s.init);
    var r0 := Lower(st, s.init);
    if r0.ok {
      var n := |r0.st.blocks|;
      LoopSettled(r0.st, e, 4, n + 3, n + 1, n, s.test, n + 2, n + 3);
      var r1 := ForEntry(r0.st, s.test);
      if r1.ok {
        MoveSettled(PutTest(At(Put(PushTargets(AddBlocks(r0.st, 4), n + 3, n + 1), Br(n)), n), s.test, n + 2, n + 3).st,
                    e, n + 2);
        LowerSettled(r1.st, e, s.loopBody);
        var st2 := Lower(r1.st, s.loopBody).st;
        StepSettled(st2, e, s.incr, n);
        var r2 := ForStep(st2, s.incr, n);
        if r2.ok {
          MoveSettled(r2.st, e, n + 3);
          OtherStacks(At(r2.st, n + 3), e, Pop(r2.st.breaks), Pop(r2.st.continues));
        }
      }
    }
  }

  lemma StepSettled(st: Builder, e: set<nat>, incr: Option<Expr>, n: nat)
    requires Settled(st, e) && n + 1 < |st.blocks|
    ensures var r := ForStep(st, incr, n);
            Settled(r.st, e) && |r.st.blocks| == |st.blocks| && (r.ok ==> !Open(r.st))
  {
    hide Settled, Terminated, PutExpr, BranchIfOpen;
    NextSettled(st, e, n + 1, n + 1);
    var st1 := At(BranchIfOpen(st, n + 1), n + 1);
    if incr.Some? { ExprSettled(st1, e, incr.value); }
    BranchSettled(if incr.Some? then PutExpr(st1, incr.value) else st1, e, n);
  }

  ghost function LabelSet(l: Stmts, next: nat, dflt: nat): set<nat> { set b | b in LabelBlocks(l, next, dflt) }

  /** All label blocks of the body have been entered when it ends. */
  lemma {:induction false} BodySettled(st: Builder, e: set<nat>, l: Stmts, next: nat, dflt: nat)
    requires Settled(st, e) && dflt < |st.blocks| && next + CountCases(l) <= |st.blocks|
    ensures var r := LowerBody(st, l, next, dflt);
            && Settled(r, e + LabelSet(l, next, dflt)) && Settled(r, e)
            && |st.blocks| <= |r.blocks|
    decreases l, 0
  {
    hide Settled, Terminated, BranchIfOpen;
    var r, labels := LowerBody(st, l, next, dflt), LabelSet(l, next, dflt);
    match l
    case Nil => assert e + labels == e;
    case Cons(s, t) =>
      if s.Case? {
        NextSettled(st, e, next, next);
        BodySettled(At(BranchIfOpen(st, next), next), e + {next}, t, next + 1, dflt);
        assert e + {next} + LabelSet(t, next + 1, dflt) == e + labels;
        SettledLess(r, e + labels, e);
      } else if s.Default? {
        NextSettled(st, e, dflt, dflt);
        BodySettled(At(BranchIfOpen(st, dflt), dflt), e + {dflt}, t, next, dflt);
        assert e + {dflt} + LabelSet(t, next, dflt) == e + labels;
        SettledLess(r, e + labels, e);
      } else {
        LowerSettled(st, e, s);
        BodySettled(Lower(st, s).st, e, t, next, dflt);
      }
  }

  lemma SettledLess(st: Builder, more: set<nat>, e: set<nat>)
    requires Settled(st, more) && e <= more
    ensures Settled(st, e)
  {
  }

  lemma SwitchEntrySettled(st: Builder, e: set<nat>, s: Stmt)
    requires Settled(st, e) && s.Switch?
    ensures Settled(SwitchEntry(st, s), e)
    ensures |SwitchEntry(st, s).blocks| == |st.blocks| + 2 + CountCases(s.body)
  {
    hide Settled, Terminated, Put, PutExpr, AddBlocks;
    var n := |st.blocks|;
    var sw := SwitchBr(s.width, Dedup(CollectCases(s.body, n + 2, s.width), {}), n + 1);
    EntrySettled(st, e, s.cond, 2 + CountCases(s.body), sw);
    var st1 := Put(AddBlocks(PutExpr(st, s.cond), 2 + CountCases(s.body)), sw);
    OtherStacks(st1, e, st.breaks + [n], st1.continues);
  }

  /** The end of a switch: what it leaves open is closed without looking at the label blocks. */
  function ClosedEnds(st: Builder, body: Stmts, n: nat): Builder {
    if HasDefault(body) then BranchIfOpen(st, n) else BranchIfOpen(At(BranchIfOpen(st, n), n + 1), n)
  }

  lemma EndsSettled(st: Builder, e: set<nat>, body: Stmts, n: nat)
    requires Settled(st, e) && n + 1 < |st.blocks|
    ensures var r := ClosedEnds(st, body, n); Settled(r, e) && !Open(r) && |r.blocks| == |st.blocks|
  {
    hide Settled, Terminated, BranchIfOpen;
    BranchSettled(st, e, n);
    NextSettled(st, e, n, n + 1);
    BranchSettled(At(BranchIfOpen(st, n), n + 1), e, n);
  }

  lemma {:induction false} NothingToClose(st: Builder, e: set<nat>, bs: seq<nat>, end: nat)
    requires Settled(st, e) && !Open(st) && forall b :: b in bs ==> b in e
    ensures CloseAll(st, bs, end) == st
    decreases bs
  {
    hide Terminated, Code;
    if bs != [] {
      assert bs[0] in e && (bs[0] == st.cur || Shut(st, bs[0]));
      assert Here(At(st, bs[0])) == st.blocks[bs[0]];
      assert forall b :: b in bs[1..] ==> b in bs;
      NothingToClose(st, e, bs[1..], end);
    }
  }

  /** In every switch, whatever is in its body, the last loop over the label blocks finds each of them
      terminated. */
  lemma ClosingIdle(st: Builder, e: set<nat>, s: Stmt)
    requires Settled(st, e) && s.Switch?
    ensures var n, st1 := |st.blocks|, LowerBody(SwitchEntry(st, s), s.body, |st.blocks| + 2, |st.blocks| + 1);
            && SwitchClose(st1, s.body, n) == ClosedEnds(st1, s.body, n)
            && Settled(ClosedEnds(st1, s.body, n), e) && !Open(ClosedEnds(st1, s.body, n))
            && |st.blocks| < |ClosedEnds(st1, s.body, n).blocks|
    decreases s, 0
  {
    hide Settled, Terminated, BranchIfOpen, SwitchEntry, LowerBody, CloseAll;
    var n := |st.blocks|;
    SwitchEntrySettled(st, e, s);
    BodySettled(SwitchEntry(st, s), e, s.body, n + 2, n + 1);
    var st1, labels := LowerBody(SwitchEntry(st, s), s.body, n + 2, n + 1), LabelBlocks(s.body, n + 2, n + 1);
    EndsSettled(st1, e + LabelSet(s.body, n + 2, n + 1), s.body, n);
    EndsSettled(st1, e, s.body, n);
    NothingToClose(ClosedEnds(st1, s.body, n), e + LabelSet(s.body, n + 2, n + 1), labels, n);
  }

  lemma {:induction false} SwitchSettled(st: Builder, e: set<nat>, s: Stmt)
    requires Settled(st, e) && s.Switch?
    ensures Settled(LowerSwitch(st, s).st, e) && |st.blocks| <= |LowerSwitch(st, s).st.blocks|
    decreases s, 1
  {
    hide Settled, Terminated, BranchIfOpen, SwitchEntry, LowerBody, CloseAll, SwitchClose, ClosedEnds;
    ExprSettled(st, e, s.cond);
    if s.cond.lowers.Value? {
      ClosingIdle(st, e, s);
      var n := |st.blocks|;
      var st1 := SwitchClose(LowerBody(SwitchEntry(st, s), s.body, n + 2, n + 1), s.body, n);
      MoveSettled(st1, e, n);
      OtherStacks(At(st1, n), e, Pop(st1.breaks), st1.continues);
    }
  }

  /** At the end of a function every block is terminated, or the current one, or has no code: sealing adds
      nothing to code but at the insertion point. */
  lemma FunctionSettled(isVoid: bool, body: Stmts)
    ensures var st := LowerList(Start(isVoid), body);
            && st.cur < |st.blocks|
            && forall b :: 0 <= b < |st.blocks| && b != st.cur ==> Terminated(st.blocks[b]) || Code(st.blocks[b]) == []
  {
    hide Terminated, Code;
    ListSettled(Start(isVoid), {}, body);
  }
}
