/** When the emitted blocks are ones an LLVM verifier accepts: one terminator each, at the end, and
    branches to existing blocks only. */
module WellFormedness {
  import opened CStatements
  import opened Options
  import opened BlockMachine
  import opened LowerSpec
  import opened LowerFacts
  import opened SwitchDispatch
  import opened Shapes
  import opened Functions
  import opened Simulation
  import opened BranchRange

  /** Whether control can reach the end of s, for the purposes of the block it is emitted to. */
  function After(s: Stmt, live: bool): bool {
    match s
    case Compound(l) => AfterList(l, live)
    case Eval(e) => live || !e.silent
    case If(_, _, _) => true
    case While(_, _) => true
    case DoWhile(_, _) => true
    case For(_, _, _, _) => true
    case Switch(_, _, _, _) => true
    case Break => false
    case Continue => false
    case Return(_) => false
    case _ => live
  }

  function AfterList(l: Stmts, live: bool): bool {
    match l
    case Nil => live
    case Cons(s, t) => AfterList(t, After(s, live))
  }

  /** No statement that emits anything follows a jump, unless a case label comes between; live says
      whether the statement itself can be reached. */
  predicate Tidy(s: Stmt, live: bool) {
    match s
    case Compound(l) => TidyList(l, live)
    case If(_, thn, els) => live && Tidy(thn, true) && Tidy(els, true)
    case While(_, b) => live && Tidy(b, true)
    case DoWhile(b, _) => live && Tidy(b, true)
    case For(i, _, _, b) => Tidy(i, live) && After(i, live) && Tidy(b, true)
    case Switch(_, _, _, l) => live && TidyBody(l, false)
    case Eval(e) => live || e.silent
    case Break => live
    case Continue => live
    case Return(_) => live
    case _ => true
  }

  predicate TidyList(l: Stmts, live: bool) {
    l.Cons? ==> Tidy(l.head, live) && TidyList(l.tail, After(l.head, live))
  }

  predicate TidyBody(l: Stmts, live: bool) {
    l.Cons? ==>
      if l.head.Case? || l.head.Default? then TidyBody(l.tail, true)
      else Tidy(l.head, live) && TidyBody(l.tail, After(l.head, live))
  }

  ghost predicate AllClean(blocks: seq<Block>) {
    forall b :: 0 <= b < |blocks| ==> Clean(blocks[b])
  }

  ghost predicate AllWellFormed(p: Program) {
    forall b :: b in p ==> WellFormed(p[b])
  }

  lemma AppendClean(b: Block, i: Instr)
    ensures Clean(b + [i]) <==> Clean(b) && (IsSilent(i) || !Terminated(b))
  {
    hide Code;
    Appended(b, i);
    var c := Code(b);
    assert c + [] == c;
    if !IsSilent(i) && Clean(b + [i]) {
      assert forall k :: 0 <= k < |c| ==> (c + [i])[k] == c[k];
      if |c| > 0 { assert !IsTerminator((c + [i])[|c| - 1]); }
    }
  }

  lemma PutClean(st: Builder, i: Instr)
    requires Sane(st)
    ensures AllClean(Put(st, i).blocks) <==> AllClean(st.blocks) && (IsSilent(i) || Open(st))
    ensures Open(Put(st, i)) <==> if IsSilent(i) then Open(st) else i.Compute?
  {
    hide Clean, Terminated;
    Appended(Here(st), i);
    var bs := Put(st, i).blocks;
    AppendClean(Here(st), i);
    assert bs[st.cur] == Here(st) + [i];
    if AllClean(bs) {
      forall b | 0 <= b < |st.blocks| ensures Clean(st.blocks[b]) {
        assert Clean(bs[b]);
      }
    }
  }

  lemma BranchClean(st: Builder, t: nat)
    requires Sane(st)
    ensures AllClean(BranchIfOpen(st, t).blocks) <==> AllClean(st.blocks)
  {
    PutClean(st, Br(t));
  }

  lemma AddClean(st: Builder, n: nat)
    ensures AllClean(AddBlocks(st, n).blocks) <==> AllClean(st.blocks)
  {
    var bs := AddBlocks(st, n).blocks;
    if AllClean(bs) {
      forall b | 0 <= b < |st.blocks| ensures Clean(st.blocks[b]) { assert Clean(bs[b]); }
    }
  }

  /** A block that was spoiled stays spoiled. */
  lemma CleanDown(base: seq<Block>, own: set<nat>, st: Builder)
    requires Keeps(base, own, st) && AllClean(st.blocks)
    ensures AllClean(base)
  {
    forall b | 0 <= b < |base| ensures Clean(base[b]) {
      assert base[b] <= st.blocks[b] && Clean(st.blocks[b]);
      CodePrefix(base[b], st.blocks[b]);
    }
  }

  lemma {:induction false} CloseAllClean(st: Builder, bs: seq<nat>, end: nat)
    requires Sane(st) && forall b :: b in bs ==> b < |st.blocks|
    ensures AllClean(CloseAll(st, bs, end).blocks) <==> AllClean(st.blocks)
    decreases bs
  {
    if bs != [] {
      assert bs[0] in bs && forall b :: b in bs[1..] ==> b in bs;
      PutClean(At(st, bs[0]), Br(end));
      CloseAllClean(CloseOne(st, bs[0], end), bs[1..], end);
    }
  }

  lemma CloseClean(st: Builder, body: Stmts, n: nat)
    requires Sane(st) && n + 2 + CountCases(body) <= |st.blocks|
    ensures AllClean(SwitchClose(st, body, n).blocks) <==> AllClean(st.blocks)
  {
    hide AllClean;
    LabelBlocksBound(body, n + 2, n + 1);
    BranchClean(st, n);
    var st1 := BranchIfOpen(st, n);
    BranchClean(At(st1, n + 1), n);
    var st2 := if HasDefault(body) then st1 else BranchIfOpen(At(st1, n + 1), n);
    CloseAllClean(st2, LabelBlocks(body, n + 2, n + 1), n);
  }

  /** A value and an instruction that uses it, with new blocks in between. */
  lemma EntryClean(st: Builder, e: Expr, k: nat, i: Instr)
    requires Sane(st) && e.lowers.Value? && !i.Compute?
    ensures AllClean(Put(AddBlocks(PutExpr(st, e), k), i).blocks) <==> AllClean(st.blocks) && Open(st)
  {
    hide AllClean;
    PutClean(st, Compute(e.id, e.silent));
    AddClean(PutExpr(st, e), k);
    PutClean(AddBlocks(PutExpr(st, e), k), i);
  }

  lemma LoopEntryClean(st: Builder, k: nat, brk: nat, cont: nat, first: nat, test: Option<Expr>, body: nat, end: nat)
    requires Sane(st) && k > 0 && IsValue(test)
    ensures AllClean(PutTest(LoopTest(st, k, brk, cont, first), test, body, end).st.blocks)
       <==> AllClean(st.blocks) && Open(st)
  {
    hide AllClean, Sane;
    LoopStart(st, k, brk, cont, first);
    var st0, testSt := PushTargets(AddBlocks(st, k), brk, cont), LoopTest(st, k, brk, cont, first);
    AddClean(st, k);
    PutClean(st0, Br(first));
    if test.Some? {
      EntryClean(testSt, test.value, 0, CondBr(body, end));
      NoBlocks(PutExpr(testSt, test.value));
    } else {
      PutClean(testSt, Br(body));
    }
  }

  lemma NoBlocks(st: Builder)
    ensures AddBlocks(st, 0) == st
  {
    assert st.blocks + [] == st.blocks;
  }

  lemma HoldsSelf(blocks: seq<Block>)
    ensures Holds(Everything(blocks), blocks)
  {
  }

  /** The emitted blocks stay clean exactly when the statement is tidy, and then the insertion point is
      open exactly when control can reach the end of the statement. */
  lemma {:induction false} Neat(st: Builder, s: Stmt)
    requires Sane(st) && Supported(s, st.breaks != [], st.continues != [], st.isVoid) && AllClean(st.blocks)
    ensures AllClean(Lower(st, s).st.blocks) <==> Tidy(s, Open(st))
    ensures Tidy(s, Open(st)) ==> Open(Lower(st, s).st) == After(s, Open(st))
    decreases s, 1
  {
    hide AllClean, Sane, LabelsFit, Terminated, Code;
    match s {
      case Eval(e) => PutClean(st, Compute(e.id, e.silent));
      case Compound(l) => NeatList(st, l);
      case If(_, _, _) => NeatIf(st, s);
      case While(_, _) => NeatWhile(st, s);
      case DoWhile(_, _) => NeatWhile(st, s);
      case For(_, _, _, _) => NeatFor(st, s);
      case Switch(_, _, _, _) => NeatSwitch(st, s);
      case Break => PutClean(st, Br(Top(st.breaks)));
      case Continue => PutClean(st, Br(Top(st.continues)));
      case Return(None) => PutClean(st, Ret(if st.isVoid then Nothing else Zero));
      case Return(Some(e)) => NeatReturn(st, e);
      case _ =>
    }
  }

  lemma NeatReturn(st: Builder, e: Expr)
    requires Sane(st) && AllClean(st.blocks) && (if st.isVoid then !e.lowers.Failure? else e.lowers.Value?)
    ensures AllClean(Lower(st, Return(Some(e))).st.blocks) <==> Open(st)
    ensures !Open(Lower(st, Return(Some(e))).st)
  {
    hide AllClean;
    PutClean(st, Compute(e.id, e.silent));
    PutClean(PutExpr(st, e), Ret(if st.isVoid then Nothing else LastValue));
  }

  lemma {:induction false} NeatList(st: Builder, l: Stmts)
    requires Sane(st) && SupportedList(l, false, st.breaks != [], st.continues != [], st.isVoid) && AllClean(st.blocks)
    ensures AllClean(LowerList(st, l).blocks) <==> TidyList(l, Open(st))
    ensures TidyList(l, Open(st)) ==> Open(LowerList(st, l)) == AfterList(l, Open(st))
    decreases l, 0
  {
    hide AllClean, Sane, Keeps, Own, Lower;
    if l.Cons? {
      var st1 := Lower(st, l.head).st;
      Neat(st, l.head);
      LowerSupported(st, l.head, st.breaks != [], st.continues != []);
      if Tidy(l.head, Open(st)) {
        NeatList(st1, l.tail);
      } else if AllClean(LowerList(st, l).blocks) {
        ListKeeps(st1, l.tail);
        CleanDown(st1.blocks, Own(st1), LowerList(st1, l.tail));
      }
    }
  }

  lemma {:induction false} NeatIf(st: Builder, s: Stmt)
    requires s.If? && Sane(st) && Supported(s, st.breaks != [], st.continues != [], st.isVoid) && AllClean(st.blocks)
    ensures AllClean(Lower(st, s).st.blocks) <==> Tidy(s, Open(st))
    ensures Open(Lower(st, s).st)
    decreases s, 0
  {
    hide AllClean, Sane, Keeps, Own, Lower, BranchIfOpen, IfEntry, Holds;
    var n, st1 := |st.blocks|, IfEntry(st, s.cond);
    HoldsSelf(Lower(st, s).st.blocks);
    IfShape(Everything(Lower(st, s).st.blocks), st, s, st.breaks != [], st.continues != []);
    IfClean(st, s.cond);
    var r1 := Lower(st1, s.thn).st;
    var st2 := At(BranchIfOpen(r1, n + 2), n + 1);
    var r2 := Lower(st2, s.els).st;
    BranchClean(r1, n + 2);
    BranchClean(r2, n + 2);
    LowerKeeps(st1, s.thn);
    LowerKeeps(st2, s.els);
    if AllClean(r2.blocks) { CleanDown(st2.blocks, Own(st2), r2); }
    if AllClean(r1.blocks) { CleanDown(st1.blocks, Own(st1), r1); }
    if AllClean(st1.blocks) {
      Neat(st1, s.thn);
      if AllClean(r1.blocks) { Neat(st2, s.els); }
    }
  }

  lemma EmptyOpen(st: Builder)
    ensures Here(st) == [] ==> Open(st)
  {
  }

  lemma IfClean(st: Builder, cond: Expr)
    requires Sane(st) && cond.lowers.Value?
    ensures AllClean(IfEntry(st, cond).blocks) <==> AllClean(st.blocks) && Open(st)
  {
    hide AllClean;
    EntryClean(st, cond, 3, CondBr(|st.blocks|, |st.blocks| + 1));
  }

  lemma {:induction false} NeatWhile(st: Builder, s: Stmt)
    requires (s.While? || s.DoWhile?) && IsValue(s.test)
    requires Sane(st) && Supported(s.loopBody, true, true, st.isVoid) && AllClean(st.blocks)
    ensures AllClean(Lower(st, s).st.blocks) <==> Tidy(s, Open(st))
    ensures Open(Lower(st, s).st)
    decreases s, 0
  {
    hide AllClean, Sane, Lower, BranchIfOpen, Supported, After, InBody, Open;
    var n := |st.blocks|;
    WhileBody(st, s);
    NeatLoopBody(InBody(st, s), s.loopBody, n);
  }

  /** The builder at the start of the body of a while. */
  ghost function InBody(st: Builder, s: Stmt): Builder
    requires s.While? || s.DoWhile?
  {
    var n := |st.blocks|;
    At(PutTest(LoopTest(st, 3, n + 2, n, if s.DoWhile? then n + 1 else n), s.test, n + 1, n + 2).st, n + 1)
  }

  /** The body of a while starts in an empty block, and the rest of it is clean if the while starts in an
      open one. */
  lemma {:induction false} WhileBody(st: Builder, s: Stmt)
    requires (s.While? || s.DoWhile?) && IsValue(s.test) && Sane(st) && Supported(s.loopBody, true, true, st.isVoid)
    ensures var n, bodySt := |st.blocks|, InBody(st, s);
            && Sane(bodySt) && Here(bodySt) == [] && bodySt.isVoid == st.isVoid
            && bodySt.breaks != [] && bodySt.continues != []
            && (AllClean(bodySt.blocks) <==> AllClean(st.blocks) && Open(st))
            && Lower(st, s).st.blocks == BranchIfOpen(Lower(bodySt, s.loopBody).st, n).blocks
            && Open(Lower(st, s).st)
  {
    hide AllClean, Sane, Keeps, Own, Lower, BranchIfOpen, PutTest, LoopTest, Holds, Terminated, Code,
         Supported, LabelsFit, After;
    var n := |st.blocks|;
    var first := if s.DoWhile? then n + 1 else n;
    HoldsSelf(Lower(st, s).st.blocks);
    WhileForm(st, s);
    LoopEntryClean(st, 3, n + 2, n, first, s.test, n + 1, n + 2);
    var l := WhileShape(Everything(Lower(st, s).st.blocks), st, s);
    LoopStart(st, 3, n + 2, n, first);
    TestVoid(l.testSt, s.test, n + 1, n + 2);
    assert l.testSt.blocks[n + 1] == [];
    TestAndBody(l.testSt, s.test, s.loopBody, n + 1, n + 2, n);
    EmptyOpen(Lower(st, s).st);
  }

  lemma {:induction false} NeatLoopBody(st: Builder, body: Stmt, t: nat)
    requires Sane(st) && Here(st) == [] && Supported(body, true, true, st.isVoid) && st.breaks != []
             && st.continues != []
    ensures AllClean(BranchIfOpen(Lower(st, body).st, t).blocks) <==> AllClean(st.blocks) && Tidy(body, true)
    decreases body, 2
  {
    hide AllClean, Sane, Keeps, Own, Lower, BranchIfOpen;
    LowerSupported(st, body, true, true);
    var st1 := Lower(st, body).st;
    BranchClean(st1, t);
    if AllClean(st1.blocks) { CleanDown(st.blocks, Own(st), st1); }
    if AllClean(st.blocks) { Neat(st, body); }
  }

  lemma {:induction false} NeatFor(st: Builder, s: Stmt)
    requires s.For? && Sane(st) && Supported(s, st.breaks != [], st.continues != [], st.isVoid) && AllClean(st.blocks)
    ensures AllClean(Lower(st, s).st.blocks) <==> Tidy(s, Open(st))
    ensures Open(Lower(st, s).st)
    decreases s, 0
  {
    hide AllClean, Sane, Lower, BranchIfOpen, Supported, After, InForBody, Open, LabelsFit;
    ForSupported(s, st.breaks != [], st.continues != [], st.isVoid);
    Neat(st, s.init);
    ForBody(st, s);
    ForEnd(st, s);
    NeatLoopBody(InForBody(st, s), s.loopBody, |Lower(st, s.init).st.blocks| + 1);
  }

  /** The builder at the start of the body of a for. */
  ghost function InForBody(st: Builder, s: Stmt): Builder
    requires s.For?
  {
    var st1 := Lower(st, s.init).st;
    var n := |st1.blocks|;
    At(PutTest(LoopTest(st1, 4, n + 3, n + 1, n), s.test, n + 2, n + 3).st, n + 2)
  }

  lemma {:induction false} ForBody(st: Builder, s: Stmt)
    requires s.For? && Sane(st) && Supported(s, st.breaks != [], st.continues != [], st.isVoid)
    ensures var st1, bodySt := Lower(st, s.init).st, InForBody(st, s);
            && Sane(st1) && st1.isVoid == st.isVoid
            && Sane(bodySt) && Here(bodySt) == [] && bodySt.isVoid == st.isVoid
            && bodySt.breaks != [] && bodySt.continues != []
            && (AllClean(bodySt.blocks) <==> AllClean(st1.blocks) && Open(st1))
  {
    hide AllClean, Sane, Keeps, Own, Lower, BranchIfOpen, PutTest, LoopTest, LabelsFit, Terminated, Code, Supported;
    var st1 := Lower(st, s.init).st;
    var n := |st1.blocks|;
    ForSupported(s, st.breaks != [], st.continues != [], st.isVoid);
    LowerSupported(st, s.init, st.breaks != [], st.continues != []);
    LoopEntryClean(st1, 4, n + 3, n + 1, n, s.test, n + 2, n + 3);
    LoopStart(st1, 4, n + 3, n + 1, n);
    var testSt := LoopTest(st1, 4, n + 3, n + 1, n);
    TestVoid(testSt, s.test, n + 2, n + 3);
    assert testSt.blocks[n + 2] == [];
    TestAndBody(testSt, s.test, s.loopBody, n + 2, n + 3, n + 1);
  }

  /** What follows the body is clean, and the end block is open. */
  lemma {:induction false} ForEnd(st: Builder, s: Stmt)
    requires s.For? && Sane(st) && Supported(s, st.breaks != [], st.continues != [], st.isVoid)
    ensures var n := |Lower(st, s.init).st.blocks|;
            AllClean(Lower(st, s).st.blocks)
            <==> AllClean(BranchIfOpen(Lower(InForBody(st, s), s.loopBody).st, n + 1).blocks)
    ensures Open(Lower(st, s).st)
  {
    hide AllClean, Sane, Keeps, Own, Lower, BranchIfOpen, PutTest, LoopTest, Holds, StepExpr, LabelsFit, Terminated,
         Code, Supported, Built;
    var st1 := Lower(st, s.init).st;
    var n := |st1.blocks|;
    ForSupported(s, st.breaks != [], st.continues != [], st.isVoid);
    LowerSupported(st, s.init, st.breaks != [], st.continues != []);
    HoldsSelf(Lower(st, s).st.blocks);
    ForForm(st, s);
    var l := ForShape(Everything(Lower(st, s).st.blocks), st, s);
    BuiltExit(Everything(Lower(st, s).st.blocks), l);
    EmptyOpen(Lower(st, s).st);
    StepStart(st1, s);
    StepClean(At(BranchIfOpen(Lower(InForBody(st, s), s.loopBody).st, n + 1), n + 1), s.incr, n);
  }

  lemma BuiltExit(p: Program, l: Loop)
    requires Built(p, l)
    ensures Here(l.exit) == []
  {
  }

  /** After the body the increment block is still empty. */
  lemma StepStart(st1: Builder, s: Stmt)
    requires s.For? && Sane(st1) && IsValue(s.test) && Supported(s.loopBody, true, true, st1.isVoid)
    ensures var n := |st1.blocks|;
            var bodySt := At(PutTest(LoopTest(st1, 4, n + 3, n + 1, n), s.test, n + 2, n + 3).st, n + 2);
            var stepSt := At(BranchIfOpen(Lower(bodySt, s.loopBody).st, n + 1), n + 1);
            Sane(stepSt) && Here(stepSt) == []
  {
    hide Sane, Keeps, Own, Lower, BranchIfOpen, PutTest, LoopTest, LabelsFit, Terminated, Code, Supported;
    var n := |st1.blocks|;
    LoopStart(st1, 4, n + 3, n + 1, n);
    var testSt := LoopTest(st1, 4, n + 3, n + 1, n);
    TestVoid(testSt, s.test, n + 2, n + 3);
    assert testSt.blocks[n + 2] == [] && testSt.blocks[n + 1] == [];
    TestAndBody(testSt, s.test, s.loopBody, n + 2, n + 3, n + 1);
    var bodySt := At(PutTest(testSt, s.test, n + 2, n + 3).st, n + 2);
    MoveTo(bodySt.blocks, Own(bodySt), BranchIfOpen(Lower(bodySt, s.loopBody).st, n + 1), n + 1);
  }

  lemma StepClean(st: Builder, incr: Option<Expr>, t: nat)
    requires Sane(st) && Here(st) == []
    ensures AllClean(BranchIfOpen(StepExpr(st, incr), t).blocks) <==> AllClean(st.blocks)
  {
    hide AllClean;
    if incr.Some? { PutClean(st, Compute(incr.value.id, incr.value.silent)); }
    BranchClean(StepExpr(st, incr), t);
  }

  lemma {:induction false} NeatSwitch(st: Builder, s: Stmt)
    requires s.Switch? && Sane(st) && AllClean(st.blocks) && s.cond.lowers.Value?
    requires OneDefault(s.body) && SupportedList(s.body, true, true, st.continues != [], st.isVoid)
    ensures AllClean(Lower(st, s).st.blocks) <==> Tidy(s, Open(st))
    ensures Open(Lower(st, s).st)
    decreases s, 0
  {
    hide AllClean, Sane, Keeps, Own, Lower, LowerBody, SwitchEntry, SwitchClose, LabelsReady, Holds, Terminated, Code,
         SupportedList, OneDefault, CountCases, HasDefault, Dedup, CollectCases, LabelBlocks, BranchIfOpen;
    var n, st1 := |st.blocks|, SwitchEntry(st, s);
    var st2 := LowerBody(st1, s.body, n + 2, n + 1);
    HoldsSelf(Lower(st, s).st.blocks);
    SwitchStart(st, s);
    SwitchShape(Everything(Lower(st, s).st.blocks), st, s);
    LowerIsSwitch(st, s);
    SwitchClean(st, s);
    BodyAllKeeps(st1, s.body, n + 2, n + 1);
    CloseClean(st2, s.body, n);
    EmptyOpen(Lower(st, s).st);
    if AllClean(st2.blocks) { CleanDown(st1.blocks, Span(0, |st1.blocks|), st2); }
    if AllClean(st1.blocks) {
      NeatBody(st1, s.body, n + 2, n + 1);
    }
  }

  lemma BodyAllKeeps(st: Builder, l: Stmts, next: nat, dflt: nat)
    requires Sane(st) && dflt < |st.blocks| && next + CountCases(l) <= |st.blocks|
    ensures Keeps(st.blocks, Span(0, |st.blocks|), LowerBody(st, l, next, dflt))
    ensures |st.blocks| <= |LowerBody(st, l, next, dflt).blocks|
  {
    KeepsAll(st, Span(0, |st.blocks|));
    BodyKeeps(st.blocks, Span(0, |st.blocks|), st, l, next, dflt);
  }

  lemma {:induction false} SwitchClean(st: Builder, s: Stmt)
    requires Sane(st) && s.Switch? && s.cond.lowers.Value?
    ensures AllClean(SwitchEntry(st, s).blocks) <==> AllClean(st.blocks) && Open(st)
    ensures !Open(SwitchEntry(st, s))
  {
    hide AllClean, Sane, Terminated, Put, PutExpr, AddBlocks, Dedup, CollectCases, CountCases;
    var k := 2 + CountCases(s.body);
    var i := SwitchBr(s.width, Dedup(CollectCases(s.body, |st.blocks| + 2, s.width), {}), |st.blocks| + 1);
    EntryClean(st, s.cond, k, i);
    EntrySane(st, s.cond, k);
    PutClean(AddBlocks(PutExpr(st, s.cond), k), i);
  }

  lemma EntrySane(st: Builder, e: Expr, k: nat)
    requires Sane(st)
    ensures Sane(AddBlocks(PutExpr(st, e), k))
  {
  }

  lemma {:induction false} NeatBody(st: Builder, l: Stmts, next: nat, dflt: nat)
    requires Sane(st) && OneDefault(l) && AllClean(st.blocks)
    requires SupportedList(l, true, st.breaks != [], st.continues != [], st.isVoid)
    requires dflt < next && next + CountCases(l) <= |st.blocks| && LabelsReady(st, l, next, dflt)
    ensures AllClean(LowerBody(st, l, next, dflt).blocks) <==> TidyBody(l, Open(st))
    decreases l, 0
  {
    hide AllClean, Sane, Keeps, Own, Lower, LabelsReady, BranchIfOpen, Supported;
    if l.Cons? {
      if l.head.Case? || l.head.Default? {
        var b := if l.head.Case? then next else dflt;
        LabelStep(st, l, next, dflt);
        BranchClean(st, b);
        NeatBody(At(BranchIfOpen(st, b), b), l.tail, if l.head.Case? then next + 1 else next, dflt);
      } else {
        var st1 := Lower(st, l.head).st;
        StatementStep(st, l, next, dflt);
        Neat(st, l.head);
        BodyAllKeeps(st1, l.tail, next, dflt);
        if Tidy(l.head, Open(st)) {
          NeatBody(st1, l.tail, next, dflt);
        } else if AllClean(LowerBody(st1, l.tail, next, dflt).blocks) {
          CleanDown(st1.blocks, Span(0, |st1.blocks|), LowerBody(st1, l.tail, next, dflt));
        }
      }
    }
  }

  lemma SealedTerminated(block: Block, b: nat, isVoid: bool)
    ensures Terminated(SealedBlock(block, b, isVoid))
  {
    Appended(block, if b == 0 then DefaultReturn(isVoid) else Unreachable);
  }

  /** What sealing adds goes nowhere. */
  lemma SealedTarget(block: Block, b: nat, isVoid: bool, i: nat, t: nat, n: nat)
    requires ProperBlock(block, n) && i < |SealedBlock(block, b, isVoid)|
             && t in Targets(SealedBlock(block, b, isVoid)[i])
    ensures t < n
  {
    hide Terminated;
    if i < |block| { assert ProperInstr(block[i], n); }
  }

  /** For any body, failing statements and gotos included: after the clean-up the entry block is there,
      every block ends in a terminator, and every branch goes to a block that was not deleted; and of the
      blocks that lowering left exactly those without code or use have been deleted. */
  lemma CleanedUp(isVoid: bool, body: Stmts)
    ensures var p, blocks := Emitted(isVoid, body), LowerFunction(isVoid, body).blocks;
            forall b: nat :: b in p <==> b < |blocks| && (b == 0 || Code(blocks[b]) != [] || Used(blocks, b))
    ensures var p := Emitted(isVoid, body);
            && 0 in p
            && (forall b :: b in p ==> Terminated(p[b]))
            && (forall b, i, t :: b in p && 0 <= i < |p[b]| && t in Targets(p[b][i]) ==> t in p)
  {
    hide Proper, ProperBlock, Terminated, Code, LowerFunction, SealedBlock, Targets;
    var st := LowerFunction(isVoid, body);
    var s := Sealed(st.blocks, isVoid);
    var p := Live(s);
    FunctionProper(isVoid, body);
    EntryAlive(s);
    forall b: nat
      ensures b in p <==> b < |st.blocks| && (b == 0 || Code(st.blocks[b]) != [] || Used(st.blocks, b))
    {
      if b < |st.blocks| {
        NoUnreachable(st.blocks);
        DeletedExactly(st.blocks, isVoid, b);
      }
    }
    forall b | b in p ensures Terminated(p[b]) { SealedTerminated(st.blocks[b], b, isVoid); }
    forall b, i, t | b in p && 0 <= i < |p[b]| && t in Targets(p[b][i]) ensures t in p {
      SealedTarget(st.blocks[b], b, isVoid, i, t, |st.blocks|);
      assert t in Targets(s[b][i]);
      assert Used(s, t);
    }
  }

  lemma NoUnreachable(blocks: seq<Block>)
    requires forall b :: 0 <= b < |blocks| ==> ProperBlock(blocks[b], |blocks|)
    ensures forall c, k :: 0 <= c < |blocks| && 0 <= k < |blocks[c]| ==> blocks[c][k] != Unreachable
  {
    forall c, k | 0 <= c < |blocks| && 0 <= k < |blocks[c]| ensures blocks[c][k] != Unreachable {
      assert ProperInstr(blocks[c][k], |blocks|);
    }
  }

  lemma FunctionProper(isVoid: bool, body: Stmts)
    ensures var st := LowerFunction(isVoid, body);
            st.blocks != [] && forall b :: 0 <= b < |st.blocks| ==> ProperBlock(st.blocks[b], |st.blocks|)
  {
    var st := LowerList(Start(isVoid), body);
    ListProper(Start(isVoid), body);
    PutProper(st, DefaultReturn(isVoid));
  }

  lemma SealClean(block: Block, b: nat, isVoid: bool)
    ensures Clean(SealedBlock(block, b, isVoid)) <==> Clean(block)
  {
    AppendClean(block, DefaultReturn(isVoid));
    AppendClean(block, Unreachable);
  }

  lemma {:induction false} FunctionClean(isVoid: bool, body: Stmts)
    requires SupportedList(body, false, false, false, isVoid)
    ensures AllClean(LowerFunction(isVoid, body).blocks) <==> TidyList(body, true)
  {
    hide AllClean, LowerList, Keeps, Own;
    var st0, st := Start(isVoid), LowerList(Start(isVoid), body);
    StartClean(isVoid);
    NeatList(st0, body);
    ListKeeps(st0, body);
    KeepsSize(st0.blocks, Own(st0), st);
    PutClean(st, DefaultReturn(isVoid));
  }

  lemma StartClean(isVoid: bool)
    ensures AllClean(Start(isVoid).blocks) && Sane(Start(isVoid)) && Open(Start(isVoid))
  {
  }

  lemma SealedWellFormed(block: Block, b: nat, isVoid: bool)
    ensures WellFormed(SealedBlock(block, b, isVoid)) <==> Clean(block)
  {
    hide Clean, Terminated, SealedBlock;
    SealClean(block, b, isVoid);
    SealedTerminated(block, b, isVoid);
  }

  /** Sealing and deleting blocks neither spoils nor hides a block. */
  lemma LiveClean(blocks: seq<Block>, isVoid: bool)
    requires forall b :: 0 <= b < |blocks| ==> ProperBlock(blocks[b], |blocks|)
    ensures AllWellFormed(Live(Sealed(blocks, isVoid))) <==> AllClean(blocks)
  {
    hide Clean, WellFormed, Terminated, Code, SealedBlock, ProperBlock;
    var p := Live(Sealed(blocks, isVoid));
    forall b | 0 <= b < |blocks|
      ensures b in p ==> (WellFormed(p[b]) <==> Clean(blocks[b]))
      ensures b !in p ==> Clean(blocks[b])
    {
      SealedWellFormed(blocks[b], b, isVoid);
      if b !in p { DeadClean(blocks[b], b, isVoid, |blocks|); }
    }
  }

  lemma DeadClean(block: Block, b: nat, isVoid: bool, n: nat)
    requires ProperBlock(block, n)
    requires Code(SealedBlock(block, b, isVoid)) != [] && Code(SealedBlock(block, b, isVoid))[0] == Unreachable
    ensures Clean(block)
  {
    assert forall k :: 0 <= k < |block| ==> ProperInstr(block[k], n);
    UnreachableFirst(block, b, isVoid);
  }

  /** The emitted function is well formed exactly when no statement that emits code follows a jump. */
  lemma FunctionWellFormed(isVoid: bool, body: Stmts)
    requires SupportedList(body, false, false, false, isVoid)
    ensures AllWellFormed(Emitted(isVoid, body)) <==> TidyList(body, true)
  {
    hide AllClean, AllWellFormed, LowerFunction, Sealed, Live, ProperBlock, TidyList, SupportedList;
    FunctionClean(isVoid, body);
    FunctionProper(isVoid, body);
    LiveClean(LowerFunction(isVoid, body).blocks, isVoid);
  }

  /** A loop whose body is a break and an expression. */
  function BreakThen(e: Expr): Stmts {
    Cons(While(None, Compound(Cons(Break, Cons(Eval(e), Nil)))), Nil)
  }

  /** One more statement in front of a list. */
  lemma {:induction false} ConsSupported(s: Stmt, t: Stmts, brk: bool, cont: bool, isVoid: bool)
    requires Supported(s, brk, cont, isVoid) && SupportedList(t, false, brk, cont, isVoid)
    ensures SupportedList(Cons(s, t), false, brk, cont, isVoid)
  {
    hide Supported, LabelsFit;
  }

  lemma {:induction false} ConsTidy(s: Stmt, t: Stmts, live: bool)
    ensures TidyList(Cons(s, t), live) <==> Tidy(s, live) && TidyList(t, After(s, live))
  {
    hide Tidy, After;
  }

  lemma NilTidy(brk: bool, cont: bool, isVoid: bool, live: bool)
    ensures SupportedList(Nil, false, brk, cont, isVoid) && TidyList(Nil, live)
  {
  }

  lemma {:induction false} LoopSupported(l: Stmts, brk: bool, cont: bool, isVoid: bool)
    requires SupportedList(l, false, true, true, isVoid)
    ensures Supported(While(None, Compound(l)), brk, cont, isVoid)
  {
    hide LabelsFit, SupportedList;
    assert Supported(Compound(l), true, true, isVoid);
  }

  lemma {:induction false} LoopTidy(l: Stmts)
    ensures Tidy(While(None, Compound(l)), true) == TidyList(l, true)
  {
    hide TidyList;
    assert Tidy(Compound(l), true) == TidyList(l, true);
  }

  lemma StepsTidy(e: Expr, isVoid: bool)
    ensures Supported(Eval(e), true, true, isVoid) <==> !e.lowers.Failure?
    ensures Tidy(Eval(e), false) <==> e.silent
    ensures Supported(Break, true, true, isVoid) && Tidy(Break, true) && !After(Break, true)
  {
    hide LabelsFit, SupportedList, TidyList;
  }

  lemma BreakThenTidy(isVoid: bool, e: Expr)
    requires !e.lowers.Failure?
    ensures SupportedList(BreakThen(e), false, false, false, isVoid) && (TidyList(BreakThen(e), true) <==> e.silent)
  {
    hide Supported, SupportedList, Tidy, TidyList, After;
    var rest := Cons(Eval(e), Nil);
    var loop := While(None, Compound(Cons(Break, rest)));
    StepsTidy(e, isVoid);
    NilTidy(true, true, isVoid, After(Eval(e), false));
    ConsSupported(Eval(e), Nil, true, true, isVoid);
    ConsTidy(Eval(e), Nil, false);
    ConsSupported(Break, rest, true, true, isVoid);
    ConsTidy(Break, rest, true);
    LoopSupported(Cons(Break, rest), false, false, isVoid);
    LoopTidy(Cons(Break, rest));
    NilTidy(false, false, isVoid, After(loop, true));
    ConsSupported(loop, Nil, false, false, isVoid);
    ConsTidy(loop, Nil, true);
  }

  /** The expression's code, if it has any, lands behind the terminator of the loop body's block. */
  lemma CodeAfterJump(isVoid: bool, e: Expr)
    requires !e.lowers.Failure?
    ensures AllWellFormed(Emitted(isVoid, BreakThen(e))) <==> e.silent
  {
    hide *;
    BreakThenTidy(isVoid, e);
    FunctionWellFormed(isVoid, BreakThen(e));
  }
}
