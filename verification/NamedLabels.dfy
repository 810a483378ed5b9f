/** Named labels: in one function every goto and every label with the same name meet in one block, whichever
    is lowered first, and different names never meet. */
module NamedLabels {
  import opened CStatements
  import opened Options
  import opened BlockMachine
  import opened LowerSpec
  import opened LowerFacts
  import opened Functions
  import opened Shapes

  /** A name, and the block that a goto branches to or a labelled statement is put in. */
  type Use = (string, nat)

  /** The target of the branch just emitted. */
  ghost function BranchedTo(st: Builder): nat {
    var b := Here(st);
    if b != [] && b[|b| - 1].Br? then b[|b| - 1].target else 0
  }

  /** All uses of names in a statement lowered from st, as lowering comes to them. */
  ghost function Uses(st: Builder, s: Stmt): set<Use>
    decreases s, 1
  {
    match s
    case Compound(l) => ListUses(st, l)
    case If(_, _, _) => IfUses(st, s)
    case While(_, body) => if WhileEntry(st, s).ok then Uses(WhileEntry(st, s).st, body) else {}
    case DoWhile(body, _) => if WhileEntry(st, s).ok then Uses(WhileEntry(st, s).st, body) else {}
    case For(_, _, _, _) => ForUses(st, s)
    case Switch(_, _, _, body) =>
      if s.cond.lowers.Value? then BodyUses(SwitchEntry(st, s), body, |st.blocks| + 2, |st.blocks| + 1) else {}
    case Goto(name) => if name == "" then {} else {(name, BranchedTo(Lower(st, s).st))}
    case Labeled(name, inner) =>
      if name == "" then Uses(st, inner)
      else {(name, LabelEntry(st, name).cur)} + Uses(LabelEntry(st, name), inner)
    case _ => {}
  }

  ghost function IfUses(st: Builder, s: Stmt): set<Use>
    requires s.If?
    decreases s, 0
  {
    if !s.cond.lowers.Value? then {}
    else
      var r := Lower(IfEntry(st, s.cond), s.thn);
      Uses(IfEntry(st, s.cond), s.thn) +
      if r.ok then Uses(At(BranchIfOpen(r.st, |st.blocks| + 2), |st.blocks| + 1), s.els) else {}
  }

  ghost function ForUses(st: Builder, s: Stmt): set<Use>
    requires s.For?
    decreases s, 0
  {
    var r := Lower(st, s.init);
    Uses(st, s.init) +
    if r.ok && ForEntry(r.st, s.test).ok then Uses(ForEntry(r.st, s.test).st, s.loopBody) else {}
  }

  ghost function ListUses(st: Builder, l: Stmts): set<Use>
    decreases l, 0
  {
    match l
    case Nil => {}
    case Cons(s, t) => Uses(st, s) + ListUses(Lower(st, s).st, t)
  }

  ghost function BodyUses(st: Builder, l: Stmts, next: nat, dflt: nat): set<Use>
    decreases l, 0
  {
    match l
    case Nil => {}
    case Cons(s, t) =>
      if s.Case? then BodyUses(At(BranchIfOpen(st, next), next), t, next + 1, dflt)
      else if s.Default? then BodyUses(At(BranchIfOpen(st, dflt), dflt), t, next, dflt)
      else Uses(st, s) + BodyUses(Lower(st, s).st, t, next, dflt)
  }

  /** Every name has its own block. */
  ghost predicate Apart(st: Builder) {
    && Sane(st)
    && forall m, n :: m in st.labels && n in st.labels && st.labels[m] == st.labels[n] ==> m == n
  }

  /** Labels only get added, each still with its own block. */
  ghost predicate Grown(st: Builder, r: Builder) {
    Apart(r) && forall n :: n in st.labels ==> n in r.labels && r.labels[n] == st.labels[n]
  }

  ghost predicate Agree(uses: set<Use>, r: Builder) {
    forall u :: u in uses ==> u.0 in r.labels && r.labels[u.0] == u.1
  }

  lemma GrownTrans(a: Builder, b: Builder, c: Builder, uses: set<Use>, more: set<Use>)
    requires Grown(a, b) && Grown(b, c) && Agree(uses, b) && Agree(more, c)
    ensures Grown(a, c) && Agree(uses + more, c)
  {
  }

  /** A step that leaves the labels alone. */
  lemma SameLabels(st: Builder, r: Builder)
    requires Apart(st) && Sane(r) && r.labels == st.labels
    ensures Grown(st, r) && Agree({}, r)
  {
  }

  lemma CloseAllLabels(st: Builder, bs: seq<nat>, end: nat)
    ensures CloseAll(st, bs, end).labels == st.labels
    decreases bs
  {
  }

  lemma GotoUse(st: Builder, name: string)
    requires Apart(st) && name != ""
    ensures Grown(st, Lower(st, Goto(name)).st) && Agree(Uses(st, Goto(name)), Lower(st, Goto(name)).st)
  {
    hide Keeps, Own, AddBlocks;
    LowerKeeps(st, Goto(name));
    KeepsSize(st.blocks, Own(st), Lower(st, Goto(name)).st);
    var st1 := BlockOfLabel(st, name);
    AddLabels(st, 1);
    NewBlock(st);
    assert Here(Put(st1, Br(st1.labels[name]))) == Here(st1) + [Br(st1.labels[name])];
  }

  lemma NewBlock(st: Builder)
    ensures |AddBlocks(st, 1).blocks| == |st.blocks| + 1 && AddBlocks(st, 1).cur == st.cur
  {
  }

  lemma LabelUse(st: Builder, name: string)
    requires Apart(st)
    ensures Grown(st, LabelEntry(st, name)) && Agree({(name, LabelEntry(st, name).cur)}, LabelEntry(st, name))
  {
  }

  /** Whatever a statement is made of, its uses agree with the labels it leaves. */
  lemma {:induction false} UsesAgree(st: Builder, s: Stmt)
    requires Apart(st)
    ensures Grown(st, Lower(st, s).st) && Agree(Uses(st, s), Lower(st, s).st)
    decreases s, 1
  {
    hide Apart, Grown, Agree, Sane, Keeps, Own, WhileEntry, ForEntry, ForStep, SwitchEntry, SwitchExit, IfEntry,
         PutTest, Put, BranchIfOpen;
    ApartSane(st);
    LowerKeeps(st, s);
    KeepsSize(st.blocks, Own(st), Lower(st, s).st);
    match s
    case Compound(l) => ListUsesAgree(st, l);
    case If(_, _, _) => IfUsesAgree(st, s);
    case While(_, _) => WhileUsesAgree(st, s);
    case DoWhile(_, _) => WhileUsesAgree(st, s);
    case For(_, _, _, _) => ForUsesAgree(st, s);
    case Switch(_, _, _, _) => SwitchUsesAgree(st, s);
    case Goto(name) => if name != "" { GotoUse(st, name); } else { SameLabels(st, st); }
    case Labeled(name, inner) =>
      if name == "" {
        UsesAgree(st, inner);
      } else {
        LabelUse(st, name);
        GrownApart(st, LabelEntry(st, name));
        UsesAgree(LabelEntry(st, name), inner);
        GrownTrans(st, LabelEntry(st, name), Lower(st, s).st, {(name, LabelEntry(st, name).cur)},
                   Uses(LabelEntry(st, name), inner));
      }
    case _ =>
      PlainLabels(st, s);
      SameLabels(st, Lower(st, s).st);
  }

  lemma ApartSane(st: Builder)
    requires Apart(st)
    ensures Sane(st)
  {
  }

  lemma GrownApart(st: Builder, r: Builder)
    requires Grown(st, r)
    ensures Apart(r) && Sane(r)
  {
  }

  lemma PlainLabels(st: Builder, s: Stmt)
    requires s.Empty? || s.Eval? || s.Case? || s.Default? || s.Break? || s.Continue? || s.Return?
    ensures Lower(st, s).st.labels == st.labels && Uses(st, s) == {}
  {
  }

  /** The fixed parts of compound forms name no labels. */
  lemma EntryLabels(st: Builder, s: Stmt)
    ensures s.If? ==> IfEntry(st, s.cond).labels == st.labels
    ensures s.While? || s.DoWhile? ==> WhileEntry(st, s).st.labels == st.labels
    ensures s.For? ==> ForEntry(st, s.test).st.labels == st.labels
    ensures s.Switch? ==> SwitchEntry(st, s).labels == st.labels
  {
    hide PutTest, Put, PutExpr, CollectCases, Dedup, AddBlocks;
    var n := |st.blocks|;
    match s
    case If(cond, _, _) =>
      ExprLabels(st, cond);
      PutLabels(AddBlocks(PutExpr(st, cond), 3), CondBr(n, n + 1));
      AddLabels(PutExpr(st, cond), 3);
    case While(test, _) =>
      AddLabels(st, 3);
      PutLabels(PushTargets(AddBlocks(st, 3), n + 2, n), Br(n));
      TestLabels(At(Put(PushTargets(AddBlocks(st, 3), n + 2, n), Br(n)), n), test, n + 1, n + 2);
    case DoWhile(_, test) =>
      AddLabels(st, 3);
      PutLabels(PushTargets(AddBlocks(st, 3), n + 2, n), Br(n + 1));
      TestLabels(At(Put(PushTargets(AddBlocks(st, 3), n + 2, n), Br(n + 1)), n), test, n + 1, n + 2);
    case For(_, test, _, _) =>
      AddLabels(st, 4);
      PutLabels(PushTargets(AddBlocks(st, 4), n + 3, n + 1), Br(n));
      TestLabels(At(Put(PushTargets(AddBlocks(st, 4), n + 3, n + 1), Br(n)), n), test, n + 2, n + 3);
    case Switch(cond, w, _, body) =>
      var k := 2 + CountCases(body);
      ExprLabels(st, cond);
      AddLabels(PutExpr(st, cond), k);
      PutLabels(AddBlocks(PutExpr(st, cond), k), SwitchBr(w, Dedup(CollectCases(body, n + 2, w), {}), n + 1));
    case _ =>
  }

  lemma PutLabels(st: Builder, i: Instr)
    ensures Put(st, i).labels == st.labels
  {
  }

  lemma AddLabels(st: Builder, n: nat)
    ensures AddBlocks(st, n).labels == st.labels
  {
  }

  lemma TestLabels(st: Builder, test: Option<Expr>, body: nat, end: nat)
    ensures PutTest(st, test, body, end).st.labels == st.labels
  {
  }

  lemma ExitLabels(st: Builder, t: nat, b: nat, incr: Option<Expr>, body: Stmts)
    ensures At(BranchIfOpen(st, t), b).labels == st.labels
    ensures At(PopTargets(BranchIfOpen(st, t)), b).labels == st.labels
    ensures ForStep(st, incr, t).st.labels == st.labels
            && At(PopTargets(ForStep(st, incr, t).st), b).labels == st.labels
    ensures SwitchExit(st, body, t).labels == st.labels
  {
    hide BranchIfOpen, PutExpr, Open, CloseAll;
    assert forall s: Builder, c: nat :: BranchIfOpen(s, c).labels == s.labels by {
      forall s: Builder, c: nat ensures BranchIfOpen(s, c).labels == s.labels { BranchLabels(s, c); }
    }
    if incr.Some? { ExprLabels(At(BranchIfOpen(st, t + 1), t + 1), incr.value); }
    var st1 := BranchIfOpen(st, t);
    var st2 := if HasDefault(body) then st1 else BranchIfOpen(At(st1, t + 1), t);
    CloseAllLabels(st2, LabelBlocks(body, t + 2, t + 1), t);
  }

  lemma BranchLabels(st: Builder, t: nat)
    ensures BranchIfOpen(st, t).labels == st.labels
  {
  }

  lemma ExprLabels(st: Builder, e: Expr)
    ensures PutExpr(st, e).labels == st.labels
  {
  }

  lemma {:induction false} ListUsesAgree(st: Builder, l: Stmts)
    requires Apart(st)
    ensures Grown(st, LowerList(st, l)) && Agree(ListUses(st, l), LowerList(st, l))
    decreases l, 0
  {
    hide Apart, Grown, Agree, Lower, Uses;
    ApartSane(st);
    SameLabels(st, st);
    if l.Cons? {
      var st1 := Lower(st, l.head).st;
      UsesAgree(st, l.head);
      GrownApart(st, st1);
      ListUsesAgree(st1, l.tail);
      GrownTrans(st, st1, LowerList(st, l), Uses(st, l.head), ListUses(st1, l.tail));
    }
  }

  /** A fixed step before a part that is lowered, and one after it. */
  lemma Around(st: Builder, before: Builder, after: Builder, r: Builder, uses: set<Use>)
    requires Grown(st, before) && Grown(before, after) && Agree(uses, after)
    requires Sane(r) && r.labels == after.labels
    ensures Grown(st, r) && Agree(uses, r)
  {
  }

  lemma {:induction false} IfUsesAgree(st: Builder, s: Stmt)
    requires Apart(st) && s.If?
    ensures Grown(st, LowerIf(st, s).st) && Agree(IfUses(st, s), LowerIf(st, s).st)
    decreases s, 0
  {
    hide Apart, Grown, Agree, Lower, Uses, IfEntry, Keeps, Own, BranchIfOpen, PutExpr;
    ApartSane(st);
    var n, r := |st.blocks|, LowerIf(st, s).st;
    IfKeeps(st, s);
    KeepsSize(st.blocks, Own(st), r);
    if !s.cond.lowers.Value? {
      ExprLabels(st, s.cond);
      SameLabels(st, r);
    } else {
      var st1 := IfEntry(st, s.cond);
      IfEntryKeeps(st, s.cond);
      KeepsSize(st.blocks, Own(st), st1);
      EntryLabels(st, s);
      SameLabels(st, st1);
      GrownApart(st, st1);
      UsesAgree(st1, s.thn);
      var r1 := Lower(st1, s.thn);
      GrownTrans(st, st1, r1.st, {}, Uses(st1, s.thn));
      assert {} + Uses(st1, s.thn) == Uses(st1, s.thn);
      if r1.ok {
        var st2 := At(BranchIfOpen(r1.st, n + 2), n + 1);
        ExitLabels(r1.st, n + 2, n + 1, None, Nil);
        GrownApart(st, r1.st);
        LowerKeeps(st1, s.thn);
        BranchKeeps(r1.st.blocks, Own(r1.st), r1.st, n + 2) by { KeepsSelf(r1.st); }
        PlacedSane(r1.st, n + 2, n + 1);
        SameLabels(r1.st, st2);
        GrownApart(r1.st, st2);
        UsesAgree(st2, s.els);
        var r2 := Lower(st2, s.els);
        GrownTrans(r1.st, st2, r2.st, {}, Uses(st2, s.els));
        assert {} + Uses(st2, s.els) == Uses(st2, s.els);
        GrownTrans(st, r1.st, r2.st, Uses(st1, s.thn), Uses(st2, s.els));
        ExitLabels(r2.st, n + 2, n + 2, None, Nil);
        SameLabels(st, st);
        Around(st, st, r2.st, r, IfUses(st, s));
      } else {
        assert IfUses(st, s) == Uses(st1, s.thn);
      }
    }
  }

  lemma PlacedSane(st: Builder, t: nat, b: nat)
    requires Sane(st) && b < |st.blocks|
    ensures Sane(At(BranchIfOpen(st, t), b))
  {
  }

  lemma {:induction false} WhileUsesAgree(st: Builder, s: Stmt)
    requires Apart(st) && (s.While? || s.DoWhile?)
    ensures Grown(st, LowerWhile(st, s).st) && Agree(Uses(st, s), LowerWhile(st, s).st)
    decreases s, 0
  {
    hide Apart, Grown, Agree, Lower, WhileEntry, Keeps, Own, BranchIfOpen;
    ApartSane(st);
    var n, r0, r := |st.blocks|, WhileEntry(st, s), LowerWhile(st, s).st;
    WhileKeeps(st, s);
    KeepsSize(st.blocks, Own(st), r);
    WhileEntryKeeps(st, s);
    KeepsSize(st.blocks, Own(st), r0.st);
    EntryLabels(st, s);
    SameLabels(st, r0.st);
    if r0.ok {
      GrownApart(st, r0.st);
      UsesAgree(r0.st, s.loopBody);
      var r1 := Lower(r0.st, s.loopBody).st;
      ExitLabels(r1, n, n + 2, None, Nil);
      Around(st, r0.st, r1, r, Uses(r0.st, s.loopBody));
    }
  }

  lemma {:induction false} ForUsesAgree(st: Builder, s: Stmt)
    requires Apart(st) && s.For?
    ensures Grown(st, LowerFor(st, s).st) && Agree(ForUses(st, s), LowerFor(st, s).st)
    decreases s, 0
  {
    hide Apart, Grown, Agree, Lower, ForEntry, ForStep, Keeps, Own, BranchIfOpen;
    ApartSane(st);
    var r0, r := Lower(st, s.init), LowerFor(st, s).st;
    ForKeeps(st, s);
    KeepsSize(st.blocks, Own(st), r);
    UsesAgree(st, s.init);
    GrownApart(st, r0.st);
    if r0.ok {
      var n, r1 := |r0.st.blocks|, ForEntry(r0.st, s.test);
      ForEntryKeeps(r0.st, s.test);
      KeepsSize(r0.st.blocks, Own(r0.st), r1.st);
      EntryLabels(r0.st, s);
      SameLabels(r0.st, r1.st);
      GrownTrans(st, r0.st, r1.st, Uses(st, s.init), {});
      assert Uses(st, s.init) + {} == Uses(st, s.init);
      if r1.ok {
        GrownApart(r0.st, r1.st);
        UsesAgree(r1.st, s.loopBody);
        var r2 := Lower(r1.st, s.loopBody).st;
        GrownTrans(st, r1.st, r2, Uses(st, s.init), Uses(r1.st, s.loopBody));
        ExitLabels(r2, n, n + 3, s.incr, Nil);
        SameLabels(st, st);
        Around(st, st, r2, r, ForUses(st, s));
      }
    }
    assert !r0.ok || !ForEntry(r0.st, s.test).ok ==> ForUses(st, s) == Uses(st, s.init);
  }

  lemma {:induction false} SwitchUsesAgree(st: Builder, s: Stmt)
    requires Apart(st) && s.Switch?
    ensures Grown(st, LowerSwitch(st, s).st) && Agree(Uses(st, s), LowerSwitch(st, s).st)
    decreases s, 0
  {
    hide Apart, Grown, Agree, Lower, SwitchEntry, SwitchExit, LowerBody, Keeps, Own, PutExpr;
    ApartSane(st);
    var n, r := |st.blocks|, LowerSwitch(st, s).st;
    SwitchKeeps(st, s);
    KeepsSize(st.blocks, Own(st), r);
    if !s.cond.lowers.Value? {
      ExprLabels(st, s.cond);
      SameLabels(st, r);
    } else {
      var st1 := SwitchEntry(st, s);
      SwitchEntryKeeps(st, s);
      KeepsSize(st.blocks, Own(st), st1);
      EntryLabels(st, s);
      SameLabels(st, st1);
      GrownApart(st, st1);
      SwitchEntrySize(st, s);
      BodyUsesAgree(st1, s.body, n + 2, n + 1);
      ExitLabels(LowerBody(st1, s.body, n + 2, n + 1), n, n, None, s.body);
      Around(st, st1, LowerBody(st1, s.body, n + 2, n + 1), r, BodyUses(st1, s.body, n + 2, n + 1));
    }
  }

  lemma SwitchEntrySize(st: Builder, s: Stmt)
    requires s.Switch?
    ensures |SwitchEntry(st, s).blocks| == |st.blocks| + 2 + CountCases(s.body)
  {
  }

  lemma {:induction false} BodyUsesAgree(st: Builder, l: Stmts, next: nat, dflt: nat)
    requires Apart(st) && dflt < |st.blocks| && next + CountCases(l) <= |st.blocks|
    ensures Grown(st, LowerBody(st, l, next, dflt)) && Agree(BodyUses(st, l, next, dflt), LowerBody(st, l, next, dflt))
    decreases l, 0
  {
    hide Apart, Grown, Agree, Lower, Uses, BranchIfOpen;
    ApartSane(st);
    SameLabels(st, st);
    if l.Cons? {
      var r := LowerBody(st, l, next, dflt);
      if l.head.Case? || l.head.Default? {
        var b := if l.head.Case? then next else dflt;
        var st1 := At(BranchIfOpen(st, b), b);
        BranchSize(st, b);
        PlacedSane(st, b, b);
        BranchLabels(st, b);
        SameLabels(st, st1);
        GrownApart(st, st1);
        var next1 := if l.head.Case? then next + 1 else next;
        BodyUsesAgree(st1, l.tail, next1, dflt);
        Around(st, st1, r, r, BodyUses(st1, l.tail, next1, dflt)) by { GrownApart(st1, r); }
      } else {
        var st1 := Lower(st, l.head).st;
        UsesAgree(st, l.head);
        GrownApart(st, st1);
        LowerKeeps(st, l.head);
        BodyUsesAgree(st1, l.tail, next, dflt);
        GrownTrans(st, st1, r, Uses(st, l.head), BodyUses(st1, l.tail, next, dflt));
      }
    }
  }

  lemma BranchSize(st: Builder, t: nat)
    ensures |BranchIfOpen(st, t).blocks| == |st.blocks|
  {
  }

  /** Of all gotos and labels of a function, two meet in one block exactly when they have one name. */
  lemma OneBlockPerName(isVoid: bool, body: Stmts)
    ensures forall u, v :: u in ListUses(Start(isVoid), body) && v in ListUses(Start(isVoid), body) ==>
              (u.0 == v.0 <==> u.1 == v.1)
  {
    hide ListUses, LowerList;
    ListUsesAgree(Start(isVoid), body);
  }

  // ----- running -----

  /** A goto takes the machine to the block of its name. */
  lemma GotoArrives(o: Oracle, p: Program, st: Builder, name: string, h: History)
    requires Apart(st) && name != "" && Holds(p, Lower(st, Goto(name)).st.blocks)
    ensures name in Lower(st, Goto(name)).st.labels
    ensures Steps(o, p, Pos(st, h), 1) == Running(Lower(st, Goto(name)).st.labels[name], 0, h)
  {
    hide Steps;
    var st1 := BlockOfLabel(st, name);
    assert Pos(st1, h) == Pos(st, h);
    RunInstr(o, p, st1, Br(st1.labels[name]), h);
  }

  /** Falling into a labelled statement takes the machine to the block of its name, where the statement goes
      on; that is the start of the block when nothing with the name has been lowered. */
  lemma LabelArrives(o: Oracle, p: Program, st: Builder, name: string, inner: Stmt, h: History)
    requires Apart(st) && name != "" && Open(st) && Holds(p, Lower(st, Labeled(name, inner)).st.blocks)
    ensures var st1, at := Lower(st, Labeled(name, inner)).st, LabelEntry(st, name);
            && name in st1.labels && at.cur == st1.labels[name] && st1 == Lower(at, inner).st
            && Steps(o, p, Pos(st, h), 1) == Running(st1.labels[name], 0, h)
            && (name !in st.labels ==> Pos(at, h) == Running(st1.labels[name], 0, h))
  {
    hide Steps, Apart, Lower, Keeps, Own, Holds, Terminated, Agree, Uses;
    LabelUse(st, name);
    LabelLowered(st, name, inner);
    ApartSane(st);
    var at := LabelEntry(st, name);
    GrownApart(st, at);
    UsesAgree(at, inner);
    LabelGrown(st, name, at, Lower(at, inner).st);
    ApartSane(at);
    LowerKeeps(at, inner);
    HoldsDown(p, at.blocks, Own(at), Lower(at, inner).st);
    FallsInto(o, p, st, name, h);
  }

  lemma LabelLowered(st: Builder, name: string, inner: Stmt)
    requires name != ""
    ensures Lower(st, Labeled(name, inner)) == Lower(LabelEntry(st, name), inner)
  {
  }

  lemma LabelGrown(st: Builder, name: string, at: Builder, r: Builder)
    requires at == LabelEntry(st, name) && Grown(st, at) && Grown(at, r) && Agree({(name, at.cur)}, at)
    ensures name in r.labels && r.labels[name] == at.cur
  {
    assert (name, at.cur) in {(name, at.cur)};
  }

  lemma FallsInto(o: Oracle, p: Program, st: Builder, name: string, h: History)
    requires Sane(st) && Open(st) && Holds(p, LabelEntry(st, name).blocks)
    ensures var at := LabelEntry(st, name);
            && Steps(o, p, Pos(st, h), 1) == Running(at.cur, 0, h)
            && (name !in st.labels ==> Pos(at, h) == Running(at.cur, 0, h))
  {
    hide Steps, Terminated;
    var st1 := BlockOfLabel(st, name);
    assert Pos(st1, h) == Pos(st, h) && Here(st1) == Here(st);
    RunInstr(o, p, st1, Br(st1.labels[name]), h);
  }
}
