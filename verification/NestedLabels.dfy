/** Case and default labels below the direct children of a switch body: C jumps to them, the backend reads
    them as empty statements. */
module NestedLabels {
  import opened CStatements
  import opened BlockMachine
  import opened LowerSpec
  import opened SwitchDispatch
  import opened Shapes
  import opened Functions
  import opened Arithmetic

  /** The statement with every label emptied that is not a direct child of a switch body. */
  function Stripped(s: Stmt): Stmt {
    match s
    case Compound(l) => Compound(StrippedList(l, false))
    case If(c, thn, els) => If(c, Stripped(thn), Stripped(els))
    case While(t, b) => While(t, Stripped(b))
    case DoWhile(b, t) => DoWhile(Stripped(b), t)
    case For(i, t, n, b) => For(Stripped(i), t, n, Stripped(b))
    case Switch(c, w, sg, l) => Switch(c, w, sg, StrippedList(l, true))
    case Case(_) => Empty
    case Default => Empty
    case Labeled(name, b) => Labeled(name, Stripped(b))
    case _ => s
  }

  /** labels says whether the list is a switch body, whose own labels stay. */
  function StrippedList(l: Stmts, labels: bool): Stmts {
    match l
    case Nil => Nil
    case Cons(s, t) =>
      Cons(if labels && (s.Case? || s.Default?) then s else Stripped(s), StrippedList(t, labels))
  }

  lemma {:induction false} SameLabels(l: Stmts, next: nat, dflt: nat, width: nat)
    ensures var r := StrippedList(l, true);
            && CountCases(r) == CountCases(l) && HasDefault(r) == HasDefault(l)
            && CollectCases(r, next, width) == CollectCases(l, next, width)
            && LabelBlocks(r, next, dflt) == LabelBlocks(l, next, dflt)
  {
    if l.Cons? {
      StrippedKind(l.head);
      SameLabels(l.tail, if l.head.Case? then next + 1 else next, dflt, width);
    }
  }

  lemma StrippedKind(s: Stmt)
    ensures !Stripped(s).Case? && !Stripped(s).Default?
  {
  }

  /** Lowering does not see the difference. */
  lemma {:induction false} LowerStripped(st: Builder, s: Stmt)
    ensures Lower(st, Stripped(s)) == Lower(st, s)
    decreases s, 1
  {
    hide WhileEntry, ForEntry, ForStep, SwitchEntry, SwitchExit, IfEntry, LabelEntry, BranchIfOpen, PutExpr, Put;
    match s
    case Compound(l) => ListStripped(st, l);
    case If(_, _, _) => IfStripped(st, s);
    case While(_, b) => WhileStripped(st, s);
    case DoWhile(b, _) => WhileStripped(st, s);
    case For(_, _, _, _) => ForStripped(st, s);
    case Switch(_, _, _, l) => SwitchStripped(st, s);
    case Labeled(name, b) => LowerStripped(if name == "" then st else LabelEntry(st, name), b);
    case _ =>
  }

  lemma {:induction false} ListStripped(st: Builder, l: Stmts)
    ensures LowerList(st, StrippedList(l, false)) == LowerList(st, l)
    decreases l, 0
  {
    hide Lower, Stripped;
    if l.Cons? {
      LowerStripped(st, l.head);
      ListStripped(Lower(st, l.head).st, l.tail);
    }
  }

  lemma {:induction false} IfStripped(st: Builder, s: Stmt)
    requires s.If?
    ensures LowerIf(st, Stripped(s)) == LowerIf(st, s)
    decreases s, 0
  {
    hide Lower, IfEntry, BranchIfOpen, PutExpr;
    if s.cond.lowers.Value? {
      var n := |st.blocks|;
      LowerStripped(IfEntry(st, s.cond), s.thn);
      var r := Lower(IfEntry(st, s.cond), s.thn);
      LowerStripped(At(BranchIfOpen(r.st, n + 2), n + 1), s.els);
    }
  }

  lemma {:induction false} WhileStripped(st: Builder, s: Stmt)
    requires s.While? || s.DoWhile?
    ensures LowerWhile(st, Stripped(s)) == LowerWhile(st, s)
    decreases s, 0
  {
    hide Lower, BranchIfOpen;
    assert WhileEntry(st, Stripped(s)) == WhileEntry(st, s);
    LowerStripped(WhileEntry(st, s).st, s.loopBody);
  }

  lemma {:induction false} ForStripped(st: Builder, s: Stmt)
    requires s.For?
    ensures LowerFor(st, Stripped(s)) == LowerFor(st, s)
    decreases s, 0
  {
    hide Lower, ForEntry, ForStep;
    LowerStripped(st, s.init);
    var r := Lower(st, s.init);
    LowerStripped(ForEntry(r.st, s.test).st, s.loopBody);
  }

  lemma {:induction false} SwitchStripped(st: Builder, s: Stmt)
    requires s.Switch?
    ensures LowerSwitch(st, Stripped(s)) == LowerSwitch(st, s)
    decreases s, 0
  {
    hide Lower, LowerBody, Dedup, CollectCases, LabelBlocks, HasDefault, CountCases, BranchIfOpen, CloseAll, PutExpr,
         Put;
    var n := |st.blocks|;
    SameLabels(s.body, n + 2, n + 1, s.width);
    BodyStripped(SwitchEntry(st, s), s.body, n + 2, n + 1);
    assert SwitchEntry(st, Stripped(s)) == SwitchEntry(st, s);
  }

  lemma {:induction false} BodyStripped(st: Builder, l: Stmts, next: nat, dflt: nat)
    ensures LowerBody(st, StrippedList(l, true), next, dflt) == LowerBody(st, l, next, dflt)
    decreases l, 0
  {
    hide Lower, Stripped, BranchIfOpen;
    if l.Cons? {
      StrippedKind(l.head);
      if l.head.Case? {
        BodyStripped(At(BranchIfOpen(st, next), next), l.tail, next + 1, dflt);
      } else if l.head.Default? {
        BodyStripped(At(BranchIfOpen(st, dflt), dflt), l.tail, next, dflt);
      } else {
        LowerStripped(st, l.head);
        BodyStripped(Lower(st, l.head).st, l.tail, next, dflt);
      }
    }
  }

  /** With nested labels, the emitted function does what C says of the body without them. */
  lemma NestedLabelsIgnored(o: Oracle, isVoid: bool, body: Stmts, r: Returned, h: History)
    requires SupportedList(StrippedList(body, false), false, false, false, isVoid)
    ensures (exists n :: Steps(o, Emitted(isVoid, body), Running(0, 0, []), n) == Halted(r, h))
            <==> (exists fuel :: Called(o, isVoid, StrippedList(body, false), fuel) == Done(Left(r), h))
  {
    hide Steps, Called, SupportedList, StrippedList;
    ListStripped(Start(isVoid), body);
    assert Emitted(isVoid, StrippedList(body, false)) == Emitted(isVoid, body);
    FunctionMeaning(o, isVoid, StrippedList(body, false), r, h);
  }

  /** A switch on c whose only label lies in a block, with e behind it. */
  function LabelInBlock(c: Expr, e: Expr): Stmts {
    Cons(Switch(c, 32, true, Cons(InBlock(e), Nil)), Nil)
  }

  function InBlock(e: Expr): Stmt { Compound(Cons(Case(Single(1, 32)), Cons(Eval(e), Nil))) }

  /** When c is 1, C goes on to evaluate e, and the emitted function does not. */
  lemma NestedLabelMissed(o: Oracle, c: Expr, e: Expr)
    requires c.lowers.Value? && !e.lowers.Failure? && o([], c.id) == 1
    ensures Called(o, true, LabelInBlock(c, e), 1) == Done(Left(Nothing), [c.id, e.id])
    ensures exists n :: Steps(o, Emitted(true, LabelInBlock(c, e)), Running(0, 0, []), n) == Halted(Nothing, [c.id])
  {
    MeantInBlock(o, c, e);
    EmittedInBlock(o, c, e);
  }

  lemma OneIsOne()
    ensures Wrap(1, 32, true) == 1 && InWindow(1, 32, true)
  {
    Doubling(1, 32);
    assert Pow2(1) == 2;
    PatternOf(1, 32);
  }

  lemma MeantInBlock(o: Oracle, c: Expr, e: Expr)
    requires o([], c.id) == 1
    ensures Called(o, true, LabelInBlock(c, e), 1) == Done(Left(Nothing), [c.id, e.id])
  {
    hide Wrap, Pattern;
    OneIsOne();
    var inner := Cons(Case(Single(1, 32)), Cons(Eval(e), Nil));
    var t := ToCase(1, 32, true);
    assert HasTarget(inner.head, t) && ListHasTarget(inner, t);
    assert HasTarget(InBlock(e), t);
    var l := Cons(InBlock(e), Nil);
    assert ListHasTarget(l, t) && Sought(l, 1, 32, true) == t;
    assert inner.tail.tail.Nil?;
    assert ExecFrom(o, true, inner.tail, 0, [c.id], 1) == Done(Normal, [c.id] + [e.id]);
    assert ExecListTo(o, true, inner, t, [c.id], 1) == Done(Normal, [c.id, e.id]);
    assert ExecTo(o, true, InBlock(e), t, [c.id], 1) == Done(Normal, [c.id, e.id]);
    assert ExecListTo(o, true, l, t, [c.id], 1) == Done(Normal, [c.id, e.id]);
    assert Exec(o, true, Switch(c, 32, true, l), [], 1) == Done(Normal, [c.id, e.id]) by {
      assert [] + [c.id] == [c.id];
    }
    assert ExecFrom(o, true, LabelInBlock(c, e), 0, [], 1) == Done(Normal, [c.id, e.id]);
  }

  /** The body as the backend reads it. */
  function WithoutLabel(c: Expr, e: Expr): Stmts {
    Cons(Switch(c, 32, true, Cons(EmptyBlock(e), Nil)), Nil)
  }

  function EmptyBlock(e: Expr): Stmt { Compound(Cons(Empty, Cons(Eval(e), Nil))) }

  lemma EmittedInBlock(o: Oracle, c: Expr, e: Expr)
    requires c.lowers.Value? && !e.lowers.Failure?
    ensures exists n :: Steps(o, Emitted(true, LabelInBlock(c, e)), Running(0, 0, []), n) == Halted(Nothing, [c.id])
  {
    hide *;
    StripBlock(c, e);
    BlockSupported(c, e);
    BlockSkipped(o, c, e);
    NestedLabelsIgnored(o, true, LabelInBlock(c, e), Nothing, [c.id]);
  }

  lemma BlockSupported(c: Expr, e: Expr)
    requires c.lowers.Value? && !e.lowers.Failure?
    ensures SupportedList(WithoutLabel(c, e), false, false, false, true)
  {
    hide LabelFits;
    var tail := Cons(Eval(e), Nil);
    assert tail.tail.Nil? && SupportedList(tail, false, true, false, true);
    assert SupportedList(Cons(Empty, tail), false, true, false, true);
    var l := Cons(EmptyBlock(e), Nil);
    assert l.tail.Nil? && Supported(l.head, true, false, true) && SupportedList(l, true, true, false, true);
    assert l.tail.Nil? && LabelsFit(l, 32, true) && OneDefault(l);
    assert WithoutLabel(c, e).tail.Nil? && Supported(WithoutLabel(c, e).head, false, false, true);
  }

  lemma NoLabel(e: Expr, t: Target)
    ensures !ListHasTarget(Cons(EmptyBlock(e), Nil), t)
  {
    var tail := Cons(Eval(e), Nil);
    assert tail.tail.Nil? && !ListHasTarget(tail, t);
    assert !ListHasTarget(Cons(Empty, tail), t);
  }

  lemma BlockSkipped(o: Oracle, c: Expr, e: Expr)
    ensures Called(o, true, WithoutLabel(c, e), 1) == Done(Left(Nothing), [c.id])
  {
    hide Wrap, ListHasTarget;
    var x := Wrap(o([], c.id), 32, true);
    var l := Cons(EmptyBlock(e), Nil);
    NoLabel(e, Sought(l, x, 32, true));
    assert [] + [c.id] == [c.id];
    assert Exec(o, true, Switch(c, 32, true, l), [], 1) == Done(Normal, [c.id]);
    assert WithoutLabel(c, e).tail.Nil?;
    assert ExecFrom(o, true, WithoutLabel(c, e), 0, [], 1) == Done(Normal, [c.id]);
  }

  lemma StripBlock(c: Expr, e: Expr)
    ensures StrippedList(LabelInBlock(c, e), false) == WithoutLabel(c, e)
  {
    var inner := Cons(Case(Single(1, 32)), Cons(Eval(e), Nil));
    assert inner.tail.tail.Nil? && StrippedList(inner.tail, false) == inner.tail;
    assert StrippedList(inner, false) == Cons(Empty, inner.tail);
    assert Stripped(InBlock(e)) == EmptyBlock(e);
    assert StrippedList(Cons(InBlock(e), Nil), true) == Cons(EmptyBlock(e), Nil);
    assert LabelInBlock(c, e).tail.Nil?;
  }
}
