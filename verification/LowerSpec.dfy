/** Lowering of statements to basic blocks, as a function from builder states to builder states. */
module LowerSpec {
  import opened CStatements
  import opened Options
  import opened BlockMachine
  import opened Arithmetic

  const MAX_CASE_RANGE_EXPANSION := 256

  /** Blocks so far, the insertion point, the branch targets in force, the blocks of named labels,
      and whether the enclosing function returns void. */
  datatype Builder = Builder(
    blocks: seq<Block>,
    cur: nat,
    breaks: seq<nat>,
    continues: seq<nat>,
    labels: map<string, nat>,
    isVoid: bool)

  /** A builder state, and whether the step that produced it succeeded. */
  datatype Lowered = Lowered(st: Builder, ok: bool)

  /** The current block; a builder whose insertion point is not a block has nothing there. */
  function Here(st: Builder): Block {
    if st.cur < |st.blocks| then st.blocks[st.cur] else []
  }

  function Put(st: Builder, i: Instr): Builder {
    if st.cur < |st.blocks| then st.(blocks := st.blocks[st.cur := st.blocks[st.cur] + [i]]) else st
  }

  predicate Open(st: Builder) { !Terminated(Here(st)) }

  function At(st: Builder, b: nat): Builder { st.(cur := b) }

  function AddBlocks(st: Builder, n: nat): Builder {
    st.(blocks := st.blocks + seq(n, _ => []))
  }

  /** Branch to t unless the current block already ends in a terminator. */
  function BranchIfOpen(st: Builder, t: nat): Builder
  {
    if Open(st) then Put(st, Br(t)) else st
  }

  function PutExpr(st: Builder, e: Expr): Builder
  {
    if e.lowers.Failure? then st else Put(st, Compute(e.id, e.silent))
  }

  /** The test of a loop: a missing test, or one without a value, enters the body. */
  function PutTest(st: Builder, test: Option<Expr>, body: nat, end: nat): Lowered
  {
    match test
    case None => Lowered(Put(st, Br(body)), true)
    case Some(e) =>
      var st1 := PutExpr(st, e);
      match e.lowers
      case Failure => Lowered(st1, false)
      case NoValue => Lowered(Put(st1, Br(body)), true)
      case Value => Lowered(Put(st1, CondBr(body, end)), true)
  }

  function PushTargets(st: Builder, brk: nat, cont: nat): Builder {
    st.(breaks := st.breaks + [brk], continues := st.continues + [cont])
  }

  function Pop(s: seq<nat>): seq<nat> { if s == [] then [] else s[..|s| - 1] }

  function PopTargets(st: Builder): Builder {
    st.(breaks := Pop(st.breaks), continues := Pop(st.continues))
  }

  /** The patterns a label adds to the switch instruction. */
  function LabelPatterns(l: CaseLabel, width: nat): seq<nat> {
    match l
    case Single(v, bits) => [Pattern(if bits < width then Wrap(v, bits, true) else v, width)]
    case Range(lo, hi, bits) =>
      RangePatterns(Pattern(lo, bits), RangeCount(Pattern(lo, bits), Pattern(hi, bits)), width)
  }

  /** How many entries a range gets; the span is computed in 64 bits, and an empty range gets one. */
  function RangeCount(lo: nat, hi: nat): nat {
    if hi < lo then 1
    else
      var span := Pattern(hi - lo + 1, 64);
      if span < MAX_CASE_RANGE_EXPANSION then span else MAX_CASE_RANGE_EXPANSION
  }

  function RangePatterns(lo: nat, count: nat, width: nat): seq<nat>
    decreases count
  {
    if count == 0 then [] else [Pattern(lo, width)] + RangePatterns(lo + 1, count - 1, width)
  }

  function Tagged(ps: seq<nat>, block: nat): seq<(nat, nat)> {
    seq(|ps|, i requires 0 <= i < |ps| => (ps[i], block))
  }

  function CountCases(l: Stmts): nat {
    match l
    case Nil => 0
    case Cons(s, t) => (if s.Case? then 1 else 0) + CountCases(t)
  }

  predicate HasDefault(l: Stmts) {
    l.Cons? && (l.head.Default? || HasDefault(l.tail))
  }

  /** The case list of a switch body whose case blocks are numbered from next on. */
  function CollectCases(l: Stmts, next: nat, width: nat): seq<(nat, nat)> {
    match l
    case Nil => []
    case Cons(s, t) =>
      if s.Case? then Tagged(LabelPatterns(s.lab, width), next) + CollectCases(t, next + 1, width)
      else CollectCases(t, next, width)
  }

  /** Keep the first entry of each pattern not in seen. */
  function Dedup(cases: seq<(nat, nat)>, seen: set<nat>): seq<(nat, nat)> {
    if cases == [] then []
    else if cases[0].0 in seen then Dedup(cases[1..], seen)
    else [cases[0]] + Dedup(cases[1..], seen + {cases[0].0})
  }

  /** The label blocks of a switch body in source order. */
  function LabelBlocks(l: Stmts, next: nat, dflt: nat): seq<nat> {
    match l
    case Nil => []
    case Cons(s, t) =>
      if s.Case? then [next] + LabelBlocks(t, next + 1, dflt)
      else if s.Default? then [dflt] + LabelBlocks(t, next, dflt)
      else LabelBlocks(t, next, dflt)
  }

  /** Branch to end from block b if it is not terminated. */
  function CloseOne(st: Builder, b: nat, end: nat): Builder {
    if Open(At(st, b)) then Put(At(st, b), Br(end)) else st
  }

  function CloseAll(st: Builder, bs: seq<nat>, end: nat): Builder
    decreases bs
  {
    if bs == [] then st else CloseAll(CloseOne(st, bs[0], end), bs[1..], end)
  }

  function BlockOfLabel(st: Builder, name: string): Builder {
    if name in st.labels then st
    else AddBlocks(st, 1).(labels := st.labels[name := |st.blocks|])
  }

  /** Where the statement after a label goes on. */
  function LabelEntry(st: Builder, name: string): Builder {
    var st1 := BlockOfLabel(st, name);
    At(BranchIfOpen(st1, st1.labels[name]), st1.labels[name])
  }

  function Lower(st: Builder, s: Stmt): Lowered
    decreases s, 1
  {
    match s
    case Empty => Lowered(st, true)
    case Eval(e) => Lowered(PutExpr(st, e), !e.lowers.Failure?)
    case Compound(l) => Lowered(LowerList(st, l), true)
    case If(_, _, _) => LowerIf(st, s)
    case While(_, _) => LowerWhile(st, s)
    case DoWhile(_, _) => LowerWhile(st, s)
    case For(_, _, _, _) => LowerFor(st, s)
    case Switch(_, _, _, _) => LowerSwitch(st, s)
    case Case(_) => Lowered(st, true)
    case Default => Lowered(st, true)
    case Break => Lowered(if st.breaks == [] then st else Put(st, Br(st.breaks[|st.breaks| - 1])), true)
    case Continue => Lowered(if st.continues == [] then st else Put(st, Br(st.continues[|st.continues| - 1])), true)
    case Return(None) => Lowered(Put(st, Ret(if st.isVoid then Nothing else Zero)), true)
    case Return(Some(e)) =>
      var st1 := PutExpr(st, e);
      if st.isVoid then Lowered(Put(st1, Ret(Nothing)), true)
      else if e.lowers.Failure? then Lowered(st1, false)
      else Lowered(Put(st1, Ret(if e.lowers.Value? then LastValue else Zero)), true)
    case Goto(name) =>
      if name == "" then Lowered(st, true)
      else
        var st1 := BlockOfLabel(st, name);
        Lowered(Put(st1, Br(st1.labels[name])), true)
    case Labeled(name, inner) =>
      if name == "" then Lower(st, inner)
      else Lower(LabelEntry(st, name), inner)
  }

  /** A sibling chain; a statement that fails is skipped. */
  function LowerList(st: Builder, l: Stmts): Builder
    decreases l, 0
  {
    match l
    case Nil => st
    case Cons(s, t) => LowerList(Lower(st, s).st, t)
  }

  /** Blocks n, n + 1 and n + 2 are then, else and merge; the insertion point is then. */
  function IfEntry(st: Builder, cond: Expr): Builder {
    var n := |st.blocks|;
    At(Put(AddBlocks(PutExpr(st, cond), 3), CondBr(n, n + 1)), n)
  }

  function LowerIf(st: Builder, s: Stmt): Lowered
    requires s.If?
    decreases s, 0
  {
    if !s.cond.lowers.Value? then Lowered(PutExpr(st, s.cond), false)
    else
      var n := |st.blocks|;
      var r1 := Lower(IfEntry(st, s.cond), s.thn);
      if !r1.ok then r1
      else
        var r2 := Lower(At(BranchIfOpen(r1.st, n + 2), n + 1), s.els);
        if !r2.ok then r2
        else Lowered(At(BranchIfOpen(r2.st, n + 2), n + 2), true)
  }

  /** Both forms of while: blocks n, n + 1 and n + 2 are test, body and end. */
  function WhileEntry(st: Builder, s: Stmt): Lowered
    requires s.While? || s.DoWhile?
  {
    var n := |st.blocks|;
    var st1 := Put(PushTargets(AddBlocks(st, 3), n + 2, n), Br(if s.DoWhile? then n + 1 else n));
    var r := PutTest(At(st1, n), s.test, n + 1, n + 2);
    if r.ok then Lowered(At(r.st, n + 1), true) else r
  }

  function LowerWhile(st: Builder, s: Stmt): Lowered
    requires s.While? || s.DoWhile?
    decreases s, 0
  {
    var n := |st.blocks|;
    var r := WhileEntry(st, s);
    if !r.ok then r
    else Lowered(At(PopTargets(BranchIfOpen(Lower(r.st, s.loopBody).st, n)), n + 2), true)
  }

  /** Blocks n, n + 1, n + 2 and n + 3 are test, increment, body and end. */
  function ForEntry(st: Builder, test: Option<Expr>): Lowered {
    var n := |st.blocks|;
    var st1 := Put(PushTargets(AddBlocks(st, 4), n + 3, n + 1), Br(n));
    var r := PutTest(At(st1, n), test, n + 2, n + 3);
    if r.ok then Lowered(At(r.st, n + 2), true) else r
  }

  /** After the body: the increment block, and back to the test. */
  function ForStep(st: Builder, incr: Option<Expr>, n: nat): Lowered {
    var st1 := At(BranchIfOpen(st, n + 1), n + 1);
    var st2 := if incr.Some? then PutExpr(st1, incr.value) else st1;
    if incr.Some? && incr.value.lowers.Failure? then Lowered(st2, false)
    else Lowered(BranchIfOpen(st2, n), true)
  }

  function LowerFor(st: Builder, s: Stmt): Lowered
    requires s.For?
    decreases s, 0
  {
    var r0 := Lower(st, s.init);
    if !r0.ok then r0
    else
      var n := |r0.st.blocks|;
      var r1 := ForEntry(r0.st, s.test);
      if !r1.ok then r1
      else
        var r2 := ForStep(Lower(r1.st, s.loopBody).st, s.incr, n);
        if !r2.ok then r2
        else Lowered(At(PopTargets(r2.st), n + 3), true)
  }

  /** Blocks n and n + 1 are end and default; the case blocks follow in source order. */
  function SwitchEntry(st: Builder, s: Stmt): Builder
    requires s.Switch?
  {
    var n := |st.blocks|;
    var cases := Dedup(CollectCases(s.body, n + 2, s.width), {});
    var st1 := Put(AddBlocks(PutExpr(st, s.cond), 2 + CountCases(s.body)), SwitchBr(s.width, cases, n + 1));
    st1.(breaks := st.breaks + [n])
  }

  /** After the body: every block of the switch that is still open branches to its end. */
  function SwitchClose(st: Builder, body: Stmts, n: nat): Builder {
    var st1 := BranchIfOpen(st, n);
    var st2 := if HasDefault(body) then st1 else BranchIfOpen(At(st1, n + 1), n);
    CloseAll(st2, LabelBlocks(body, n + 2, n + 1), n)
  }

  function SwitchExit(st: Builder, body: Stmts, n: nat): Builder {
    var st1 := SwitchClose(st, body, n);
    At(st1.(breaks := Pop(st1.breaks)), n)
  }

  function LowerSwitch(st: Builder, s: Stmt): Lowered
    requires s.Switch?
    decreases s, 0
  {
    if !s.cond.lowers.Value? then Lowered(PutExpr(st, s.cond), false)
    else
      var n := |st.blocks|;
      Lowered(SwitchExit(LowerBody(SwitchEntry(st, s), s.body, n + 2, n + 1), s.body, n), true)
  }

  /** The children of a switch body: at a label, fall through into its block and go on there. */
  function LowerBody(st: Builder, l: Stmts, next: nat, dflt: nat): Builder
    decreases l, 0
  {
    match l
    case Nil => st
    case Cons(s, t) =>
      if s.Case? then LowerBody(At(BranchIfOpen(st, next), next), t, next + 1, dflt)
      else if s.Default? then LowerBody(At(BranchIfOpen(st, dflt), dflt), t, next, dflt)
      else LowerBody(Lower(st, s).st, t, next, dflt)
  }
}
