/** Functions made of basic blocks, and a machine that runs them.

    As in LLVM, a block is a list of instructions and a terminator is just an instruction; the
    block counts as terminated when its last instruction is one.  Nothing keeps instructions from
    being appended after a terminator.  A silent computation marks where the value of an expression
    without code is taken; it is no instruction of the block. */
module BlockMachine {
  import opened CStatements
  import opened Arithmetic

  datatype Instr =
    | Compute(e: nat, silent: bool)
    | Br(target: nat)
    | CondBr(thn: nat, els: nat)
    | SwitchBr(width: nat, cases: seq<(nat, nat)>, dflt: nat)
    | Ret(r: Returned)
    | Unreachable

  type Block = seq<Instr>

  predicate IsTerminator(i: Instr) { !i.Compute? }

  predicate IsSilent(i: Instr) { i.Compute? && i.silent }

  /** The instructions that are really in the block. */
  function Code(b: Block): Block {
    if b == [] then []
    else
      var i := b[|b| - 1];
      Code(b[..|b| - 1]) + if IsSilent(i) then [] else [i]
  }

  predicate Terminated(b: Block) {
    var c := Code(b);
    |c| > 0 && IsTerminator(c[|c| - 1])
  }

  /** No instruction follows a terminator. */
  ghost predicate Clean(b: Block) {
    var c := Code(b);
    forall i :: 0 <= i < |c| - 1 ==> !IsTerminator(c[i])
  }

  lemma {:induction false} CodePrefix(a: Block, b: Block)
    requires a <= b
    ensures Code(a) <= Code(b)
  {
    if |a| < |b| {
      CodePrefix(a, b[..|b| - 1]);
    } else {
      assert a == b;
    }
  }

  /** A block without instructions is nothing but silent marks. */
  lemma {:induction false} NoCode(b: Block)
    requires Code(b) == []
    ensures forall i :: 0 <= i < |b| ==> IsSilent(b[i])
  {
    if b != [] {
      NoCode(b[..|b| - 1]);
    }
  }

  /** One more instruction decides whether the block is terminated, unless it is silent. */
  lemma Appended(b: Block, i: Instr)
    ensures Code(b + [i]) == Code(b) + if IsSilent(i) then [] else [i]
    ensures Terminated(b + [i]) <==> if IsSilent(i) then Terminated(b) else IsTerminator(i)
  {
    assert (b + [i])[..|b|] == b;
  }

  /** What a verifier asks of a finished block: one terminator, at the end. */
  ghost predicate WellFormed(b: Block) { Clean(b) && Terminated(b) }

  function Targets(i: Instr): set<nat> {
    match i
    case Br(t) => {t}
    case CondBr(t, e) => {t, e}
    case SwitchBr(_, cs, d) => (set k | 0 <= k < |cs| :: cs[k].1) + {d}
    case _ => {}
  }

  /** The block a switch instruction selects for a bit pattern. */
  function Select(cases: seq<(nat, nat)>, p: nat, dflt: nat): nat {
    if cases == [] then dflt
    else if cases[0].0 == p then cases[0].1
    else Select(cases[1..], p, dflt)
  }

  /** Blocks by number; a deleted block has no entry. */
  type Program = map<nat, Block>

  datatype Config = Running(block: nat, pc: nat, h: History) | Halted(r: Returned, h: History) | Stuck

  /** One instruction.  A conditional branch or switch reads the value computed just before it. */
  function Step(o: Oracle, p: Program, c: Config): Config {
    match c
    case Running(b, i, h) =>
      if b !in p || i >= |p[b]| then Stuck
      else (match p[b][i]
            case Compute(e, _) => Running(b, i + 1, h + [e])
            case Br(t) => Running(t, 0, h)
            case CondBr(t, e) => Running(if LastValueOf(o, h) != 0 then t else e, 0, h)
            case SwitchBr(w, cs, d) => Running(Select(cs, Pattern(LastValueOf(o, h), w), d), 0, h)
            case Ret(r) => Halted(r, h)
            case Unreachable => Stuck)
    case _ => c
  }

  function Steps(o: Oracle, p: Program, c: Config, n: nat): Config
    decreases n
  {
    if n == 0 then c else Steps(o, p, Step(o, p, c), n - 1)
  }

  lemma {:induction false} StepsAdd(o: Oracle, p: Program, c: Config, m: nat, n: nat)
    ensures Steps(o, p, c, m + n) == Steps(o, p, Steps(o, p, c, m), n)
    decreases m
  {
    if m > 0 { StepsAdd(o, p, Step(o, p, c), m - 1, n); }
  }

  /** The machine is deterministic and final configurations stay put. */
  lemma {:induction false} FinalStays(o: Oracle, p: Program, c: Config, n: nat)
    requires !c.Running?
    ensures Steps(o, p, c, n) == c
  {
    if n > 0 { FinalStays(o, p, c, n - 1); }
  }
}
