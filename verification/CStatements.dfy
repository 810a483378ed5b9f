/** C statements as the backend sees them, and what they mean.

    Expressions are opaque: an expression has an identity, and evaluating it may do anything that
    depends on what was evaluated before.  A history lists the expressions evaluated so far, and an
    oracle gives the value of an expression evaluated after a history, so one oracle stands for one
    program state and one set of inputs.  The meaning of statements follows sections 6.8.2, 6.8.4,
    6.8.5 and 6.8.6 of ISO/IEC 9899:1999. */
module CStatements {
  import opened Arithmetic
  import opened Options

  /** What lowering an expression hands back: a value, no value, or an error. */
  datatype Lowers = Value | NoValue | Failure

  /** An expression that lowers to a constant, to an address or to nothing is silent: no instruction is
      emitted for it, although its value can be used. */
  datatype Expr = Expr(id: nat, lowers: Lowers, silent: bool)

  /** A case label, or a case range, whose operands are constants of the given width. */
  datatype CaseLabel = Single(value: int, bits: nat) | Range(lo: int, hi: int, bits: nat)

  /** A switch carries the type of its condition before promotion: the width at which it is emitted, and
      whether its values have a sign. */
  datatype Stmt =
    | Empty
    | Eval(e: Expr)
    | Compound(body: Stmts)
    | If(cond: Expr, thn: Stmt, els: Stmt)
    | While(test: Option<Expr>, loopBody: Stmt)
    | DoWhile(loopBody: Stmt, test: Option<Expr>)
    | For(init: Stmt, test: Option<Expr>, incr: Option<Expr>, loopBody: Stmt)
    | Switch(cond: Expr, width: nat, signed: bool, body: Stmts)
    | Case(lab: CaseLabel)
    | Default
    | Break
    | Continue
    | Return(result: Option<Expr>)
    | Goto(name: string)
    | Labeled(name: string, inner: Stmt)

  /** A sibling chain. */
  datatype Stmts = Nil | Cons(head: Stmt, tail: Stmts)

  type History = seq<nat>
  type Oracle = (History, nat) -> int

  /** What a return hands to the caller: nothing, the value evaluated last, or zero. */
  datatype Returned = Nothing | LastValue | Zero

  datatype Outcome = Normal | Broke | Continued | Left(r: Returned) | Jumped(name: string)

  /** Fuel bounds the number of loop iterations entered one inside or after the other. */
  datatype Run = Timeout | Done(out: Outcome, h: History)

  function LastValueOf(o: Oracle, h: History): int {
    if h == [] then 0 else o(h[..|h| - 1], h[|h| - 1])
  }

  /** Width of an int. */
  const INT := 32

  /** A constant converted to the promoted type of a condition of this width and signedness.  The integer
      promotions make an int of every narrower condition (section 6.8.4.2, paragraph 5). */
  function Converted(v: int, width: nat, signed: bool): int {
    if width < INT then Wrap(v, INT, true) else Wrap(v, width, signed)
  }

  /** Whether a label selects a value of a condition of this width and signedness. */
  predicate Covers(l: CaseLabel, x: int, width: nat, signed: bool) {
    match l
    case Single(v, _) => x == Converted(v, width, signed)
    case Range(lo, hi, _) => Converted(lo, width, signed) <= x <= Converted(hi, width, signed)
  }

  /** What a switch looks for in its body: a case label that covers a value, or the default label. */
  datatype Target = ToCase(x: int, width: nat, signed: bool) | ToDefault

  predicate IsTarget(s: Stmt, t: Target) {
    match t
    case ToCase(x, w, sg) => s.Case? && Covers(s.lab, x, w, sg)
    case ToDefault => s.Default?
  }

  /** The statement is or contains the target, at any depth but not inside another switch. */
  predicate HasTarget(s: Stmt, t: Target) {
    match s
    case Case(_) => IsTarget(s, t)
    case Default => IsTarget(s, t)
    case Compound(l) => ListHasTarget(l, t)
    case If(_, thn, els) => HasTarget(thn, t) || HasTarget(els, t)
    case While(_, b) => HasTarget(b, t)
    case DoWhile(b, _) => HasTarget(b, t)
    case For(_, _, _, b) => HasTarget(b, t)
    case Labeled(_, b) => HasTarget(b, t)
    case _ => false
  }

  predicate ListHasTarget(l: Stmts, t: Target) {
    l.Cons? && (HasTarget(l.head, t) || ListHasTarget(l.tail, t))
  }

  /** A switch goes to the case label that covers the value, and only without one to the default. */
  function Sought(l: Stmts, x: int, width: nat, signed: bool): Target {
    if ListHasTarget(l, ToCase(x, width, signed)) then ToCase(x, width, signed) else ToDefault
  }

  function Evaluated(e: Option<Expr>, h: History): History {
    if e.Some? then h + [e.value.id] else h
  }

  function Exec(o: Oracle, isVoid: bool, s: Stmt, h: History, fuel: nat): Run
    decreases fuel, s
  {
    match s
    case Empty => Done(Normal, h)
    case Eval(e) => Done(Normal, h + [e.id])
    case Compound(l) => ExecFrom(o, isVoid, l, 0, h, fuel)
    case If(c, thn, els) =>
      if o(h, c.id) != 0 then Exec(o, isVoid, thn, h + [c.id], fuel)
      else Exec(o, isVoid, els, h + [c.id], fuel)
    case While(c, b) => Iterate(o, isVoid, c, None, b, h, fuel)
    case DoWhile(b, c) => Resume(o, isVoid, Exec(o, isVoid, b, h, fuel), c, None, b, fuel)
    case For(i, c, n, b) =>
      (match Exec(o, isVoid, i, h, fuel)
       case Done(Normal, h1) => Iterate(o, isVoid, c, n, b, h1, fuel)
       case r => r)
    case Switch(c, w, sg, l) =>
      var h1 := h + [c.id];
      var t := Sought(l, Wrap(o(h, c.id), w, sg), w, sg);
      if !ListHasTarget(l, t) then Done(Normal, h1)
      else (match ExecListTo(o, isVoid, l, t, h1, fuel)
            case Done(Broke, h2) => Done(Normal, h2)
            case r => r)
    case Case(_) => Done(Normal, h)
    case Default => Done(Normal, h)
    case Break => Done(Broke, h)
    case Continue => Done(Continued, h)
    case Return(None) => Done(Left(if isVoid then Nothing else Zero), h)
    case Return(Some(e)) => Done(Left(if isVoid then Nothing else LastValue), h + [e.id])
    case Goto(n) => Done(Jumped(n), h)
    case Labeled(_, b) => Exec(o, isVoid, b, h, fuel)
  }

  /** The statements of l in order, the first k of them skipped; labels do nothing by themselves. */
  function ExecFrom(o: Oracle, isVoid: bool, l: Stmts, k: nat, h: History, fuel: nat): Run
    decreases fuel, l
  {
    match l
    case Nil => Done(Normal, h)
    case Cons(s, t) =>
      if k > 0 then ExecFrom(o, isVoid, t, k - 1, h, fuel)
      else match Exec(o, isVoid, s, h, fuel)
           case Done(Normal, h1) => ExecFrom(o, isVoid, t, 0, h1, fuel)
           case r => r
  }

  /** A statement entered at a label inside it: what comes before the label is skipped, tests included,
      and what comes after it is done as usual. */
  function ExecTo(o: Oracle, isVoid: bool, s: Stmt, t: Target, h: History, fuel: nat): Run
    requires HasTarget(s, t)
    decreases fuel, s
  {
    match s
    case Compound(l) => ExecListTo(o, isVoid, l, t, h, fuel)
    case If(_, thn, els) =>
      if HasTarget(thn, t) then ExecTo(o, isVoid, thn, t, h, fuel) else ExecTo(o, isVoid, els, t, h, fuel)
    case While(c, b) => Resume(o, isVoid, ExecTo(o, isVoid, b, t, h, fuel), c, None, b, fuel)
    case DoWhile(b, c) => Resume(o, isVoid, ExecTo(o, isVoid, b, t, h, fuel), c, None, b, fuel)
    case For(_, c, n, b) => Resume(o, isVoid, ExecTo(o, isVoid, b, t, h, fuel), c, n, b, fuel)
    case Labeled(_, b) => ExecTo(o, isVoid, b, t, h, fuel)
    case _ => Done(Normal, h)
  }

  function ExecListTo(o: Oracle, isVoid: bool, l: Stmts, t: Target, h: History, fuel: nat): Run
    requires ListHasTarget(l, t)
    decreases fuel, l
  {
    if !HasTarget(l.head, t) then ExecListTo(o, isVoid, l.tail, t, h, fuel)
    else match ExecTo(o, isVoid, l.head, t, h, fuel)
         case Done(Normal, h1) => ExecFrom(o, isVoid, l.tail, 0, h1, fuel)
         case r => r
  }

  /** A loop goes on after a turn of its body. */
  function Resume(o: Oracle, isVoid: bool, r: Run, test: Option<Expr>, incr: Option<Expr>, body: Stmt, fuel: nat): Run
    decreases fuel, body, 1
  {
    match r
    case Done(Normal, h) => Iterate(o, isVoid, test, incr, body, Evaluated(incr, h), fuel)
    case Done(Continued, h) => Iterate(o, isVoid, test, incr, body, Evaluated(incr, h), fuel)
    case Done(Broke, h) => Done(Normal, h)
    case _ => r
  }

  /** Test, body, increment, and again. */
  function Iterate(o: Oracle, isVoid: bool, test: Option<Expr>, incr: Option<Expr>, body: Stmt,
                   h: History, fuel: nat): Run
    decreases fuel, body, 0
  {
    if fuel == 0 then Timeout
    else
      var h1 := Evaluated(test, h);
      if test.Some? && o(h, test.value.id) == 0 then Done(Normal, h1)
      else match Exec(o, isVoid, body, h1, fuel - 1)
           case Timeout => Timeout
           case Done(Normal, h2) => Iterate(o, isVoid, test, incr, body, Evaluated(incr, h2), fuel - 1)
           case Done(Continued, h2) => Iterate(o, isVoid, test, incr, body, Evaluated(incr, h2), fuel - 1)
           case Done(Broke, h2) => Done(Normal, h2)
           case Done(out, h2) => Done(out, h2)
  }
}
