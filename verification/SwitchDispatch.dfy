/** Which block a lowered switch reaches, against which label C says it reaches. */
module SwitchDispatch {
  import opened Arithmetic
  import opened CStatements
  import opened Options
  import opened BlockMachine
  import opened LowerSpec

  /** How many entries a range gets. */
  function Made(lo: int, hi: int, bits: nat): nat { RangeCount(Pattern(lo, bits), Pattern(hi, bits)) }

  /** The same without the code's way of counting: as many as there are numbers from lo to hi, read without a
      sign and counted in 64 bits, but never more than 256, and one when there are none. */
  function Entries(lo: int, hi: int, bits: nat): nat {
    var n := Pattern(hi, bits) - Pattern(lo, bits) + 1;
    if n < 1 then 1 else if Pattern(n, 64) > 256 then 256 else Pattern(n, 64)
  }

  lemma MadeEntries(lo: int, hi: int, bits: nat)
    ensures Made(lo, hi, bits) == Entries(lo, hi, bits)
  {
    hide Pow2, Pattern;
  }

  /** Least and greatest value of a type. */
  function Least(width: nat, signed: bool): int { if signed then -(Pow2(width) / 2) else 0 }

  function Greatest(width: nat, signed: bool): int { Least(width, signed) + Pow2(width) - 1 }

  /** The first value of the condition that a range can cover, and how many it covers from there on. */
  function First(lo: int, width: nat, signed: bool): int {
    var a := Converted(lo, width, signed);
    if a < Least(width, signed) then Least(width, signed) else a
  }

  function Meant(lo: int, hi: int, width: nat, signed: bool): nat {
    var b := Converted(hi, width, signed);
    var last := if b > Greatest(width, signed) then Greatest(width, signed) else b;
    if First(lo, width, signed) <= last then last - First(lo, width, signed) + 1 else 0
  }

  /** A label must not change its value when its sign is extended, which happens to a narrower one, and the
      condition must be able to have the value that promotion gives the label.  A range must get as many
      entries as it has values (up to one for each value of the type), starting with the first unless it
      has all. */
  predicate LabelFits(l: CaseLabel, width: nat, signed: bool) {
    match l
    case Single(v, bits) =>
      (bits >= width || InWindow(v, bits, true)) && InWindow(Converted(v, width, signed), width, signed)
    case Range(lo, hi, bits) =>
      var made, meant := Entries(lo, hi, bits), Meant(lo, hi, width, signed);
      && meant == (if made < Pow2(width) then made else Pow2(width))
      && (0 < meant < Pow2(width) ==> Wrap(Pattern(lo, bits), width, signed) == First(lo, width, signed))
  }

  predicate LabelsFit(l: Stmts, width: nat, signed: bool) {
    l.Cons? ==> (l.head.Case? ==> LabelFits(l.head.lab, width, signed)) && LabelsFit(l.tail, width, signed)
  }

  /** The position of the first direct child that is a case label covering x. */
  function FirstCase(l: Stmts, x: int, width: nat, signed: bool): Option<nat> {
    match l
    case Nil => None
    case Cons(s, t) =>
      if IsTarget(s, ToCase(x, width, signed)) then Some(0)
      else match FirstCase(t, x, width, signed) case None => None case Some(k) => Some(k + 1)
  }

  function FirstDefault(l: Stmts): Option<nat> {
    match l
    case Nil => None
    case Cons(s, t) =>
      if s.Default? then Some(0)
      else match FirstDefault(t) case None => None case Some(k) => Some(k + 1)
  }

  /** Where a switch on x enters its body if only the labels among its direct children count. */
  function Entry(l: Stmts, x: int, width: nat, signed: bool): Option<nat> {
    if FirstCase(l, x, width, signed).Some? then FirstCase(l, x, width, signed) else FirstDefault(l)
  }

  /** The child that C enters the body at or inside. */
  function Reached(l: Stmts, t: Target): Option<nat> {
    match l
    case Nil => None
    case Cons(s, rest) =>
      if HasTarget(s, t) then Some(0)
      else match Reached(rest, t) case None => None case Some(k) => Some(k + 1)
  }

  predicate IsLabelAt(l: Stmts, k: nat) {
    l.Cons? && if k == 0 then l.head.Case? || l.head.Default? else IsLabelAt(l.tail, k - 1)
  }

  /** C enters the body where the labels among the direct children say, exactly when it does not enter
      inside one of the children. */
  lemma EntryExact(l: Stmts, x: int, width: nat, signed: bool)
    ensures var c := Reached(l, Sought(l, x, width, signed));
            Entry(l, x, width, signed) == c <==> (c.Some? ==> IsLabelAt(l, c.value))
  {
    ReachedCase(l, x, width, signed);
    ReachedDefault(l);
    EntryIsLabel(l, x, width, signed);
  }

  lemma {:induction false} ReachedCase(l: Stmts, x: int, width: nat, signed: bool)
    ensures var c := Reached(l, ToCase(x, width, signed));
            && (c.Some? <==> ListHasTarget(l, ToCase(x, width, signed)))
            && (c.Some? && IsLabelAt(l, c.value) ==> FirstCase(l, x, width, signed) == c)
            && (c.None? ==> FirstCase(l, x, width, signed).None?)
  {
    if l.Cons? { ReachedCase(l.tail, x, width, signed); }
  }

  lemma {:induction false} ReachedDefault(l: Stmts)
    ensures var c := Reached(l, ToDefault);
            && (c.Some? <==> ListHasTarget(l, ToDefault))
            && (c.Some? && IsLabelAt(l, c.value) ==> FirstDefault(l) == c)
            && (c.None? ==> FirstDefault(l).None?)
  {
    if l.Cons? { ReachedDefault(l.tail); }
  }

  lemma {:induction false} EntryIsLabel(l: Stmts, x: int, width: nat, signed: bool)
    ensures FirstCase(l, x, width, signed).Some? ==> IsLabelAt(l, FirstCase(l, x, width, signed).value)
    ensures FirstDefault(l).Some? ==> IsLabelAt(l, FirstDefault(l).value)
    ensures Entry(l, x, width, signed).None? ==> !HasDefault(l)
    ensures Entry(l, x, width, signed).Some? ==> IsLabelAt(l, Entry(l, x, width, signed).value)
  {
    if l.Cons? { EntryIsLabel(l.tail, x, width, signed); }
  }

  /** Entering the body at a child that is itself the label is running it from there. */
  lemma {:induction false} EnterAtLabel(o: Oracle, isVoid: bool, l: Stmts, t: Target, h: History, fuel: nat)
    requires Reached(l, t).Some? && IsLabelAt(l, Reached(l, t).value)
    ensures ListHasTarget(l, t)
    ensures ExecListTo(o, isVoid, l, t, h, fuel) == ExecFrom(o, isVoid, l, Reached(l, t).value, h, fuel)
    decreases l
  {
    if !HasTarget(l.head, t) { EnterAtLabel(o, isVoid, l.tail, t, h, fuel); }
  }

  /** What a switch does after its condition, when no child has a label inside it. */
  lemma SwitchAtLabel(o: Oracle, isVoid: bool, c: Expr, w: nat, sg: bool, l: Stmts, h: History, fuel: nat)
    requires var r := Reached(l, Sought(l, Wrap(o(h, c.id), w, sg), w, sg)); r.Some? ==> IsLabelAt(l, r.value)
    ensures Exec(o, isVoid, Switch(c, w, sg, l), h, fuel) ==
            match Entry(l, Wrap(o(h, c.id), w, sg), w, sg)
            case None => Done(Normal, h + [c.id])
            case Some(k) =>
              match ExecFrom(o, isVoid, l, k, h + [c.id], fuel)
              case Done(Broke, h2) => Done(Normal, h2)
              case r => r
  {
    hide Wrap;
    var x := Wrap(o(h, c.id), w, sg);
    var t := Sought(l, x, w, sg);
    EntryExact(l, x, w, sg);
    ReachedCase(l, x, w, sg);
    ReachedDefault(l);
    if Reached(l, t).Some? { EnterAtLabel(o, isVoid, l, t, h + [c.id], fuel); }
  }

  /** The block that stands for the label at position k of a switch body. */
  function EntryBlock(l: Stmts, k: nat, next: nat, dflt: nat): nat {
    match l
    case Nil => dflt
    case Cons(s, t) =>
      if k == 0 then (if s.Case? then next else dflt)
      else EntryBlock(t, k - 1, if s.Case? then next + 1 else next, dflt)
  }

  lemma {:induction false} RangePatternsMeaning(lo: nat, count: nat, width: nat, p: nat)
    ensures p in RangePatterns(lo, count, width) <==> exists v :: lo <= v < lo + count && p == Pattern(v, width)
    decreases count
  {
    if count > 0 {
      RangePatternsMeaning(lo + 1, count - 1, width, p);
      if p in RangePatterns(lo, count, width) {
        assert p == Pattern(lo, width) || p in RangePatterns(lo + 1, count - 1, width);
      }
    }
  }

  /** Some value among the count from first on has the pattern. */
  ghost predicate Listed(first: int, count: nat, x: int, width: nat) {
    exists j: nat :: j < count && ListedAt(first, j, x, width)
  }

  predicate ListedAt(first: int, j: nat, x: int, width: nat) { Pattern(first + j, width) == Pattern(x, width) }

  lemma RangeListed(lo: int, hi: int, bits: nat, width: nat, x: int)
    ensures Pattern(x, width) in LabelPatterns(Range(lo, hi, bits), width)
       <==> Listed(Pattern(lo, bits), Made(lo, hi, bits), x, width)
  {
    hide Pow2, Pattern, RangeCount;
    var p, n := Pattern(lo, bits), Made(lo, hi, bits);
    RangePatternsMeaning(p, n, width, Pattern(x, width));
    if Pattern(x, width) in RangePatterns(p, n, width) {
      var v :| p <= v < p + n && Pattern(x, width) == Pattern(v, width);
      assert ListedAt(p, v - p, x, width);
    }
  }

  /** Every pattern occurs among as many consecutive values as the type has. */
  lemma AllListed(first: int, count: nat, x: int, width: nat)
    requires Pow2(width) <= count
    ensures Listed(first, count, x, width)
  {
    hide Pow2;
    var j := Pattern(x - first, width);
    PatternDown(x - first, width, width);
    PatternAdd(j, x - first, first, width);
    assert ListedAt(first, j, x, width);
  }

  /** Consecutive values from a on have exactly the patterns of the values listed, as long as no value of
      the type is listed twice. */
  lemma ListedFrom(first: int, a: int, count: nat, x: int, width: nat, signed: bool)
    requires Pattern(first, width) == Pattern(a, width) && InWindow(a, width, signed) && InWindow(x, width, signed)
    requires count > 0 ==> InWindow(a + count - 1, width, signed)
    ensures Listed(first, count, x, width) <==> a <= x < a + count
  {
    hide Pow2, Pattern;
    if Listed(first, count, x, width) {
      var j: nat :| j < count && ListedAt(first, j, x, width);
      PatternAdd(first, a, j, width);
      PatternInjective(a + j, x, width, signed);
    }
    if a <= x < a + count {
      PatternAdd(first, a, x - a, width);
      assert ListedAt(first, x - a, x, width);
    }
  }

  lemma WindowEnds(x: int, width: nat, signed: bool)
    ensures InWindow(x, width, signed) <==> Least(width, signed) <= x <= Greatest(width, signed)
  {
    if width > 0 { assert Pow2(width) == 2 * Pow2(width - 1); }
  }

  /** The values of the condition that a range covers. */
  lemma RangeCovers(lo: int, hi: int, bits: nat, width: nat, signed: bool, x: int)
    requires InWindow(x, width, signed)
    ensures var a, meant := First(lo, width, signed), Meant(lo, hi, width, signed);
            && (Covers(Range(lo, hi, bits), x, width, signed) <==> a <= x < a + meant)
            && (meant > 0 ==> InWindow(a, width, signed) && InWindow(a + meant - 1, width, signed))
            && meant <= Pow2(width)
  {
    hide Pow2, Wrap, InWindow;
    var a, meant := First(lo, width, signed), Meant(lo, hi, width, signed);
    WindowEnds(x, width, signed);
    WindowEnds(a, width, signed);
    WindowEnds(a + meant - 1, width, signed);
  }

  /** Where a constant lands in the type of the condition: a narrower type is cut from the promoted one. */
  lemma ConvertedPattern(v: int, width: nat, signed: bool)
    ensures Pattern(Converted(v, width, signed), width) == Pattern(v, width)
    ensures width >= INT ==> InWindow(Converted(v, width, signed), width, signed)
  {
    hide Pow2, Pattern, Wrap;
    WrapMeaning(v, width, signed);
    if width < INT {
      WrapMeaning(v, INT, true);
      PatternDown(v, INT, width);
      PatternDown(Wrap(v, INT, true), INT, width);
    }
  }

  /** A fitting label's patterns are the patterns of exactly the values it covers. */
  lemma LabelPatternsMeaning(l: CaseLabel, width: nat, signed: bool, x: int)
    requires LabelFits(l, width, signed) && InWindow(x, width, signed)
    ensures Pattern(x, width) in LabelPatterns(l, width) <==> Covers(l, x, width, signed)
  {
    match l
    case Single(v, bits) => SinglePattern(v, bits, width, signed, x);
    case Range(lo, hi, bits) => RangePattern(lo, hi, bits, width, signed, x);
  }

  lemma SinglePattern(v: int, bits: nat, width: nat, signed: bool, x: int)
    requires LabelFits(Single(v, bits), width, signed) && InWindow(x, width, signed)
    ensures Pattern(x, width) in LabelPatterns(Single(v, bits), width) <==> Covers(Single(v, bits), x, width, signed)
  {
    hide Pow2, Pattern, Wrap, Converted;
    var y := Converted(v, width, signed);
    ConvertedPattern(v, width, signed);
    if bits < width {
      WrapMeaning(v, bits, true);
      PatternInjective(Wrap(v, bits, true), v, bits, true);
    }
    if Pattern(x, width) == Pattern(v, width) { PatternInjective(x, y, width, signed); }
  }

  lemma RangePattern(lo: int, hi: int, bits: nat, width: nat, signed: bool, x: int)
    requires LabelFits(Range(lo, hi, bits), width, signed) && InWindow(x, width, signed)
    ensures Pattern(x, width) in LabelPatterns(Range(lo, hi, bits), width)
       <==> Covers(Range(lo, hi, bits), x, width, signed)
  {
    hide Pow2, Pattern, LabelPatterns, Covers, Wrap, RangeCount, Made, Entries, Listed, First, Meant, InWindow;
    var p, a := Pattern(lo, bits), First(lo, width, signed);
    var made, meant := Made(lo, hi, bits), Meant(lo, hi, width, signed);
    MadeEntries(lo, hi, bits);
    RangeCovers(lo, hi, bits, width, signed, x);
    RangeListed(lo, hi, bits, width, x);
    if meant == Pow2(width) {
      AllListed(p, made, x, width);
      AllMeant(a, x, width, signed);
    } else if meant == 0 {
      NothingListed(p, x, width);
    } else {
      WrapMeaning(p, width, signed);
      ListedFrom(p, a, meant, x, width, signed);
    }
  }

  /** A range with as many values as the type has covers all of them. */
  lemma AllMeant(a: int, x: int, width: nat, signed: bool)
    requires InWindow(a, width, signed) && InWindow(a + Pow2(width) - 1, width, signed) && InWindow(x, width, signed)
    ensures a <= x < a + Pow2(width)
  {
  }

  lemma NothingListed(first: int, x: int, width: nat)
    ensures !Listed(first, 0, x, width)
  {
  }

  /** The label's patterns are those of the values it covers, for every value of the condition's type. */
  ghost predicate Faithful(l: CaseLabel, width: nat, signed: bool) {
    forall x :: InWindow(x, width, signed) ==>
      (Pattern(x, width) in LabelPatterns(l, width) <==> Covers(l, x, width, signed))
  }

  /** A constant of an integer type of that many bits, signed or not. */
  predicate IsConstant(v: int, bits: nat) { bits > 0 && -Pow2(bits) <= 2 * v && v < Pow2(bits) }

  /** Exactly which labels the code lists as C means them: those whose value the condition can have after
      its promotion, and of the narrower ones those whose sign bit is not taken for a sign. */
  lemma SingleFaithful(v: int, bits: nat, width: nat, signed: bool)
    requires IsConstant(v, bits)
    ensures Faithful(Single(v, bits), width, signed) <==> LabelFits(Single(v, bits), width, signed)
  {
    hide Pow2, Pattern;
    var l := Single(v, bits);
    if LabelFits(l, width, signed) {
      forall x | InWindow(x, width, signed)
        ensures Pattern(x, width) in LabelPatterns(l, width) <==> Covers(l, x, width, signed)
      {
        LabelPatternsMeaning(l, width, signed, x);
      }
    } else {
      SingleMissed(v, bits, width, signed);
    }
  }

  /** The one value of the condition that the code takes for a label. */
  function Taken(v: int, bits: nat, width: nat, signed: bool): int {
    Wrap(if bits < width then Wrap(v, bits, true) else v, width, signed)
  }

  /** For every other label the code takes a value that the label does not cover, and if there is a value
      that it covers, that one is not found. */
  lemma SingleMissed(v: int, bits: nat, width: nat, signed: bool)
    requires IsConstant(v, bits) && !LabelFits(Single(v, bits), width, signed)
    ensures var l, x := Single(v, bits), Taken(v, bits, width, signed);
            InWindow(x, width, signed) && Pattern(x, width) in LabelPatterns(l, width) && !Covers(l, x, width, signed)
    ensures var l, y := Single(v, bits), Converted(v, width, signed);
            InWindow(y, width, signed) ==> Covers(l, y, width, signed) && Pattern(y, width) !in LabelPatterns(l, width)
  {
    hide Pow2, Pattern, Wrap;
    var y, cut := Converted(v, width, signed), if bits < width then Wrap(v, bits, true) else v;
    ConvertedPattern(v, width, signed);
    WrapMeaning(cut, width, signed);
    if InWindow(y, width, signed) {
      ExtendedWrong(v, bits, width);
    }
  }

  /** Extending a bit that is no sign changes the pattern. */
  lemma ExtendedWrong(v: int, bits: nat, width: nat)
    requires IsConstant(v, bits) && bits < width && !InWindow(v, bits, true)
    ensures Pattern(Wrap(v, bits, true), width) != Pattern(v, width)
  {
    hide Pow2, Pattern;
    PatternOf(v, bits);
    Doubling(bits, width);
    assert Wrap(v, bits, true) == v - Pow2(bits);
    PatternApart(v - Pow2(bits), Pow2(bits), width);
  }

  /** The same for ranges, of operands of any value, width and order, and under any condition. */
  lemma RangeFaithful(lo: int, hi: int, bits: nat, width: nat, signed: bool)
    ensures Faithful(Range(lo, hi, bits), width, signed) <==> LabelFits(Range(lo, hi, bits), width, signed)
  {
    var l := Range(lo, hi, bits);
    if LabelFits(l, width, signed) {
      forall x | InWindow(x, width, signed)
        ensures Pattern(x, width) in LabelPatterns(l, width) <==> Covers(l, x, width, signed)
      {
        LabelPatternsMeaning(l, width, signed, x);
      }
    } else {
      var x := Unfaithful(lo, hi, bits, width, signed);
    }
  }

  /** For every other range, a value of the condition that is sent the wrong way. */
  lemma Unfaithful(lo: int, hi: int, bits: nat, width: nat, signed: bool) returns (x: int)
    requires !LabelFits(Range(lo, hi, bits), width, signed)
    ensures InWindow(x, width, signed)
    ensures !(Pattern(x, width) in LabelPatterns(Range(lo, hi, bits), width)
         <==> Covers(Range(lo, hi, bits), x, width, signed))
  {
    hide Pow2, Pattern, LabelPatterns, Covers, Wrap, RangeCount, Made, Entries, Listed, First, Meant, InWindow;
    var p, a := Pattern(lo, bits), First(lo, width, signed);
    var made, meant := Made(lo, hi, bits), Meant(lo, hi, width, signed);
    MadeEntries(lo, hi, bits);
    WrapMeaning(p, width, signed);
    RangeCovers(lo, hi, bits, width, signed, Wrap(p, width, signed));
    if meant == 0 {
      x := ListedValue(p, 0, made, width, signed);
    } else if made == 0 {
      x := a;
      NothingListed(p, a, width);
    } else if Wrap(p, width, signed) == a {
      x := WrongCount(p, a, made, meant, width, signed);
    } else {
      x := WrongStart(p, a, made, meant, width, signed);
    }
    RangeCovers(lo, hi, bits, width, signed, x);
    RangeListed(lo, hi, bits, width, x);
  }

  lemma ListedValue(first: int, j: nat, count: nat, width: nat, signed: bool) returns (x: int)
    requires j < count
    ensures InWindow(x, width, signed) && Listed(first, count, x, width)
    ensures Pattern(x, width) == Pattern(first + j, width)
  {
    x := Wrap(first + j, width, signed);
    WrapMeaning(first + j, width, signed);
    assert ListedAt(first, j, x, width);
  }

  /** Too many entries reach a value behind the range, too few leave its end out. */
  lemma WrongCount(p: int, a: int, made: nat, meant: nat, width: nat, signed: bool) returns (x: int)
    requires Pattern(p, width) == Pattern(a, width) && InWindow(a, width, signed)
    requires made > 0 && meant > 0 && InWindow(a + meant - 1, width, signed)
    requires meant != if made < Pow2(width) then made else Pow2(width)
    ensures InWindow(x, width, signed)
    ensures !(Listed(p, made, x, width) <==> a <= x < a + meant)
  {
    hide Pow2, Pattern;
    if meant < made {
      x := ListedValue(p, meant, made, width, signed);
      PatternAdd(p, a, meant, width);
      if a <= x < a + meant { PatternApart(x, a + meant - x, width); }
    } else {
      x := a + made;
      if Listed(p, made, x, width) {
        var j: nat :| j < made && ListedAt(p, j, x, width);
        PatternAdd(p, a, j, width);
        PatternApart(a + j, made - j, width);
      }
    }
  }

  /** Entries that start elsewhere: they take in a value outside the range, or leave out the value before
      the first of them. */
  lemma WrongStart(p: int, a: int, made: nat, meant: nat, width: nat, signed: bool) returns (x: int)
    requires made > 0 && meant > 0 && Wrap(p, width, signed) != a
    requires InWindow(a, width, signed) && InWindow(a + meant - 1, width, signed)
    requires !(meant == Pow2(width) && made >= Pow2(width))
    ensures InWindow(x, width, signed)
    ensures !(Listed(p, made, x, width) <==> a <= x < a + meant)
  {
    hide Pow2, Pattern, Wrap, Listed;
    var s := Wrap(p, width, signed);
    WrapMeaning(p, width, signed);
    if made >= Pow2(width) {
      x := Outside(a, meant, width, signed);
      AllListed(p, made, x, width);
    } else if a <= s < a + meant {
      x := s - 1;
      NotBefore(p, s, made, width);
    } else {
      x := s;
      ListedHere(p, x, made, width);
    }
  }

  /** A range with fewer values than the type has leaves one out. */
  lemma Outside(a: int, meant: nat, width: nat, signed: bool) returns (x: int)
    requires meant > 0 && meant != Pow2(width)
    requires InWindow(a, width, signed) && InWindow(a + meant - 1, width, signed)
    ensures InWindow(x, width, signed) && !(a <= x < a + meant)
  {
    hide Pow2;
    var mn, mx := Least(width, signed), Greatest(width, signed);
    WindowEnds(mn, width, signed);
    WindowEnds(mx, width, signed);
    WindowEnds(a, width, signed);
    WindowEnds(a + meant - 1, width, signed);
    x := if a > mn then mn else mx;
  }

  lemma NotBefore(p: int, s: int, made: nat, width: nat)
    requires Pattern(s, width) == Pattern(p, width) && made < Pow2(width)
    ensures !Listed(p, made, s - 1, width)
  {
    hide Pow2, Pattern;
    var x := s - 1;
    forall j: nat | j < made ensures !ListedAt(p, j, x, width) {
      PatternAdd(s, p, j, width);
      PatternApart(x, j + 1, width);
    }
  }

  lemma ListedHere(p: int, x: int, made: nat, width: nat)
    requires made > 0 && Pattern(x, width) == Pattern(p, width)
    ensures Listed(p, made, x, width)
  {
    assert ListedAt(p, 0, x, width);
  }

  /** Where no promotion comes in, the entries of a range start with its first value if and only if it is
      as wide as the condition or does not start below zero. */
  lemma StartExact(lo: int, bits: nat, width: nat, signed: bool)
    requires IsConstant(lo, bits) && width >= INT
    ensures Wrap(Pattern(lo, bits), width, signed) == First(lo, width, signed) <==> bits >= width || lo >= 0
  {
    hide Pow2, Pattern, Wrap;
    var p := Pattern(lo, bits);
    ConvertedPattern(lo, width, signed);
    WindowEnds(Wrap(lo, width, signed), width, signed);
    WrapMeaning(p, width, signed);
    WrapMeaning(lo, width, signed);
    if bits >= width {
      PatternDown(lo, bits, width);
    } else {
      PatternOf(lo, bits);
      Doubling(bits, width);
      if lo < 0 { PatternApart(lo, Pow2(bits), width); }
    }
    if Pattern(p, width) == Pattern(lo, width) {
      PatternInjective(Wrap(p, width, signed), Wrap(lo, width, signed), width, signed);
    }
  }

  /** A value of the condition keeps itself through promotion and conversion. */
  lemma ConvertedSame(v: int, width: nat, signed: bool)
    requires InWindow(v, width, signed)
    ensures Converted(v, width, signed) == v && Wrap(v, width, signed) == v
  {
    hide Pow2, Pattern, Wrap;
    WrapMeaning(v, width, signed);
    PatternInjective(Wrap(v, width, signed), v, width, signed);
    if width < INT {
      Doubling(width, INT);
      WrapMeaning(v, INT, true);
      PatternInjective(Wrap(v, INT, true), v, INT, true);
    }
  }

  /** How many values a range of values of the condition covers. */
  lemma PlainMeant(lo: int, hi: int, width: nat, signed: bool)
    requires InWindow(lo, width, signed) && InWindow(hi, width, signed)
    ensures First(lo, width, signed) == lo
    ensures Meant(lo, hi, width, signed) == if lo <= hi then hi - lo + 1 else 0
    ensures Meant(lo, hi, width, signed) <= Pow2(width)
  {
    hide Pow2, Pattern, Wrap, InWindow;
    ConvertedSame(lo, width, signed);
    ConvertedSame(hi, width, signed);
    WindowEnds(lo, width, signed);
    WindowEnds(hi, width, signed);
  }

  lemma Word64()
    ensures Pow2(64) > 512
  {
    assert Pow2(10) == 1024;
    Doubling(10, 64);
  }

  /** Every range of at most 256 values that are not negative and that the condition can have is listed as
      C means it, whatever the widths. */
  lemma ShortRange(lo: int, hi: int, bits: nat, width: nat, signed: bool)
    requires 0 <= lo <= hi < lo + 256 && hi < Pow2(bits)
    requires InWindow(lo, width, signed) && InWindow(hi, width, signed)
    ensures forall x :: InWindow(x, width, signed) ==>
              (Pattern(x, width) in LabelPatterns(Range(lo, hi, bits), width) <==> lo <= x <= hi)
    ensures Faithful(Range(lo, hi, bits), width, signed)
  {
    hide Pow2, Pattern, LabelPatterns, Wrap, Listed, InWindow;
    var n := hi - lo + 1;
    Word64();
    PatternOf(lo, bits);
    PatternOf(hi, bits);
    PatternOf(n, 64);
    ConvertedSame(lo, width, signed);
    ConvertedSame(hi, width, signed);
    forall x | InWindow(x, width, signed)
      ensures Pattern(x, width) in LabelPatterns(Range(lo, hi, bits), width) <==> lo <= x <= hi
    {
      RangeListed(lo, hi, bits, width, x);
      ListedFrom(lo, lo, n, x, width, signed);
    }
  }

  /** Of a longer range exactly the first 256 values are listed. */
  lemma LongRange(lo: int, hi: int, bits: nat, width: nat, signed: bool)
    requires 0 <= lo && lo + 256 <= hi < Pow2(bits) && hi - lo + 1 < Pow2(64)
    requires InWindow(lo, width, signed) && InWindow(lo + 255, width, signed)
    ensures forall x :: InWindow(x, width, signed) ==>
              (Pattern(x, width) in LabelPatterns(Range(lo, hi, bits), width) <==> lo <= x < lo + 256)
  {
    hide Pow2, Pattern, LabelPatterns, Listed, InWindow;
    PatternOf(lo, bits);
    PatternOf(hi, bits);
    PatternOf(hi - lo + 1, 64);
    forall x | InWindow(x, width, signed)
      ensures Pattern(x, width) in LabelPatterns(Range(lo, hi, bits), width) <==> lo <= x < lo + 256
    {
      RangeListed(lo, hi, bits, width, x);
      ListedFrom(lo, lo, 256, x, width, signed);
    }
  }

  /** Of a range that runs backwards exactly the first operand is listed. */
  lemma BackwardsRange(lo: int, hi: int, bits: nat, width: nat, signed: bool)
    requires 0 <= hi < lo < Pow2(bits) && InWindow(lo, width, signed)
    ensures forall x :: InWindow(x, width, signed) ==>
              (Pattern(x, width) in LabelPatterns(Range(lo, hi, bits), width) <==> x == lo)
  {
    hide Pow2, Pattern, LabelPatterns, Listed, InWindow;
    PatternOf(lo, bits);
    PatternOf(hi, bits);
    forall x | InWindow(x, width, signed)
      ensures Pattern(x, width) in LabelPatterns(Range(lo, hi, bits), width) <==> x == lo
    {
      RangeListed(lo, hi, bits, width, x);
      ListedFrom(lo, lo, 1, x, width, signed);
    }
  }

  /** Exactly which ranges of values of a condition of 32 bits or more are listed as C means them: forward, of
      at most 256 values, and not through or, unless they are as wide as the condition, from below zero.  The span of
      0 ... -1 in 64 bits wraps to no entry, and no value is what C means. */
  lemma PlainRange(lo: int, hi: int, bits: nat, width: nat, signed: bool)
    requires IsConstant(lo, bits) && IsConstant(hi, bits) && bits <= 64
    requires INT <= width && bits <= width && InWindow(lo, width, signed) && InWindow(hi, width, signed)
    ensures Faithful(Range(lo, hi, bits), width, signed) <==>
            || (lo <= hi < lo + 256 && (0 <= lo || (hi < 0 && bits == width)))
            || (bits == 64 && lo == 0 && hi == -1)
  {
    hide Pow2, Pattern, Faithful, Wrap, First, Meant;
    RangeFaithful(lo, hi, bits, width, signed);
    PlainMeant(lo, hi, width, signed);
    StartExact(lo, bits, width, signed);
    Word();
    if width > INT { Doubling(INT, width); }
    PatternOf(lo, bits);
    PatternOf(hi, bits);
    Word64();
    if bits < 64 { Doubling(bits, 64); }
    var n := Pattern(hi, bits) - Pattern(lo, bits) + 1;
    PatternOf(n, 64);
    if n == Pow2(64) { FullSpan(lo, hi, bits); }
  }

  lemma FullSpan(lo: int, hi: int, bits: nat)
    requires IsConstant(lo, bits) && IsConstant(hi, bits) && bits <= 64
    requires Pattern(hi, bits) - Pattern(lo, bits) + 1 == Pow2(64)
    ensures bits == 64 && lo == 0 && (hi == -1 || hi == Pow2(64) - 1) && Pattern(Pow2(64), 64) == 0
  {
    hide Pow2;
    DivModUnique(Pow2(64), Pow2(64), 1, 0);
    if bits < 64 { Doubling(bits, 64); }
    PatternOf(lo, bits);
    PatternOf(hi, bits);
  }

  lemma {:induction false} SelectConcat(a: seq<(nat, nat)>, b: seq<(nat, nat)>, p: nat, d: nat)
    ensures Select(a + b, p, d) == Select(a, p, Select(b, p, d))
  {
    if a == [] {
      assert a + b == b;
    } else {
      assert (a + b)[1..] == a[1..] + b;
      SelectConcat(a[1..], b, p, d);
    }
  }

  lemma {:induction false} SelectTagged(ps: seq<nat>, block: nat, p: nat, d: nat)
    ensures Select(Tagged(ps, block), p, d) == if p in ps then block else d
  {
    if ps != [] {
      assert Tagged(ps, block)[1..] == Tagged(ps[1..], block);
      SelectTagged(ps[1..], block, p, d);
    }
  }

  /** Dropping repeated patterns does not change what a switch selects. */
  lemma {:induction false} DedupSelects(cases: seq<(nat, nat)>, seen: set<nat>, p: nat, d: nat)
    requires p !in seen
    ensures Select(Dedup(cases, seen), p, d) == Select(cases, p, d)
  {
    if cases != [] {
      if cases[0].0 in seen {
        DedupSelects(cases[1..], seen, p, d);
      } else if cases[0].0 != p {
        var rest := Dedup(cases[1..], seen + {cases[0].0});
        assert ([cases[0]] + rest)[1..] == rest;
        DedupSelects(cases[1..], seen + {cases[0].0}, p, d);
      }
    }
  }

  /** After the clean-up no pattern is listed twice, as a switch instruction demands. */
  lemma {:induction false} DedupDistinct(cases: seq<(nat, nat)>, seen: set<nat>)
    ensures forall i :: 0 <= i < |Dedup(cases, seen)| ==> Dedup(cases, seen)[i].0 !in seen
    ensures forall i, j :: 0 <= i < j < |Dedup(cases, seen)| ==> Dedup(cases, seen)[i].0 != Dedup(cases, seen)[j].0
  {
    if cases != [] {
      if cases[0].0 in seen {
        DedupDistinct(cases[1..], seen);
      } else {
        DedupDistinct(cases[1..], seen + {cases[0].0});
      }
    }
  }

  lemma {:induction false} CollectSelects(l: Stmts, next: nat, dflt: nat, width: nat, signed: bool, x: int)
    requires LabelsFit(l, width, signed) && InWindow(x, width, signed)
    ensures Select(CollectCases(l, next, width), Pattern(x, width), dflt) ==
            match FirstCase(l, x, width, signed) case None => dflt case Some(k) => EntryBlock(l, k, next, dflt)
  {
    if l.Cons? {
      if l.head.Case? {
        var p, ps := Pattern(x, width), LabelPatterns(l.head.lab, width);
        LabelPatternsMeaning(l.head.lab, width, signed, x);
        SelectConcat(Tagged(ps, next), CollectCases(l.tail, next + 1, width), p, dflt);
        SelectTagged(ps, next, p, Select(CollectCases(l.tail, next + 1, width), p, dflt));
        CollectSelects(l.tail, next + 1, dflt, width, signed, x);
      } else {
        CollectSelects(l.tail, next, dflt, width, signed, x);
      }
    }
  }

  lemma {:induction false} DefaultBlock(l: Stmts, next: nat, dflt: nat)
    ensures FirstDefault(l).Some? <==> HasDefault(l)
    ensures FirstDefault(l).Some? ==> EntryBlock(l, FirstDefault(l).value, next, dflt) == dflt
  {
    if l.Cons? {
      DefaultBlock(l.tail, if l.head.Case? then next + 1 else next, dflt);
    }
  }

  /** The switch instruction sends every value of the condition's type to the block of the label C
      enters the body at, and to the default block when C finds no case. */
  lemma Dispatch(l: Stmts, next: nat, dflt: nat, width: nat, signed: bool, x: int)
    requires LabelsFit(l, width, signed) && InWindow(x, width, signed)
    ensures var b := Select(Dedup(CollectCases(l, next, width), {}), Pattern(x, width), dflt);
            match Entry(l, x, width, signed) case None => b == dflt case Some(k) => b == EntryBlock(l, k, next, dflt)
  {
    CollectSelects(l, next, dflt, width, signed, x);
    DedupSelects(CollectCases(l, next, width), {}, Pattern(x, width), dflt);
    DefaultBlock(l, next, dflt);
  }

  /** A switch whose only label does not fit: the code enters it at a value where C does not, and not at the
      one, if any, where C does. */
  lemma LabelMissed(v: int, bits: nat, width: nat, signed: bool, next: nat, dflt: nat)
    requires IsConstant(v, bits) && !LabelFits(Single(v, bits), width, signed)
    ensures var l, x := Cons(Case(Single(v, bits)), Nil), Taken(v, bits, width, signed);
            && InWindow(x, width, signed) && Entry(l, x, width, signed) == None
            && Select(Dedup(CollectCases(l, next, width), {}), Pattern(x, width), dflt) == next
    ensures var l, y := Cons(Case(Single(v, bits)), Nil), Converted(v, width, signed);
            && Entry(l, y, width, signed) == Some(0)
            && (InWindow(y, width, signed) ==>
                Select(Dedup(CollectCases(l, next, width), {}), Pattern(y, width), dflt) == dflt)
  {
    hide Pattern, Wrap, LabelPatterns, LabelFits, Dedup, CollectCases, Converted, Taken;
    SingleMissed(v, bits, width, signed);
    OneLabel(Single(v, bits), width, next, dflt, Pattern(Taken(v, bits, width, signed), width));
    OnlyLabel(Single(v, bits), Taken(v, bits, width, signed), width, signed);
    OnlyLabel(Single(v, bits), Converted(v, width, signed), width, signed);
    OneLabel(Single(v, bits), width, next, dflt, Pattern(Converted(v, width, signed), width));
  }

  lemma OnlyLabel(lab: CaseLabel, x: int, width: nat, signed: bool)
    ensures Entry(Cons(Case(lab), Nil), x, width, signed) == if Covers(lab, x, width, signed) then Some(0) else None
  {
    assert FirstCase(Nil, x, width, signed) == None && FirstDefault(Nil) == None;
  }

  lemma OneLabel(lab: CaseLabel, width: nat, next: nat, dflt: nat, p: nat)
    ensures Select(Dedup(CollectCases(Cons(Case(lab), Nil), next, width), {}), p, dflt) ==
            if p in LabelPatterns(lab, width) then next else dflt
  {
    hide LabelPatterns, Dedup;
    var l := Cons(Case(lab), Nil);
    var ps := LabelPatterns(lab, width);
    assert CollectCases(l.tail, next + 1, width) == [];
    assert Tagged(ps, next) + [] == Tagged(ps, next);
    SelectTagged(ps, next, p, dflt);
    DedupSelects(Tagged(ps, next), {}, p, dflt);
  }

  /** For example the label 3000000000, a 32-bit constant, under a 64-bit condition: not found. */
  lemma ThreeBillionMissed(next: nat, dflt: nat)
    ensures var l := Cons(Case(Single(3000000000, 32)), Nil);
            && Entry(l, 3000000000, 64, true) == Some(0)
            && Select(Dedup(CollectCases(l, next, 64), {}), Pattern(3000000000, 64), dflt) == dflt
  {
    hide Pattern, Dedup, CollectCases, Entry, Select;
    Word();
    PatternInjective(Wrap(3000000000, 64, true), 3000000000, 64, true) by { WrapMeaning(3000000000, 64, true); }
    LabelMissed(3000000000, 32, 64, true, next, dflt);
  }

  /** And the label 200 under a condition of type signed char: taken at -56. */
  lemma TwoHundredTaken(next: nat, dflt: nat)
    ensures var l := Cons(Case(Single(200, 32)), Nil);
            && (forall x :: InWindow(x, 8, true) ==> Entry(l, x, 8, true) == None)
            && Select(Dedup(CollectCases(l, next, 8), {}), Pattern(-56, 8), dflt) == next
  {
    hide Pattern, Dedup, CollectCases, Select, Wrap, Entry;
    var l := Cons(Case(Single(200, 32)), Nil);
    Word();
    PatternInjective(Wrap(200, 32, true), 200, 32, true) by { WrapMeaning(200, 32, true); }
    PatternInjective(Taken(200, 32, 8, true), -56, 8, true) by {
      WrapMeaning(200, 8, true);
      PatternOf(200, 8);
      PatternOf(-56, 8);
    }
    LabelMissed(200, 32, 8, true, next, dflt);
    forall x | InWindow(x, 8, true) ensures Entry(l, x, 8, true) == None {
      OnlyLabel(Single(200, 32), x, 8, true);
    }
  }

  /** The label 256 under a condition of type unsigned char is taken at zero. */
  lemma TwoFiftySixTaken(next: nat, dflt: nat)
    ensures var l := Cons(Case(Single(256, 32)), Nil);
            && (forall x :: InWindow(x, 8, false) ==> Entry(l, x, 8, false) == None)
            && Select(Dedup(CollectCases(l, next, 8), {}), Pattern(0, 8), dflt) == next
  {
    hide Pattern, Dedup, CollectCases, Select, Wrap, Entry;
    var l := Cons(Case(Single(256, 32)), Nil);
    Word();
    PatternInjective(Wrap(256, 32, true), 256, 32, true) by { WrapMeaning(256, 32, true); }
    PatternInjective(Taken(256, 32, 8, false), 0, 8, false) by {
      WrapMeaning(256, 8, false);
      PatternAdd(0, 256, 0, 8) by { TurnPattern(); }
    }
    LabelMissed(256, 32, 8, false, next, dflt);
    forall x | InWindow(x, 8, false) ensures Entry(l, x, 8, false) == None {
      OnlyLabel(Single(256, 32), x, 8, false);
    }
  }

  lemma TurnPattern()
    ensures Pattern(0, 8) == 0 && Pattern(256, 8) == 0
  {
    Word();
    DivModUnique(256, 256, 1, 0);
    DivModUnique(0, 256, 0, 0);
  }

  lemma Word()
    ensures Pow2(8) == 256 && Pow2(32) == 0x1_0000_0000 && 2 * Pow2(32) <= Pow2(64)
  {
    assert Pow2(8) == 256;
    Pow2Sum(8, 8);
    Pow2Sum(16, 16);
    Doubling(32, 64);
  }
}
