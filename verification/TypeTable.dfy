/** The types of a translation unit by number, and what the numbers mean: sizes, alignments, records
    and their layout, signatures, and chains of typedefs and qualifiers. */
module TypeTable {
  import opened Options

  datatype Member = Member(name: string, ty: nat, offset: nat, bitOffset: Option<nat>, bitWidth: Option<nat>)

  datatype Param = Param(name: Option<string>, ty: nat)

  datatype CType =
    | Void
    | Bool
    | Char(signed: bool)
    | Short(signed: bool)
    | Int(signed: bool)
    | Long(signed: bool)
    | LongLong(signed: bool)
    | Float
    | Double
    | LongDouble
    | Pointer(base: nat)
    | Array(element: nat, length: Option<nat>)
    | Struct(tag: Option<string>, members: seq<Member>, size: nat, align: nat)
    | Union(tag: Option<string>, members: seq<Member>, size: nat, align: nat)
    | Enum(tag: Option<string>, underlying: nat)
    | Function(result: nat, params: seq<Param>, variadic: bool)
    | Typedef(name: string, underlying: nat)
    | Qualified(qualifiers: bv8, base: nat)

  type Types = seq<CType>

  predicate IsRecord(t: CType) { t.Struct? || t.Union? }

  /** The types whose size a type's size is made of. */
  function Components(t: CType): set<nat> {
    match t
    case Array(e, _) => {e}
    case Struct(_, ms, _, _) => set m | m in ms :: m.ty
    case Union(_, ms, _, _) => set m | m in ms :: m.ty
    case Enum(_, u) => {u}
    case Typedef(_, u) => {u}
    case Qualified(_, b) => {b}
    case _ => {}
  }

  /** Every type was entered after the types it is made of. */
  predicate Grounded(types: Types) {
    forall id :: 0 <= id < |types| ==> Below(types[id], id)
  }

  predicate Below(t: CType, id: nat) {
    forall c :: c in Components(t) ==> c < id
  }

  /** The size of a type; a record's is what its entry says, and a number not in the table has none. */
  function SizeOf(types: Types, id: nat): nat
    requires Grounded(types)
    decreases id
  {
    if id >= |types| then 0
    else
      match types[id]
      case Void => 0
      case Bool => 1
      case Char(_) => 1
      case Short(_) => 2
      case Int(_) => 4
      case Long(_) => 8
      case LongLong(_) => 8
      case Float => 4
      case Double => 8
      case LongDouble => 16
      case Pointer(_) => 8
      case Array(e, n) => assert e in Components(types[id]); if n.Some? then SizeOf(types, e) * n.value else 0
      case Struct(_, _, s, _) => s
      case Union(_, _, s, _) => s
      case Enum(_, u) => assert u in Components(types[id]); SizeOf(types, u)
      case Function(_, _, _) => 0
      case Typedef(_, u) => assert u in Components(types[id]); SizeOf(types, u)
      case Qualified(_, b) => assert b in Components(types[id]); SizeOf(types, b)
  }

  function AlignOf(types: Types, id: nat): nat
    requires Grounded(types)
    decreases id
  {
    if id >= |types| then 1
    else
      match types[id]
      case Void => 1
      case Bool => 1
      case Char(_) => 1
      case Short(_) => 2
      case Int(_) => 4
      case Long(_) => 8
      case LongLong(_) => 8
      case Float => 4
      case Double => 8
      case LongDouble => 16
      case Pointer(_) => 8
      case Array(e, _) => assert e in Components(types[id]); AlignOf(types, e)
      case Struct(_, _, _, a) => a
      case Union(_, _, _, a) => a
      case Enum(_, u) => assert u in Components(types[id]); AlignOf(types, u)
      case Function(_, _, _) => 1
      case Typedef(_, u) => assert u in Components(types[id]); AlignOf(types, u)
      case Qualified(_, b) => assert b in Components(types[id]); AlignOf(types, b)
  }

  function IsInteger(types: Types, id: nat): bool
    requires Grounded(types)
    decreases id
  {
    if id >= |types| then false
    else
      match types[id]
      case Bool => true
      case Char(_) => true
      case Short(_) => true
      case Int(_) => true
      case Long(_) => true
      case LongLong(_) => true
      case Enum(_, _) => true
      case Qualified(_, b) => assert b in Components(types[id]); IsInteger(types, b)
      case Typedef(_, u) => assert u in Components(types[id]); IsInteger(types, u)
      case _ => false
  }

  // ----- typedefs and qualifiers -----

  /** The type a typedef or a qualified type stands for. */
  function Next(types: Types, id: nat): Option<nat> {
    if id >= |types| then None
    else match types[id]
         case Typedef(_, u) => Some(u)
         case Qualified(_, b) => Some(b)
         case _ => None
  }

  /** n steps along the chain; a chain that has ended stays where it is. */
  function Along(types: Types, id: nat, n: nat): nat
    decreases n
  {
    if n == 0 || Next(types, id).None? then id else Along(types, Next(types, id).value, n - 1)
  }

  /** r is where the chain from id ends, or, if it never ends, the first number it comes back to. */
  ghost predicate Resolves(types: Types, id: nat, r: nat) {
    exists n: nat :: ResolvesIn(types, id, r, n)
  }

  ghost predicate ResolvesIn(types: Types, id: nat, r: nat, n: nat) {
    && Along(types, id, n) == r
    && (forall i, j :: 0 <= i < j < n ==> Along(types, id, i) != Along(types, id, j))
    && (forall i :: 0 <= i < n ==> Next(types, Along(types, id, i)).Some?)
    && (Next(types, r).None? ==> forall i :: 0 <= i < n ==> Along(types, id, i) != r)
    && (Next(types, r).Some? ==> exists i :: 0 <= i < n && Along(types, id, i) == r)
  }

  lemma {:induction false} AlongOneMore(types: Types, id: nat, n: nat)
    ensures Next(types, Along(types, id, n)).Some? ==> Along(types, id, n + 1) == Next(types, Along(types, id, n)).value
    ensures Next(types, Along(types, id, n)).None? ==> Along(types, id, n + 1) == Along(types, id, n)
    decreases n
  {
    if n > 0 && Next(types, id).Some? { AlongOneMore(types, Next(types, id).value, n - 1); }
  }

  lemma {:induction false} AlongAdd(types: Types, id: nat, m: nat, n: nat)
    ensures Along(types, id, m + n) == Along(types, Along(types, id, m), n)
    decreases m
  {
    if m > 0 {
      if Next(types, id).Some? {
        AlongAdd(types, Next(types, id).value, m - 1, n);
      } else {
        AlongEnded(types, id, n);
      }
    }
  }

  lemma AlongEnded(types: Types, id: nat, n: nat)
    requires Next(types, id).None?
    ensures Along(types, id, n) == id
  {
  }

  /** The result is neither a typedef nor qualified exactly when the chain ends at all. */
  lemma ResolvedIsFinal(types: Types, id: nat, r: nat)
    requires Resolves(types, id, r)
    ensures Next(types, r).None? <==> exists n: nat :: Next(types, Along(types, id, n)).None?
  {
    var n: nat :| ResolvesIn(types, id, r, n);
    if Next(types, r).None? {
      assert Next(types, Along(types, id, n)).None?;
    } else {
      var i :| 0 <= i < n && Along(types, id, i) == r;
      forall m: nat ensures Next(types, Along(types, id, m)).Some? { CycleNeverEnds(types, id, i, n, m); }
    }
  }

  /** A chain that came back to where it was at i goes round for ever. */
  lemma {:induction false} CycleNeverEnds(types: Types, id: nat, i: nat, n: nat, m: nat)
    requires i < n && Along(types, id, i) == Along(types, id, n)
    requires forall k :: 0 <= k < n ==> Next(types, Along(types, id, k)).Some?
    ensures Next(types, Along(types, id, m)).Some?
    decreases m
  {
    if m >= n {
      AlongAdd(types, id, n, m - n);
      AlongAdd(types, id, i, m - n);
      CycleNeverEnds(types, id, i, n, i + (m - n));
    }
  }

  /** Resolving again changes nothing, on cyclic tables too. */
  lemma ResolveIdempotent(types: Types, id: nat, r: nat, r': nat)
    requires Resolves(types, id, r) && Resolves(types, r, r')
    ensures r' == r
  {
    var n: nat :| ResolvesIn(types, id, r, n);
    var m: nat :| ResolvesIn(types, r, r', m);
    if Next(types, r).None? {
      AlongEnded(types, r, m);
    } else if m > 0 {
      var i :| 0 <= i < n && Along(types, id, i) == r;
      Lap(types, id, i, n, m, r);
      if m < n - i {
        AlongAdd(types, id, i, m);
        assert Next(types, Along(types, id, i + m)).Some?;
        var j :| 0 <= j < m && Along(types, r, j) == r';
        AlongAdd(types, id, i, j);
      }
    }
  }

  /** Going round the cycle once from its entry comes back to the entry and to nothing before that. */
  lemma Lap(types: Types, id: nat, i: nat, n: nat, m: nat, r: nat)
    requires i < n && Along(types, id, i) == r == Along(types, id, n)
    requires forall j, k :: 0 <= j < k < m ==> Along(types, r, j) != Along(types, r, k)
    ensures m <= n - i
    ensures Along(types, r, n - i) == r
  {
    if m > n - i { assert Along(types, r, 0) != Along(types, r, n - i); }
    AlongAdd(types, id, i, n - i);
  }

  /** On a table without cycles the result has the size, alignment and kind of the original. */
  lemma {:induction false} AlongKeeps(types: Types, id: nat, n: nat)
    requires Grounded(types)
    ensures var r := Along(types, id, n);
            && SizeOf(types, r) == SizeOf(types, id) && AlignOf(types, r) == AlignOf(types, id)
            && IsInteger(types, r) == IsInteger(types, id)
    decreases n
  {
    if n > 0 && Next(types, id).Some? { AlongKeeps(types, Next(types, id).value, n - 1); }
  }

  lemma {:induction false} GroundedEnds(types: Types, id: nat)
    requires Grounded(types)
    ensures Next(types, Along(types, id, id)).None?
  {
    if Next(types, id).Some? {
      var c := Next(types, id).value;
      assert c in Components(types[id]);
      GroundedEnds(types, c);
      AlongAdd(types, c, c, id - 1 - c);
      AlongEnded(types, Along(types, c, c), id - 1 - c);
    }
  }

  /** What resolve_typedef promises on the tables the front end builds. */
  lemma ResolvedSame(types: Types, id: nat, r: nat)
    requires Grounded(types) && Resolves(types, id, r)
    ensures Next(types, r).None?
    ensures SizeOf(types, r) == SizeOf(types, id) && AlignOf(types, r) == AlignOf(types, id)
    ensures IsInteger(types, r) == IsInteger(types, id)
  {
    var n: nat :| ResolvesIn(types, id, r, n);
    AlongKeeps(types, id, n);
    GroundedEnds(types, id);
    ResolvedIsFinal(types, id, r);
  }
}
