/** The type system object: the table, the signature cache that keeps entries unique, and the methods
    that enter types, resolve typedefs and lay out records. */
module TypeSystem {
  import opened Options
  import opened RecordLayout
  import opened TypeTable
  import opened RecordTable

  /** What identifies a type; records have no signature and are never merged. */
  datatype Signature =
    | VoidSig
    | BoolSig
    | CharSig(bool)
    | ShortSig(bool)
    | IntSig(bool)
    | LongSig(bool)
    | LongLongSig(bool)
    | FloatSig
    | DoubleSig
    | LongDoubleSig
    | PointerSig(nat)
    | ArraySig(nat, Option<nat>)
    | FunctionSig(nat, seq<Param>, bool)
    | EnumSig(Option<string>, nat)
    | TypedefSig(string, nat)
    | QualifiedSig(bv8, nat)

  function FromCType(t: CType): Option<Signature> {
    match t
    case Void => Some(VoidSig)
    case Bool => Some(BoolSig)
    case Char(s) => Some(CharSig(s))
    case Short(s) => Some(ShortSig(s))
    case Int(s) => Some(IntSig(s))
    case Long(s) => Some(LongSig(s))
    case LongLong(s) => Some(LongLongSig(s))
    case Float => Some(FloatSig)
    case Double => Some(DoubleSig)
    case LongDouble => Some(LongDoubleSig)
    case Pointer(b) => Some(PointerSig(b))
    case Array(e, n) => Some(ArraySig(e, n))
    case Function(r, ps, v) => Some(FunctionSig(r, ps, v))
    case Enum(n, u) => Some(EnumSig(n, u))
    case Typedef(n, u) => Some(TypedefSig(n, u))
    case Qualified(q, b) => Some(QualifiedSig(q, b))
    case Struct(_, _, _, _) => None
    case Union(_, _, _, _) => None
  }

  /** A signature determines the type, and exactly the records have none. */
  lemma SignatureMeaning(t: CType, u: CType)
    ensures FromCType(t).None? <==> IsRecord(t)
    ensures FromCType(t).Some? ==> (FromCType(t) == FromCType(u) <==> t == u)
  {
  }

  const CHAR := 2
  const UCHAR := 4

  const BUILTINS: Types := [
    Void, Bool, Char(false), Char(true), Char(false), Short(true), Short(false), Int(true), Int(false),
    Long(true), Long(false), LongLong(true), LongLong(false), Float, Double, LongDouble]

  /** The number a built-in type is known by. */
  ghost function Rank(t: CType): nat {
    match t
    case Void => 0
    case Bool => 1
    case Char(s) => if s then 3 else UCHAR
    case Short(s) => if s then 5 else 6
    case Int(s) => if s then 7 else 8
    case Long(s) => if s then 9 else 10
    case LongLong(s) => if s then 11 else 12
    case Float => 13
    case Double => 14
    case LongDouble => 15
    case _ => 16
  }

  lemma BuiltinRank(i: nat)
    requires i < |BUILTINS|
    ensures Rank(BUILTINS[i]) == if i == CHAR then UCHAR else i
    ensures FromCType(BUILTINS[i]).Some?
  {
  }

  /** Two built-in types share a signature only if they are CHAR and UCHAR. */
  lemma BuiltinsDistinct(i: nat, j: nat)
    requires i < j < |BUILTINS| && FromCType(BUILTINS[i]) == FromCType(BUILTINS[j])
    ensures i == CHAR && j == UCHAR
  {
    hide FromCType, Rank;
    BuiltinRank(i);
    BuiltinRank(j);
    SignatureMeaning(BUILTINS[i], BUILTINS[j]);
  }

  /** The cache knows every signature in the table by one number, and every number but CHAR by the
      signature it has; CHAR is the same type as UCHAR and is known by that number. */
  ghost predicate CacheOk(types: Types, cache: map<Signature, nat>) {
    && BUILTINS <= types
    && (forall sig :: sig in cache ==> cache[sig] < |types| && FromCType(types[cache[sig]]) == Some(sig))
    && (forall id :: 0 <= id < |types| && id != CHAR && FromCType(types[id]).Some? ==>
          FromCType(types[id]).value in cache && cache[FromCType(types[id]).value] == id)
  }

  /** The only two numbers that share a signature are CHAR and UCHAR. */
  lemma SignaturesUnique(types: Types, cache: map<Signature, nat>, i: nat, j: nat)
    requires CacheOk(types, cache) && i < j < |types| && FromCType(types[i]).Some?
    ensures FromCType(types[i]) == FromCType(types[j]) <==> i == CHAR && j == UCHAR
  {
    assert types[CHAR] == BUILTINS[CHAR] && types[UCHAR] == BUILTINS[UCHAR];
  }

  /** Where a type is, or would be, in the table. */
  ghost predicate IdOf(types: Types, t: CType, id: nat) { id < |types| && types[id] == t }

  class TypeSystem {
    var types: Types
    var typeCache: map<Signature, nat>

    ghost predicate Valid()
      reads this
    {
      CacheOk(types, typeCache)
    }

    constructor ()
      ensures Valid() && TableOk(types) && types == BUILTINS
    {
      types := BUILTINS;
      typeCache := map[];
      new;
      for i := 0 to |BUILTINS|
        invariant types == BUILTINS
        invariant forall sig :: sig in typeCache ==>
                    typeCache[sig] < i && FromCType(BUILTINS[typeCache[sig]]) == Some(sig)
        invariant forall id :: 0 <= id < i && (id != CHAR || i <= UCHAR) ==> Known(BUILTINS[id], id)
      {
        hide FromCType;
        BuiltinRank(i);
        forall id | 0 <= id < i && FromCType(BUILTINS[id]) == FromCType(BUILTINS[i]) ensures id == CHAR && i == UCHAR {
          BuiltinsDistinct(id, i);
        }
        var sig := FromCType(types[i]);
        if sig.Some? { typeCache := typeCache[sig.value := i]; }
      }
      NoRecords();
    }

    ghost predicate Known(t: CType, id: nat)
      reads this
    {
      FromCType(t).Some? && FromCType(t).value in typeCache && typeCache[FromCType(t).value] == id
    }

    static lemma NoRecords()
      ensures TableOk(BUILTINS)
    {
    }

    /** Enter a type.  A type that is not a record and is there already keeps its number; otherwise the
        type gets the next one.  Nothing that was there changes.  Of the numbers that hold the type of a
        non-record only CHAR is never handed out, so equal types get equal numbers. */
    method AddType(t: CType) returns (id: nat)
      requires Valid()
      modifies this
      ensures Valid() && IdOf(types, t, id)
      ensures if exists j :: 0 <= j < |old(types)| && old(types)[j] == t && !IsRecord(t)
              then types == old(types)
              else types == old(types) + [t] && id == |old(types)|
      ensures !IsRecord(t) ==> OnlyId(types, t, id)
      ensures TableOk(old(types)) && Below(t, |old(types)|) && (IsRecord(t) ==> t.align == 0) ==> TableOk(types)
    {
      hide TableOk, Below, FromCType;
      SignatureMeaning(t, t);
      var sig := FromCType(t);
      if sig.Some? && sig.value in typeCache {
        id := typeCache[sig.value];
        SignatureMeaning(t, types[id]);
        CachedOnly(types, typeCache, t, id);
        return;
      }
      id := |types|;
      if TableOk(types) && Below(t, |types|) && (IsRecord(t) ==> t.align == 0) { AppendOk(types, t); }
      Missing(types, typeCache, t);
      AppendCache(types, typeCache, t);
      if sig.Some? { typeCache := typeCache[sig.value := id]; }
      types := types + [t];
    }

    /** No number but CHAR and this one holds the type. */
    ghost predicate OnlyId(types: Types, t: CType, id: nat) {
      id != CHAR && forall j :: 0 <= j < |types| && types[j] == t && j != CHAR ==> j == id
    }

    static lemma CachedOnly(types: Types, cache: map<Signature, nat>, t: CType, id: nat)
      requires CacheOk(types, cache) && FromCType(t).Some? && FromCType(t).value in cache
               && cache[FromCType(t).value] == id
      ensures types[id] == t && id != CHAR
      ensures forall j :: 0 <= j < |types| && types[j] == t && j != CHAR ==> j == id
    {
      hide FromCType;
      SignatureMeaning(types[id], t);
      assert types[CHAR] == BUILTINS[CHAR] && types[UCHAR] == BUILTINS[UCHAR];
    }

    /** A type whose signature is not known is not in the table. */
    static lemma Missing(types: Types, cache: map<Signature, nat>, t: CType)
      requires CacheOk(types, cache) && (FromCType(t).Some? ==> FromCType(t).value !in cache)
      ensures !IsRecord(t) ==> forall j :: 0 <= j < |types| ==> types[j] != t
    {
      hide FromCType, IsRecord;
      SignatureMeaning(t, t);
      assert types[CHAR] == BUILTINS[CHAR] && types[UCHAR] == BUILTINS[UCHAR];
      if !IsRecord(t) {
        forall j | 0 <= j < |types| ensures types[j] != t {
          assert FromCType(types[UCHAR]) == FromCType(types[CHAR]);
          if j != CHAR { assert FromCType(types[j]).Some? ==> FromCType(types[j]).value in cache; }
        }
      }
    }

    static lemma AppendCache(types: Types, cache: map<Signature, nat>, t: CType)
      requires CacheOk(types, cache) && (FromCType(t).Some? ==> FromCType(t).value !in cache)
      ensures var sig := FromCType(t);
              CacheOk(types + [t], if sig.Some? then cache[sig.value := |types|] else cache)
      ensures |types| != CHAR
    {
      hide FromCType;
      SignatureMeaning(t, t);
      assert BUILTINS <= types;
      var types' := types + [t];
      assert forall id :: 0 <= id < |types| ==> types'[id] == types[id];
      BuiltinRank(UCHAR);
      assert types[UCHAR] == BUILTINS[UCHAR];
    }

    /** Follow typedefs and qualifiers, remembering where one has been. */
    method ResolveTypedef(id: nat) returns (r: nat)
      ensures Resolves(types, id, r)
    {
      r := id;
      var visited: seq<nat> := [];
      while true
        invariant r == Along(types, id, |visited|)
        invariant forall i :: 0 <= i < |visited| ==> visited[i] == Along(types, id, i) && Next(types, visited[i]).Some?
        invariant forall i, j :: 0 <= i < j < |visited| ==> visited[i] != visited[j]
        decreases |types| - |visited|
      {
        Distinct(visited, |types|);
        if r in visited {
          var i :| 0 <= i < |visited| && visited[i] == r;
          assert Along(types, id, i) == r;
          assert ResolvesIn(types, id, r, |visited|);
          return;
        }
        AlongOneMore(types, id, |visited|);
        var n := Next(types, r);
        if n.None? {
          assert ResolvesIn(types, id, r, |visited|);
          return;
        }
        visited := visited + [r];
        Distinct(visited, |types|);
        r := n.value;
      }
    }

    /** The layout of a record with these members. */
    method ComputeLayoutInfo(members: seq<Member>, isUnion: bool) returns (info: LayoutInfo)
      requires Grounded(types) && Placeable(SlotsOf(types, members))
      ensures info == LayoutOf(types, members, isUnion)
      ensures if isUnion then Overlaid(types, members, info) else WellPlaced(types, members, info)
    {
      hide Overlaid, WellPlaced, LayoutOf, Placeable, SlotsOf;
      if isUnion {
        info := ComputeUnion(members);
      } else {
        info := ComputeStruct(members);
      }
    }

    method ComputeUnion(members: seq<Member>) returns (info: LayoutInfo)
      requires Grounded(types) && Placeable(SlotsOf(types, members))
      ensures info == LayoutOf(types, members, true) && Overlaid(types, members, info)
    {
      hide Overlaid, SizeOf, AlignOf, Placeable, AlignUp, Spots, RecordSize, MaxAlign, MaxSize;
      MaxAlignBounds(SlotsOf(types, members));
      ghost var slots := SlotsOf(types, members);
      var maxAlign, maxSize, placed := 1, 0, [];
      UnionStart(slots);
      for i := 0 to |members|
        invariant maxAlign == MaxAlign(slots[..i]) && maxSize == MaxSize(slots[..i]) && maxAlign > 0
        invariant |placed| == i && forall k :: 0 <= k < i ==> placed[k] == members[k].(offset := 0)
      {
        var m := members[i];
        UnionStep(slots, i);
        if AlignOf(types, m.ty) > maxAlign { maxAlign := AlignOf(types, m.ty); }
        if SizeOf(types, m.ty) > maxSize { maxSize := SizeOf(types, m.ty); }
        placed := placed + [m.(offset := 0)];
      }
      assert slots[..|members|] == slots;
      info := LayoutInfo(AlignUp(maxSize, maxAlign), maxAlign, placed);
      UnionMembers(types, members);
    }

    static lemma UnionStart(slots: seq<Slot>)
      ensures MaxAlign(slots[..0]) == 1 && MaxSize(slots[..0]) == 0
    {
    }

    static lemma UnionStep(slots: seq<Slot>, i: nat)
      requires i < |slots|
      ensures MaxAlign(slots[..i + 1]) ==
              if slots[i].align > MaxAlign(slots[..i]) then slots[i].align else MaxAlign(slots[..i])
      ensures MaxSize(slots[..i + 1]) ==
              if slots[i].size > MaxSize(slots[..i]) then slots[i].size else MaxSize(slots[..i])
    {
      assert slots[..i + 1][..i] == slots[..i] && slots[..i + 1][i] == slots[i];
    }

    method ComputeStruct(members: seq<Member>) returns (info: LayoutInfo)
      requires Grounded(types) && Placeable(SlotsOf(types, members))
      ensures info == LayoutOf(types, members, false) && WellPlaced(types, members, info)
    {
      hide WellPlaced, Spots, Last, MaxAlign, Placeable, LayoutOf, AlignOf, SizeOf, Place, PlacedMember, CursorAt,
           SameCursor;
      ghost var slots := SlotsOf(types, members);
      var offset: nat, maxAlign: nat, placed := 0, 1, [];
      var base: Option<nat>, used: nat, unit: nat := None, 0, 0;
      ghost var spots: seq<Spot> := [];
      StructStart(slots);
      for i := 0 to |members|
        invariant maxAlign == MaxAlign(slots[..i]) && maxAlign > 0
        invariant |placed| == |spots| == i && forall k :: 0 <= k < i ==> placed[k] == PlacedMember(members[k], spots[k])
        invariant Sound(CursorAt(offset, base, unit, used)) && Placeable(slots[i..])
        invariant spots + Spots(CursorAt(offset, base, unit, used), slots[i..]) == Spots(START, slots)
        invariant CloseUnit(Last(CursorAt(offset, base, unit, used), slots[i..])) == CloseUnit(Last(START, slots))
      {
        var m := members[i];
        ghost var c, s := CursorAt(offset, base, unit, used), slots[i];
        StructStep(c, slots, i, spots);
        PlaceOne(c, s);
        if AlignOf(types, m.ty) > maxAlign { maxAlign := AlignOf(types, m.ty); }
        var p;
        p, offset, base, unit, used := PlaceMember(m, offset, base, unit, used);
        placed := placed + [p];
        spots := spots + [Place(c, s).1];
        SameCursorSpots(Place(c, s).0, CursorAt(offset, base, unit, used), slots[i + 1..]);
      }
      ghost var before := offset;
      if base.Some? {
        offset := base.value + unit;
      }
      info := LayoutInfo(AlignUp(offset, maxAlign), maxAlign, placed);
      StructEnd(before, base, unit, used, slots, spots, offset);
      StructLayout(types, members, spots, info, offset);
      StructMembers(types, members);
    }

    static lemma StructLayout(types: Types, members: seq<Member>, spots: seq<Spot>, info: LayoutInfo, offset: nat)
      requires Grounded(types) && Placeable(SlotsOf(types, members))
      requires spots == Spots(START, SlotsOf(types, members)) && offset == Extent(SlotsOf(types, members))
      requires info.align == MaxAlign(SlotsOf(types, members)) > 0
      requires info.size == AlignUp(offset, info.align)
      requires |info.members| == |members| && forall k :: 0 <= k < |members| ==>
                 info.members[k] == PlacedMember(members[k], spots[k])
      ensures info == LayoutOf(types, members, false)
    {
      hide Spots, MaxAlign, Last, Placeable, SlotsOf;
      assert info.members == PlacedMembers(types, members);
    }

    /** One member of a struct; base, unit and used describe the open storage unit. */
    method PlaceMember(m: Member, offset: nat, base: Option<nat>, unit: nat, used: nat)
      returns (placed: Member, offset': nat, base': Option<nat>, unit': nat, used': nat)
      requires Grounded(types) && AlignOf(types, m.ty) > 0 && PackedWidth(m) <= 8 * SizeOf(types, m.ty)
      requires Sound(CursorAt(offset, base, unit, used))
      ensures Sound(CursorAt(offset', base', unit', used'))
      ensures var (c, p) := Place(CursorAt(offset, base, unit, used), SlotOf(types, m));
              placed == PlacedMember(m, p) && SameCursor(c, CursorAt(offset', base', unit', used'))
    {
      hide AlignOf, SizeOf, AlignUp, Grounded;
      offset', base', unit', used' := offset, base, unit, used;
      var mAlign, mSize := AlignOf(types, m.ty), SizeOf(types, m.ty);
      if m.bitOffset.Some? && m.bitWidth.Some? && m.bitOffset.value == 0 && m.bitWidth.value > 0 {
        if base'.Some? {
          var remaining: nat := unit' * 8 - used';
          if remaining < m.bitWidth.value {
            offset', base', used' := base'.value + unit', None, 0;
          }
        }
        if base'.None? {
          offset' := AlignUp(offset', mAlign);
          base', unit', used' := Some(offset'), mSize, 0;
        }
        placed := m.(offset := base'.value, bitOffset := Some(used'));
        used' := used' + m.bitWidth.value;
      } else {
        if base'.Some? {
          offset', base', used' := base'.value + unit', None, 0;
        }
        offset' := AlignUp(offset', mAlign);
        if m.bitOffset.Some? && m.bitWidth.Some? {
          placed := m.(offset := offset');
        } else {
          placed := m.(offset := offset', bitOffset := None, bitWidth := None);
        }
        offset' := offset' + mSize;
      }
    }

    static lemma StructStart(slots: seq<Slot>)
      ensures slots[0..] == slots && MaxAlign(slots[..0]) == 1
      ensures Placeable(slots) ==> [] + Spots(START, slots) == Spots(START, slots)
      ensures CursorAt(0, None, 0, 0) == START && Sound(START)
    {
    }

    static lemma StructStep(c: Cursor, slots: seq<Slot>, i: nat, spots: seq<Spot>)
      requires i < |slots| && Placeable(slots[i..])
      ensures Placeable(slots[i + 1..]) && slots[i].align > 0 && slots[i].width <= 8 * slots[i].size
      ensures spots + Spots(c, slots[i..]) ==
              (spots + [Place(c, slots[i]).1]) + Spots(Place(c, slots[i]).0, slots[i + 1..])
      ensures Last(c, slots[i..]) == Last(Place(c, slots[i]).0, slots[i + 1..])
      ensures MaxAlign(slots[..i + 1]) ==
              if slots[i].align > MaxAlign(slots[..i]) then slots[i].align else MaxAlign(slots[..i])
    {
      assert slots[i..][0] == slots[i] && slots[i..][1..] == slots[i + 1..];
      assert slots[..i + 1][..i] == slots[..i] && slots[..i + 1][i] == slots[i];
    }

    static lemma StructEnd(before: nat, base: Option<nat>, unit: nat, used: nat, slots: seq<Slot>, spots: seq<Spot>,
                           offset: nat)
      requires Placeable(slots)
      requires CloseUnit(Last(CursorAt(before, base, unit, used), slots[|slots|..])) == CloseUnit(Last(START, slots))
      requires spots + Spots(CursorAt(before, base, unit, used), slots[|slots|..]) == Spots(START, slots)
      requires offset == if base.Some? then base.value + unit else before
      ensures slots[..|slots|] == slots && spots == Spots(START, slots) && offset == Extent(slots)
    {
      assert slots[|slots|..] == [];
    }

    static function CursorAt(offset: nat, base: Option<nat>, unit: nat, used: nat): Cursor {
      Cursor(offset, if base.Some? then Opened(base.value, unit, used) else Closed)
    }

    /** The running offset does not matter while a unit is open. */
    static predicate SameCursor(c: Cursor, d: Cursor) {
      c.unit == d.unit && (c.unit.Closed? ==> c.offset == d.offset)
    }

    static lemma SameCursorSpots(c: Cursor, d: Cursor, slots: seq<Slot>)
      requires Placeable(slots) && SameCursor(c, d)
      ensures Spots(c, slots) == Spots(d, slots) && CloseUnit(Last(c, slots)) == CloseUnit(Last(d, slots))
      decreases |slots|
    {
      if slots != [] { SameCursorSpots(Place(c, slots[0]).0, Place(d, slots[0]).0, slots[1..]); }
    }

    method UpdateStructLayout(id: nat, info: LayoutInfo)
      modifies this`types
      ensures |types| == |old(types)|
      ensures forall j :: 0 <= j < |types| && j != id ==> types[j] == old(types)[j]
      ensures id < |types| ==>
                types[id] == match old(types)[id]
                             case Struct(tag, _, _, _) => Struct(tag, info.members, info.size, info.align)
                             case Union(tag, _, _, _) => Union(tag, info.members, info.size, info.align)
                             case t => t
    {
      if id < |types| {
        match types[id] {
          case Struct(tag, _, _, _) => types := types[id := Struct(tag, info.members, info.size, info.align)];
          case Union(tag, _, _, _) => types := types[id := Union(tag, info.members, info.size, info.align)];
          case _ =>
        }
      }
    }

    /** Lay out a record that has no layout yet, from complete members; anything else stays as it is. */
    method ComputeStructLayout(id: nat)
      requires Valid() && TableOk(types)
      requires id < |types| && IsRecord(types[id]) && types[id].align == 0 ==> Ready(types, types[id].members)
      modifies this
      ensures Valid() && TableOk(types) && typeCache == old(typeCache) && |types| == |old(types)|
      ensures forall j :: 0 <= j < |types| && j != id ==> types[j] == old(types)[j]
      ensures if id < |types| && IsRecord(old(types)[id]) && old(types)[id].align == 0
              then IsRecord(types[id]) && types[id].Union? == old(types)[id].Union?
                && types[id].tag == old(types)[id].tag
                   && LaidFrom(types, types[id], old(types)[id].members) && types[id].align > 0
              else types == old(types)
    {
      hide TableOk, LaidFrom, CacheOk, Ready, Placeable, LayoutOf, SlotsOf, Below, Grounded;
      if id >= |types| || !IsRecord(types[id]) || types[id].align != 0 { return; }
      var members, isUnion := types[id].members, types[id].Union?;
      TableGrounded(types);
      ReadyPlaceable(types, members);
      var info := ComputeLayoutInfo(members, isUnion);
      ghost var before, t := types, if isUnion then Union(types[id].tag, info.members, info.size, info.align)
                                    else Struct(types[id].tag, info.members, info.size, info.align);
      LayoutKept(types, id, t, info);
      UpdateStructLayout(id, info);
      assert types == before[id := t];
      CacheKept(before, id, t);
    }

    static lemma TableGrounded(types: Types)
      requires TableOk(types)
      ensures Grounded(types)
    {
    }

    /** The record with its layout in place of the one without. */
    static lemma LayoutKept(types: Types, id: nat, t: CType, info: LayoutInfo)
      requires TableOk(types) && id < |types| && IsRecord(types[id]) && types[id].align == 0
      requires Ready(types, types[id].members) && Placeable(SlotsOf(types, types[id].members))
      requires IsRecord(t) && t.Union? == types[id].Union?
      requires info == LayoutOf(types, types[id].members, t.Union?) && info == LayoutInfo(t.size, t.align, t.members)
      ensures TableOk(types[id := t]) && Grounded(types[id := t])
      ensures LaidFrom(types[id := t], t, types[id].members) && t.align > 0
    {
      hide LayoutOf, RecordOk, Spots, RecordSize, AlignUp, MaxSize, PackedWidth, SizeOf, AlignOf, LaidOut, Below;
      LaidBelow(types, id, t);
      LayoutOk(types, id, t);
      TableGrounded(types[id := t]);
      UpdateKeeps(types, id, t, t, types[id].members);
      LayoutAlign(types, types[id].members, t.Union?);
    }

    static lemma LayoutAlign(types: Types, ms: seq<Member>, isUnion: bool)
      requires Grounded(types) && Placeable(SlotsOf(types, ms))
      ensures LayoutOf(types, ms, isUnion).align > 0
    {
      MaxAlignBounds(SlotsOf(types, ms));
    }

    lemma CacheKept(before: Types, id: nat, t: CType)
      requires id < |before| && IsRecord(before[id]) && IsRecord(t)
      requires CacheOk(before, typeCache)
      ensures CacheOk(before[id := t], typeCache)
    {
      hide FromCType, IsRecord;
      SignatureMeaning(t, t);
      SignatureMeaning(before[id], t);
      BuiltinsKept(before, id, t);
    }

    static lemma BuiltinsKept(before: Types, id: nat, t: CType)
      requires id < |before| && IsRecord(before[id]) && BUILTINS <= before
      ensures BUILTINS <= before[id := t]
    {
      if id < |BUILTINS| {
        assert before[id] == BUILTINS[id];
        BuiltinRank(id);
        SignatureMeaning(before[id], t);
      }
    }

    /** The record's layout has the same member types, so it is still made of earlier types. */
    static lemma LaidBelow(before: Types, id: nat, t: CType)
      requires TableOk(before) && id < |before| && IsRecord(before[id]) && IsRecord(t)
      requires Placeable(SlotsOf(before, before[id].members))
      requires t.members == LayoutOf(before, before[id].members, t.Union?).members
      ensures Below(t, id)
    {
      hide SizeOf, AlignOf, Placeable, Spots, RecordOk, RecordSize, MaxAlign, MaxSize, AlignUp, PackedWidth;
      assert Below(before[id], id);
      var ms := before[id].members;
      forall c | c in Components(t) ensures c < id {
        var m :| m in t.members && m.ty == c;
        var i :| 0 <= i < |t.members| && t.members[i] == m;
        assert ms[i] in ms && ms[i].ty == c;
        assert c in Components(before[id]);
      }
    }

    /** Numbers in the table, all different, are no more than the table holds. */
    static lemma Distinct(s: seq<nat>, n: nat)
      requires forall i, j :: 0 <= i < j < |s| ==> s[i] != s[j]
      ensures (forall i :: 0 <= i < |s| ==> s[i] < n) ==> |s| <= n
      decreases n
    {
      if forall i :: 0 <= i < |s| ==> s[i] < n {
        if k :| 0 <= k < |s| && s[k] == n - 1 {
          var t := s[..k] + s[k + 1..];
          assert forall i :: 0 <= i < |t| ==> t[i] == if i < k then s[i] else s[i + 1];
          Distinct(t, n - 1);
        } else if n > 0 {
          Distinct(s, n - 1);
        }
        assert |s| > 0 ==> s[0] < n;
      }
    }
  }
}
