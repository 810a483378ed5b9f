/** Records in the type table: the layout computed for them, and what holds of every table the front
    end builds. */
module RecordTable {
  import opened Arithmetic
  import opened Options
  import opened RecordLayout
  import opened TypeTable

  datatype LayoutInfo = LayoutInfo(size: nat, align: nat, members: seq<Member>)

  /** The width of a bit-field that is to be packed; a bit-field of width 0, or one that carries a bit
      offset already, is laid out like an ordinary member. */
  function PackedWidth(m: Member): nat {
    if m.bitOffset == Some(0) && m.bitWidth.Some? then m.bitWidth.value else 0
  }

  function SlotOf(types: Types, m: Member): Slot
    requires Grounded(types)
  {
    Slot(SizeOf(types, m.ty), AlignOf(types, m.ty), PackedWidth(m))
  }

  function SlotsOf(types: Types, ms: seq<Member>): (r: seq<Slot>)
    requires Grounded(types)
    ensures |r| == |ms|
  {
    seq(|ms|, i requires 0 <= i < |ms| => SlotOf(types, ms[i]))
  }

  function PlacedMember(m: Member, p: Spot): Member {
    if PackedWidth(m) > 0 then m.(offset := p.offset, bitOffset := Some(p.bit))
    else if m.bitOffset.Some? && m.bitWidth.Some? then m.(offset := p.offset)
    else m.(offset := p.offset, bitOffset := None, bitWidth := None)
  }

  function PlacedMembers(types: Types, ms: seq<Member>): (r: seq<Member>)
    requires Grounded(types) && Placeable(SlotsOf(types, ms))
    ensures |r| == |ms|
  {
    seq(|ms|, i requires 0 <= i < |ms| => PlacedMember(ms[i], Spots(START, SlotsOf(types, ms))[i]))
  }

  function MaxSize(slots: seq<Slot>): nat {
    if slots == [] then 0
    else
      var m := MaxSize(slots[..|slots| - 1]);
      var s := slots[|slots| - 1].size;
      if s > m then s else m
  }

  /** Struct members follow each other; union members all start at 0. */
  function LayoutOf(types: Types, ms: seq<Member>, isUnion: bool): LayoutInfo
    requires Grounded(types) && Placeable(SlotsOf(types, ms))
  {
    var slots := SlotsOf(types, ms);
    MaxAlignBounds(slots);
    if isUnion then
      LayoutInfo(AlignUp(MaxSize(slots), MaxAlign(slots)), MaxAlign(slots),
                 seq(|ms|, i requires 0 <= i < |ms| => ms[i].(offset := 0)))
    else
      LayoutInfo(RecordSize(slots), MaxAlign(slots), PlacedMembers(types, ms))
  }

  // ----- what the members of a laid-out record are, said without slots and spots -----

  /** A bit-field as the front end hands it over. */
  predicate IsBitField(m: Member) { m.bitOffset == Some(0) && m.bitWidth.Some? && m.bitWidth.value > 0 }

  /** p is m with a place: only a bit-field gets a bit offset, and halves of one are dropped. */
  predicate SameMember(m: Member, p: Member) {
    && p.name == m.name && p.ty == m.ty
    && if IsBitField(m) then p.bitOffset.Some? && p.bitWidth == m.bitWidth
       else if m.bitOffset.Some? && m.bitWidth.Some? then p.bitOffset == m.bitOffset && p.bitWidth == m.bitWidth
       else p.bitOffset == None && p.bitWidth == None
  }

  /** The bits of the record that a member takes. */
  function FirstBit(m: Member, p: Member): nat
    requires SameMember(m, p)
  {
    8 * p.offset + if IsBitField(m) then p.bitOffset.value else 0
  }

  function EndBit(types: Types, m: Member, p: Member): nat
    requires Grounded(types) && SameMember(m, p)
  {
    FirstBit(m, p) + if IsBitField(m) then m.bitWidth.value else 8 * SizeOf(types, m.ty)
  }

  /** The largest alignment of the members, or 1. */
  ghost predicate LargestAlign(types: Types, ms: seq<Member>, align: nat)
    requires Grounded(types)
  {
    && align > 0 && (forall i :: 0 <= i < |ms| ==> AlignOf(types, ms[i].ty) <= align)
    && (align == 1 || exists i :: 0 <= i < |ms| && AlignOf(types, ms[i].ty) == align)
  }

  /** The members, in order, take bits behind each other and inside the record; all but bit-fields are
      aligned; nothing else about them has changed. */
  ghost predicate WellPlaced(types: Types, ms: seq<Member>, info: LayoutInfo)
    requires Grounded(types)
  {
    var ps := info.members;
    && |ps| == |ms| && (forall i :: 0 <= i < |ms| ==> SameMember(ms[i], ps[i]))
    && (forall i, j :: 0 <= i < j < |ms| ==> EndBit(types, ms[i], ps[i]) <= FirstBit(ms[j], ps[j]))
    && (forall i :: 0 <= i < |ms| ==> EndBit(types, ms[i], ps[i]) <= 8 * info.size)
    && (forall i :: 0 <= i < |ms| && !IsBitField(ms[i]) ==>
          AlignOf(types, ms[i].ty) > 0 && ps[i].offset % AlignOf(types, ms[i].ty) == 0)
    && LargestAlign(types, ms, info.align) && info.size % info.align == 0
  }

  /** The members of a union all start at 0, and its size is the least multiple of its alignment that has
      room for each. */
  ghost predicate Overlaid(types: Types, ms: seq<Member>, info: LayoutInfo)
    requires Grounded(types)
  {
    && |info.members| == |ms| && (forall i :: 0 <= i < |ms| ==> info.members[i] == ms[i].(offset := 0))
    && LargestAlign(types, ms, info.align) && info.size % info.align == 0
    && (forall i :: 0 <= i < |ms| ==> SizeOf(types, ms[i].ty) <= info.size)
    && (forall n: nat :: n % info.align == 0 && HasRoom(types, ms, n) ==> info.size <= n)
  }

  ghost predicate HasRoom(types: Types, ms: seq<Member>, n: nat)
    requires Grounded(types)
  {
    forall i :: 0 <= i < |ms| ==> SizeOf(types, ms[i].ty) <= n
  }

  lemma SlotsAlign(types: Types, ms: seq<Member>)
    requires Grounded(types)
    ensures LargestAlign(types, ms, MaxAlign(SlotsOf(types, ms)))
  {
    var slots := SlotsOf(types, ms);
    MaxAlignBounds(slots);
    forall i | 0 <= i < |ms| ensures AlignOf(types, ms[i].ty) <= MaxAlign(slots) {
      assert slots[i].align == AlignOf(types, ms[i].ty);
    }
    if MaxAlign(slots) != 1 {
      var i :| 0 <= i < |slots| && slots[i].align == MaxAlign(slots);
      assert AlignOf(types, ms[i].ty) == MaxAlign(slots);
    }
  }

  /** What the layout of a struct gives. */
  lemma StructMembers(types: Types, ms: seq<Member>)
    requires Grounded(types) && Placeable(SlotsOf(types, ms))
    ensures WellPlaced(types, ms, LayoutOf(types, ms, false))
  {
    hide Spots, MaxAlign, AlignUp, SizeOf, AlignOf, HasOpener, LargestAlign;
    var slots, info := SlotsOf(types, ms), LayoutOf(types, ms, false);
    LayoutMeaning(slots);
    SlotsAlign(types, ms);
    forall i | 0 <= i < |ms| ensures MemberAt(types, ms[i], slots[i], Spots(START, slots)[i], info.members[i]) {}
    forall i, j | 0 <= i < j < |ms|
      ensures EndBit(types, ms[i], info.members[i]) <= FirstBit(ms[j], info.members[j])
    {
      assert Before(slots[i], Spots(START, slots)[i], slots[j], Spots(START, slots)[j]);
    }
  }

  /** A member's place is the spot of its slot. */
  ghost predicate MemberAt(types: Types, m: Member, s: Slot, q: Spot, p: Member)
    requires Grounded(types)
  {
    && SameMember(m, p)
    && s == Slot(SizeOf(types, m.ty), AlignOf(types, m.ty), if IsBitField(m) then m.bitWidth.value else 0)
    && p.offset == q.offset && (IsBitField(m) ==> p.bitOffset == Some(q.bit))
  }

  /** Bit-fields one after the other: with o the first one in the storage unit of member i, member i + 1
      takes the next bits if the unit, which is as large as the type of o, has room, and else starts a unit
      at the first aligned byte behind. */
  lemma BitFieldsShare(types: Types, ms: seq<Member>, o: nat, i: nat)
    requires Grounded(types) && Placeable(SlotsOf(types, ms)) && o <= i && i + 1 < |ms|
    requires IsBitField(ms[o]) && IsBitField(ms[i]) && IsBitField(ms[i + 1])
    requires var ps := LayoutOf(types, ms, false).members;
             ps[o].offset == ps[i].offset && ps[o].bitOffset == Some(0)
    ensures var ps, unit, w := LayoutOf(types, ms, false).members, SizeOf(types, ms[o].ty), ms[i].bitWidth.value;
            && ps[i].bitOffset.Some? && AlignOf(types, ms[i + 1].ty) > 0
            && if ps[i].bitOffset.value + w + ms[i + 1].bitWidth.value <= 8 * unit
               then ps[i + 1].offset == ps[i].offset && ps[i + 1].bitOffset == Some(ps[i].bitOffset.value + w)
               else ps[i + 1].bitOffset == Some(0)
                    && LeastFrom(ps[i + 1].offset, ps[i].offset + unit, AlignOf(types, ms[i + 1].ty))
  {
    hide Spots, LayoutOf, SlotsOf, SizeOf, AlignOf, LeastFrom, Extent, Placeable, Follows, IsBitField, SameMember;
    var slots, ps := SlotsOf(types, ms), LayoutOf(types, ms, false).members;
    var r := Spots(START, slots);
    PlacedAt(types, ms, o);
    PlacedAt(types, ms, i);
    PlacedAt(types, ms, i + 1);
    SameUnit(types, ms, o, i);
    Successive(slots);
    assert Follows(slots[i], r[i], slots[i + 1], r[i + 1]);
    Shared(types, ms[i], slots[i], r[i], ps[i], ms[i + 1], slots[i + 1], r[i + 1], ps[i + 1]);
  }

  lemma PlacedAt(types: Types, ms: seq<Member>, k: nat)
    requires Grounded(types) && Placeable(SlotsOf(types, ms)) && k < |ms|
    ensures var slots, ps := SlotsOf(types, ms), LayoutOf(types, ms, false).members;
            |slots| == |ps| == |ms| && MemberAt(types, ms[k], slots[k], Spots(START, slots)[k], ps[k])
    ensures SlotsOf(types, ms)[k].align > 0
  {
    hide Spots, MaxAlign, AlignUp, SizeOf, AlignOf;
  }

  lemma SameUnit(types: Types, ms: seq<Member>, o: nat, i: nat)
    requires Grounded(types) && Placeable(SlotsOf(types, ms)) && o <= i < |ms| && IsBitField(ms[o]) && IsBitField(ms[i])
    requires var r := Spots(START, SlotsOf(types, ms)); r[o].offset == r[i].offset && r[o].bit == 0
    ensures Spots(START, SlotsOf(types, ms))[i].unit == SizeOf(types, ms[o].ty)
  {
    hide Spots, MaxAlign, AlignUp, SizeOf, AlignOf, RecordSize, HasOpener, MaxSize;
    var slots := SlotsOf(types, ms);
    var r := Spots(START, slots);
    LayoutMeaning(slots);
    UnitOf(slots, o);
    assert o < i ==> Before(slots[o], r[o], slots[i], r[i]);
  }

  lemma Shared(types: Types, m: Member, s: Slot, q: Spot, p: Member, m': Member, s': Slot, q': Spot, p': Member)
    requires Grounded(types) && IsBitField(m) && IsBitField(m') && s'.align > 0
    requires MemberAt(types, m, s, q, p) && MemberAt(types, m', s', q', p') && Follows(s, q, s', q')
    ensures var w, a := m.bitWidth.value, AlignOf(types, m'.ty);
            && p.bitOffset.Some? && a > 0
            && if p.bitOffset.value + w + m'.bitWidth.value <= 8 * q.unit
               then p'.offset == p.offset && p'.bitOffset == Some(p.bitOffset.value + w)
               else p'.bitOffset == Some(0) && LeastFrom(p'.offset, p.offset + q.unit, a)
  {
    hide SizeOf, AlignOf, LeastFrom;
  }

  /** A bit-field at bit 0 opened its unit. */
  lemma UnitOf(slots: seq<Slot>, o: nat)
    requires Placeable(slots) && o < |slots| && slots[o].width > 0 && Spots(START, slots)[o].bit == 0
    ensures Spots(START, slots)[o].unit == slots[o].size
  {
    hide *;
    var r := Spots(START, slots);
    LayoutMeaning(slots);
    assert HasOpener(slots, r, o);
    OpensOwn(slots, r, o);
  }

  lemma OpensOwn(slots: seq<Slot>, r: seq<Spot>, o: nat)
    requires o < |slots| == |r| && HasOpener(slots, r, o)
    requires slots[o].width > 0 && r[o].bit == 0 && slots[o].width <= 8 * r[o].unit
    requires forall i :: 0 <= i < o ==> Before(slots[i], r[i], slots[o], r[o])
    ensures r[o].unit == slots[o].size
  {
    var i :| Opener(slots, r, i, o);
  }

  ghost predicate Fit(slots: seq<Slot>, n: nat) { forall i :: 0 <= i < |slots| ==> slots[i].size <= n }

  lemma {:induction false} MaxSizeBounds(slots: seq<Slot>)
    ensures Fit(slots, MaxSize(slots)) && forall n: nat :: Fit(slots, n) ==> MaxSize(slots) <= n
    decreases |slots|
  {
    if slots != [] {
      var front := slots[..|slots| - 1];
      MaxSizeBounds(front);
      forall n: nat | Fit(slots, n) ensures Fit(front, n) {}
      forall i | 0 <= i < |slots| ensures slots[i].size <= MaxSize(slots) {
        if i < |front| { assert front[i] == slots[i]; }
      }
    }
  }

  /** What the layout of a union gives. */
  lemma UnionMembers(types: Types, ms: seq<Member>)
    requires Grounded(types) && Placeable(SlotsOf(types, ms))
    ensures Overlaid(types, ms, LayoutOf(types, ms, true))
  {
    hide MaxAlign, MaxSize, AlignUp, SizeOf, AlignOf, LargestAlign;
    var slots, info := SlotsOf(types, ms), LayoutOf(types, ms, true);
    MaxAlignBounds(slots);
    MaxSizeBounds(slots);
    SlotsAlign(types, ms);
    AlignUpLeast(MaxSize(slots), MaxAlign(slots));
    forall n: nat | n % info.align == 0 && HasRoom(types, ms, n) ensures info.size <= n {
      assert Fit(slots, n);
    }
    forall i | 0 <= i < |ms| ensures SizeOf(types, ms[i].ty) <= info.size {
      assert slots[i].size == SizeOf(types, ms[i].ty);
    }
  }

  /** The same for a record of the table. */
  lemma RecordMembers(types: Types, id: nat, ms: seq<Member>)
    requires Grounded(types) && id < |types| && IsRecord(types[id]) && LaidFrom(types, types[id], ms)
    ensures var info := LayoutInfo(types[id].size, types[id].align, types[id].members);
            if types[id].Union? then Overlaid(types, ms, info) else WellPlaced(types, ms, info)
  {
    hide LayoutOf, Overlaid, WellPlaced;
    if types[id].Union? { UnionMembers(types, ms); } else { StructMembers(types, ms); }
  }

  /** The type is complete: the records in it have their layout. */
  predicate LaidOut(types: Types, id: nat)
    requires Grounded(types)
    decreases id
  {
    id < |types| &&
    match types[id]
    case Struct(_, _, _, a) => a > 0
    case Union(_, _, _, a) => a > 0
    case Array(e, _) => assert e in Components(types[id]); LaidOut(types, e)
    case Enum(_, u) => assert u in Components(types[id]); LaidOut(types, u)
    case Typedef(_, u) => assert u in Components(types[id]); LaidOut(types, u)
    case Qualified(_, b) => assert b in Components(types[id]); LaidOut(types, b)
    case _ => true
  }

  /** Members of complete types, with bit-fields no wider than their types. */
  predicate Ready(types: Types, ms: seq<Member>)
    requires Grounded(types)
  {
    forall i :: 0 <= i < |ms| ==> LaidOut(types, ms[i].ty) && PackedWidth(ms[i]) <= 8 * SizeOf(types, ms[i].ty)
  }

  /** The record's size, alignment and members are the layout of ms. */
  ghost predicate LaidFrom(types: Types, t: CType, ms: seq<Member>)
    requires Grounded(types) && IsRecord(t)
  {
    && Ready(types, ms) && Placeable(SlotsOf(types, ms))
    && LayoutOf(types, ms, t.Union?) == LayoutInfo(t.size, t.align, t.members)
  }

  /** Every record either has no layout yet, or has the one computed from complete members. */
  ghost predicate TableOk(types: Types) {
    Grounded(types) && forall id :: 0 <= id < |types| && IsRecord(types[id]) ==> RecordOk(types, id)
  }

  ghost predicate RecordOk(types: Types, id: nat)
    requires Grounded(types) && id < |types| && IsRecord(types[id])
  {
    types[id].align == 0 || exists ms: seq<Member> :: LaidFrom(types, types[id], ms)
  }

  /** Alignments of complete types are powers of two that divide the sizes. */
  lemma {:induction false} AlignDivides(types: Types, id: nat)
    requires TableOk(types) && LaidOut(types, id)
    ensures IsPowerOf2(AlignOf(types, id)) && AlignOf(types, id) > 0
    ensures SizeOf(types, id) % AlignOf(types, id) == 0
    decreases id, 1
  {
    Scalars();
    match types[id]
    case Struct(_, _, _, _) => RecordDivides(types, id);
    case Union(_, _, _, _) => RecordDivides(types, id);
    case Array(e, n) =>
      assert e in Components(types[id]);
      AlignDivides(types, e);
      if n.Some? { ArrayDivides(SizeOf(types, e), n.value, AlignOf(types, e)); }
    case Enum(_, u) => assert u in Components(types[id]); AlignDivides(types, u);
    case Typedef(_, u) => assert u in Components(types[id]); AlignDivides(types, u);
    case Qualified(_, b) => assert b in Components(types[id]); AlignDivides(types, b);
    case _ =>
  }

  lemma Scalars()
    ensures IsPowerOf2(1) && IsPowerOf2(2) && IsPowerOf2(4) && IsPowerOf2(8) && IsPowerOf2(16)
  {
    assert Pow2(0) == 1 && Pow2(1) == 2 && Pow2(2) == 4 && Pow2(3) == 8 && Pow2(4) == 16;
  }

  lemma ArrayDivides(size: nat, n: nat, a: nat)
    requires a > 0 && size % a == 0
    ensures size * n % a == 0
  {
    SumOfMultiples(n, size, 0, a);
    assert size * n == n * size + 0;
  }

  lemma {:induction false} RecordDivides(types: Types, id: nat)
    requires TableOk(types) && id < |types| && IsRecord(types[id]) && types[id].align > 0
    ensures IsPowerOf2(types[id].align) && types[id].size % types[id].align == 0
    decreases id, 0
  {
    hide AlignUp, IsPowerOf2, LaidOut, Placeable;
    assert RecordOk(types, id);
    var ms: seq<Member> :| LaidFrom(types, types[id], ms);
    var slots := SlotsOf(types, ms);
    forall i | 0 <= i < |slots| ensures IsPowerOf2(slots[i].align) {
      PlacedTypes(types, id, ms, i);
      AlignDivides(types, ms[i].ty);
    }
    MaxAlignPower(slots);
    MaxAlignBounds(slots);
    if types[id].Union? {
      AlignUpLeast(MaxSize(slots), MaxAlign(slots));
    } else {
      LayoutMeaning(slots);
    }
  }

  /** Layout does not change the types of the members. */
  lemma PlacedTypes(types: Types, id: nat, ms: seq<Member>, i: nat)
    requires Grounded(types) && id < |types| && IsRecord(types[id]) && LaidFrom(types, types[id], ms) && i < |ms|
    ensures |types[id].members| == |ms| && types[id].members[i].ty == ms[i].ty && ms[i].ty < id
  {
    assert types[id].members[i] in types[id].members;
    assert types[id].members[i].ty in Components(types[id]);
    assert Below(types[id], id);
  }

  /** In an array of any complete record type, every ordinary member of every element is aligned. */
  lemma RecordArrayAligned(types: Types, id: nat, ms: seq<Member>, k: nat, j: nat)
    requires TableOk(types) && id < |types| && types[id].Struct? && LaidFrom(types, types[id], ms)
    requires j < |ms| && PackedWidth(ms[j]) == 0
    ensures AlignOf(types, ms[j].ty) > 0
    ensures (k * SizeOf(types, id) + types[id].members[j].offset) % AlignOf(types, ms[j].ty) == 0
  {
    hide AlignUp, IsPowerOf2, LaidOut, RecordSize, Spots, MaxAlign;
    var slots := SlotsOf(types, ms);
    forall i | 0 <= i < |slots| ensures IsPowerOf2(slots[i].align) {
      PlacedTypes(types, id, ms, i);
      AlignDivides(types, ms[i].ty);
    }
    ArrayAligned(slots, k, j);
    AlignPositive(slots, j);
  }

  // ----- changing the table -----

  /** Entering a type leaves what was there as it was. */
  lemma {:induction false} Appended(types: Types, t: CType, id: nat)
    requires Grounded(types) && Grounded(types + [t]) && id < |types|
    ensures SizeOf(types + [t], id) == SizeOf(types, id) && AlignOf(types + [t], id) == AlignOf(types, id)
    ensures LaidOut(types + [t], id) == LaidOut(types, id)
  {
    assert (types + [t])[id] == types[id];
    assert Below(types[id], id);
    match types[id]
    case Array(e, _) => assert e in Components(types[id]); Appended(types, t, e);
    case Enum(_, u) => assert u in Components(types[id]); Appended(types, t, u);
    case Typedef(_, u) => assert u in Components(types[id]); Appended(types, t, u);
    case Qualified(_, b) => assert b in Components(types[id]); Appended(types, t, b);
    case _ =>
  }

  lemma AppendGrounded(types: Types, t: CType)
    requires Grounded(types) && Below(t, |types|)
    ensures Grounded(types + [t])
  {
    forall id | 0 <= id < |types| + 1 ensures Below((types + [t])[id], id) {
      if id < |types| { assert Below(types[id], id); }
    }
  }

  /** A complete type does not depend on a record that has no layout. */
  lemma {:induction false} Updated(types: Types, r: nat, t: CType, id: nat)
    requires Grounded(types) && r < |types| && Below(t, r) && Grounded(types[r := t])
    requires IsRecord(types[r]) && types[r].align == 0 && LaidOut(types, id)
    ensures SizeOf(types[r := t], id) == SizeOf(types, id) && AlignOf(types[r := t], id) == AlignOf(types, id)
    ensures LaidOut(types[r := t], id)
  {
    assert id != r;
    match types[id]
    case Array(e, _) => assert e in Components(types[id]); Updated(types, r, t, e);
    case Enum(_, u) => assert u in Components(types[id]); Updated(types, r, t, u);
    case Typedef(_, u) => assert u in Components(types[id]); Updated(types, r, t, u);
    case Qualified(_, b) => assert b in Components(types[id]); Updated(types, r, t, b);
    case _ =>
  }

  lemma SameSlots(types: Types, types': Types, ms: seq<Member>)
    requires Grounded(types) && Grounded(types') && Ready(types, ms)
    requires forall i :: 0 <= i < |ms| ==>
               && SizeOf(types', ms[i].ty) == SizeOf(types, ms[i].ty)
               && AlignOf(types', ms[i].ty) == AlignOf(types, ms[i].ty)
               && LaidOut(types', ms[i].ty)
    ensures SlotsOf(types', ms) == SlotsOf(types, ms) && Ready(types', ms)
  {
  }

  lemma SameLayout(types: Types, types': Types, t: CType, ms: seq<Member>)
    requires Grounded(types) && Grounded(types') && IsRecord(t) && LaidFrom(types, t, ms)
    requires SlotsOf(types', ms) == SlotsOf(types, ms) && Ready(types', ms)
    ensures LaidFrom(types', t, ms)
  {
    hide AlignUp, MaxAlign, MaxSize, RecordSize, Spots, Placeable;
    if !t.Union? { assert PlacedMembers(types', ms) == PlacedMembers(types, ms); }
  }

  /** Entering a type made of existing ones, records without a layout, keeps the table in order. */
  lemma AppendOk(types: Types, t: CType)
    requires TableOk(types) && Below(t, |types|) && (IsRecord(t) ==> t.align == 0)
    ensures TableOk(types + [t])
  {
    hide LaidFrom, AlignUp;
    AppendGrounded(types, t);
    var types' := types + [t];
    forall id | 0 <= id < |types'| && IsRecord(types'[id])
      ensures RecordOk(types', id)
    {
      if id < |types| {
        assert types'[id] == types[id] && RecordOk(types, id);
        if types[id].align != 0 {
          var ms: seq<Member> :| LaidFrom(types, types[id], ms);
          AppendKeeps(types, t, id, ms);
        }
      }
    }
  }

  lemma AppendKeeps(types: Types, t: CType, id: nat, ms: seq<Member>)
    requires Grounded(types) && Grounded(types + [t]) && id < |types| && IsRecord(types[id])
             && LaidFrom(types, types[id], ms)
    ensures LaidFrom(types + [t], types[id], ms)
  {
    hide AlignUp, LayoutOf, Placeable;
    forall i | 0 <= i < |ms|
      ensures SizeOf(types + [t], ms[i].ty) == SizeOf(types, ms[i].ty)
      ensures AlignOf(types + [t], ms[i].ty) == AlignOf(types, ms[i].ty) && LaidOut(types + [t], ms[i].ty)
    {
      Appended(types, t, ms[i].ty);
    }
    SameSlots(types, types + [t], ms);
    SameLayout(types, types + [t], types[id], ms);
  }

  /** Giving a record its layout keeps the table in order. */
  lemma LayoutOk(types: Types, r: nat, t: CType)
    requires TableOk(types) && r < |types| && IsRecord(types[r]) && types[r].align == 0
    requires IsRecord(t) && Below(t, r) && Ready(types, types[r].members)
    requires LaidFrom(types, t, types[r].members)
    ensures TableOk(types[r := t])
  {
    hide LaidFrom, AlignUp;
    var types' := types[r := t];
    forall id | 0 <= id < |types'| ensures Below(types'[id], id) {
      if id != r { assert Below(types[id], id); }
    }
    forall id | 0 <= id < |types'| && IsRecord(types'[id])
      ensures RecordOk(types', id)
    {
      if id == r {
        UpdateKeeps(types, r, t, t, types[r].members);
      } else {
        assert RecordOk(types, id);
        if types[id].align != 0 {
          var ms: seq<Member> :| LaidFrom(types, types[id], ms);
          UpdateKeeps(types, r, t, types[id], ms);
        }
      }
    }
  }

  lemma UpdateKeeps(types: Types, r: nat, t: CType, u: CType, ms: seq<Member>)
    requires Grounded(types) && r < |types| && Below(t, r) && Grounded(types[r := t])
    requires IsRecord(types[r]) && types[r].align == 0 && IsRecord(u) && LaidFrom(types, u, ms)
    ensures LaidFrom(types[r := t], u, ms)
  {
    hide AlignUp, LayoutOf, Placeable;
    forall i | 0 <= i < |ms|
      ensures SizeOf(types[r := t], ms[i].ty) == SizeOf(types, ms[i].ty)
      ensures AlignOf(types[r := t], ms[i].ty) == AlignOf(types, ms[i].ty) && LaidOut(types[r := t], ms[i].ty)
    {
      Updated(types, r, t, ms[i].ty);
    }
    SameSlots(types, types[r := t], ms);
    SameLayout(types, types[r := t], u, ms);
  }

  /** Complete members can be placed. */
  lemma ReadyPlaceable(types: Types, ms: seq<Member>)
    requires TableOk(types) && Ready(types, ms)
    ensures Placeable(SlotsOf(types, ms))
  {
    forall i | 0 <= i < |ms| ensures AlignOf(types, ms[i].ty) > 0 { AlignDivides(types, ms[i].ty); }
  }
}
