/** Bit-fields in the backend: how they are packed into the fields of an LLVM struct, and the shifts
    and masks that read and write them there. */
module BitFields {
  import opened Arithmetic
  import opened Options
  import opened MachineBits
  import opened TypeTable
  import opened LlvmImage

  // ----- packing -----

  /** A member declaration: its base type's node kind, and its width if it is a bit-field. */
  datatype Field = Field(name: string, kind: nat, width: Option<nat>)

  /** Bit width of a storage unit for a node kind. */
  function KindBits(kind: nat): (b: nat)
    ensures 8 <= b <= 64
  {
    if kind == 1 || kind == 3 then 8
    else if kind == 10 then 16
    else if kind == 11 then 64
    else 32
  }

  /** The LLVM type of a node kind: what is pushed as a storage unit. */
  function KindType(kind: nat): LType {
    if kind == 1 || kind == 3 then IntType(8)
    else if kind == 7 || kind == 16 then PointerType
    else if kind == 10 then IntType(16)
    else if kind == 11 then IntType(64)
    else if kind == 83 then FloatType(32)
    else if kind == 84 then FloatType(64)
    else IntType(32)
  }

  /** The C type that a specifier of integer kind stands for. */
  function SpecifierType(kind: nat): Option<CType> {
    match kind
    case 2 => Some(Int(true))
    case 3 => Some(Char(false))
    case 10 => Some(Short(true))
    case 11 => Some(Long(true))
    case 12 => Some(Int(true))
    case 13 => Some(Int(false))
    case _ => None
  }

  /** A unit is as large as the declared type, by both of the code's tables and by the type table. */
  lemma KindsAgree(kind: nat)
    ensures KindType(kind) == IntType(KindBits(kind)) <==> kind !in {7, 16, 83, 84}
    ensures SpecifierType(kind).Some? ==>
              var t := SpecifierType(kind).value;
              Grounded([t]) && KindBits(kind) == 8 * SizeOf([t], 0) && KindType(kind) == Image([t], 0)
  {
  }

  /** Index of an LLVM field, and the bits in it that a bit-field takes. */
  datatype Info = Info(index: nat, part: Option<(nat, nat)>)

  /** The unit bit-fields are being packed into: node kind, bits used, capacity. */
  datatype Group = Group(kind: nat, used: nat, capacity: nat)

  /** Where the next field goes when count LLVM fields exist and group is open. */
  function PackOne(count: nat, group: Option<Group>, f: Field): (nat, Option<Group>, Info) {
    match f.width
    case None => (count + 1, None, Info(count, None))
    case Some(w) =>
      if group.Some? && group.value.kind == f.kind && group.value.used + w <= group.value.capacity then
        (count, Some(group.value.(used := group.value.used + w)),
         Info(if count > 0 then count - 1 else 0, Some((group.value.used, w))))
      else (count + 1, Some(Group(f.kind, w, KindBits(f.kind))), Info(count, Some((0, w))))
  }

  function Pack(count: nat, group: Option<Group>, fs: seq<Field>): (r: seq<Info>)
    ensures |r| == |fs|
    decreases |fs|
  {
    if fs == [] then []
    else
      var (count', group', info) := PackOne(count, group, fs[0]);
      [info] + Pack(count', group', fs[1..])
  }

  /** The bit widths of the LLVM fields pushed after the first ones; widthOf gives those of the fields
      that hold ordinary members. */
  function Units(count: nat, group: Option<Group>, fs: seq<Field>, widthOf: seq<nat>): seq<nat>
    requires |widthOf| == |fs|
    decreases |fs|
  {
    if fs == [] then []
    else
      var (count', group', info) := PackOne(count, group, fs[0]);
      (if count' == count then [] else [FieldBits(fs[0], widthOf[0])])
      + Units(count', group', fs[1..], widthOf[1..])
  }

  /** Bit-fields have a width between 1 and that of their unit, and below 64. */
  predicate Declarable(fs: seq<Field>) {
    forall i :: 0 <= i < |fs| && fs[i].width.Some? ==>
      1 <= fs[i].width.value <= KindBits(fs[i].kind) && fs[i].width.value < 64
  }

  /** Two members do not overlap. */
  predicate Apart(a: Info, b: Info) {
    || a.index != b.index
    || (a.part.Some? && b.part.Some? &&
        (a.part.value.0 + a.part.value.1 <= b.part.value.0 || b.part.value.0 + b.part.value.1 <= a.part.value.0))
  }

  /** The member lies in an existing field of the struct and in its bits. */
  predicate Within(a: Info, units: seq<nat>) {
    && a.index < |units|
    && (a.part.Some? ==> a.part.value.1 < 64 && a.part.value.0 + a.part.value.1 <= units[a.index] <= 64)
  }

  /** The open group is the last unit pushed. */
  predicate GroupOk(units: seq<nat>, group: Option<Group>) {
    group.Some? ==>
      && units != [] && units[|units| - 1] == group.value.capacity == KindBits(group.value.kind)
      && group.value.used <= group.value.capacity
  }

  /** What is placed from here on stays clear of everything placed before. */
  predicate Fresh(count: nat, group: Option<Group>, a: Info) {
    || a.index >= count
    || (group.Some? && a.index + 1 == count && a.part.Some? && a.part.value.0 >= group.value.used)
  }

  /** The bits of a member's field. */
  function FieldBits(f: Field, own: nat): nat { if f.width.Some? then KindBits(f.kind) else own }

  /** The fields after one more member. */
  function Pushed(units: seq<nat>, group: Option<Group>, f: Field, own: nat): seq<nat> {
    if PackOne(|units|, group, f).0 == |units| then units else units + [FieldBits(f, own)]
  }

  lemma UnitsStep(done: seq<nat>, group: Option<Group>, fs: seq<Field>, widthOf: seq<nat>)
    requires |widthOf| == |fs| && fs != []
    ensures var (count', group', info) := PackOne(|done|, group, fs[0]);
            && Pack(|done|, group, fs) == [info] + Pack(count', group', fs[1..])
            && done + Units(|done|, group, fs, widthOf) ==
               Pushed(done, group, fs[0], widthOf[0]) + Units(count', group', fs[1..], widthOf[1..])
  {
    hide KindBits, FieldBits, PackOne;
    var (count', group', info) := PackOne(|done|, group, fs[0]);
    var first := if count' == |done| then [] else [FieldBits(fs[0], widthOf[0])];
    var rest := Units(count', group', fs[1..], widthOf[1..]);
    assert Units(|done|, group, fs, widthOf) == first + rest;
    assert Pushed(done, group, fs[0], widthOf[0]) == done + first;
    assert done + (first + rest) == (done + first) + rest;
  }

  lemma PackFirst(done: seq<nat>, group: Option<Group>, f: Field, own: nat)
    requires Declarable([f]) && GroupOk(done, group)
    ensures var (count, group', info) := PackOne(|done|, group, f);
            var units := Pushed(done, group, f, own);
            && count == |units| && GroupOk(units, group') && Fresh(|done|, group, info)
            && (info.part.Some? ==> Within(info, units)) && info.index < |units|
            && info.part.Some? == f.width.Some? && (f.width.Some? ==> info.part.value.1 == f.width.value)
            && (forall a :: Fresh(count, group', a) ==> Fresh(|done|, group, a) && Apart(info, a))
  {
    assert [f][0] == f;
  }

  /** A member has a place of its kind and width in the struct. */
  predicate Housed(f: Field, a: Info, units: seq<nat>) {
    Within(a, units) && a.part.Some? == f.width.Some? && (f.width.Some? ==> a.part.value.1 == f.width.value)
  }

  predicate AllHoused(fs: seq<Field>, r: seq<Info>, units: seq<nat>) {
    |r| == |fs| && forall i :: 0 <= i < |r| ==> Housed(fs[i], r[i], units)
  }

  predicate AllFresh(count: nat, group: Option<Group>, r: seq<Info>) {
    forall i :: 0 <= i < |r| ==> Fresh(count, group, r[i])
  }

  predicate AllApart(r: seq<Info>) {
    forall i, j :: 0 <= i < j < |r| ==> Apart(r[i], r[j])
  }

  lemma HousedCons(fs: seq<Field>, a: Info, r: seq<Info>, units: seq<nat>)
    requires fs != [] && Housed(fs[0], a, units) && AllHoused(fs[1..], r, units)
    ensures AllHoused(fs, [a] + r, units)
  {
    forall i | 0 < i <= |r| ensures Housed(fs[i], ([a] + r)[i], units) {
      assert fs[i] == fs[1..][i - 1];
    }
  }

  lemma ApartCons(a: Info, r: seq<Info>)
    requires AllApart(r) && forall i :: 0 <= i < |r| ==> Apart(a, r[i])
    ensures AllApart([a] + r)
  {
  }

  /** Every member lies in its field and, if a bit-field, in its bits; no two members overlap. */
  lemma {:induction false} PackingSound(done: seq<nat>, group: Option<Group>, fs: seq<Field>, widthOf: seq<nat>)
    requires Declarable(fs) && |widthOf| == |fs| && GroupOk(done, group)
    ensures var r, units := Pack(|done|, group, fs), done + Units(|done|, group, fs, widthOf);
            AllHoused(fs, r, units) && AllFresh(|done|, group, r) && AllApart(r)
    decreases |fs|
  {
    hide Within, Fresh, Apart, GroupOk, PackOne, Pushed, AllHoused, AllApart, KindBits;
    if fs == [] {
      NothingPacked(done);
    } else {
      var (count', group', info) := PackOne(|done|, group, fs[0]);
      var done' := Pushed(done, group, fs[0], widthOf[0]);
      var rest, r1 := Units(count', group', fs[1..], widthOf[1..]), Pack(count', group', fs[1..]);
      PackFirst(done, group, fs[0], widthOf[0]);
      PackingSound(done', group', fs[1..], widthOf[1..]);
      UnitsStep(done, group, fs, widthOf);
      hide Pack, Units;
      HousedFirst(fs[0], info, done', rest);
      HousedCons(fs, info, r1, done' + rest);
      ApartCons(info, r1);
    }
  }

  lemma NothingPacked(units: seq<nat>)
    ensures AllHoused([], [], units) && AllApart([]) && units + [] == units
  {
  }

  lemma HousedFirst(f: Field, a: Info, units: seq<nat>, more: seq<nat>)
    requires a.index < |units| && (a.part.Some? ==> Within(a, units))
    requires a.part.Some? == f.width.Some? && (f.width.Some? ==> a.part.value.1 == f.width.value)
    ensures Housed(f, a, units + more)
  {
  }

  /** What a member's place starts as when it opens a field. */
  function OpeningPart(f: Field): Option<(nat, nat)> {
    match f.width case None => None case Some(w) => Some((0, w))
  }

  /** Where g goes right after f: the next bits of its unit, for bit-fields of one kind when there is room,
      and otherwise the next field, from bit 0. */
  predicate PackedAfter(f: Field, a: Info, g: Field, b: Info) {
    if f.width.Some? && g.width.Some? && f.kind == g.kind && a.part.Some?
       && a.part.value.0 + a.part.value.1 + g.width.value <= KindBits(g.kind)
    then b == Info(a.index, Some((a.part.value.0 + a.part.value.1, g.width.value)))
    else b == Info(a.index + 1, OpeningPart(g))
  }

  /** The open group describes the member placed last. */
  predicate GroupAfter(count: nat, group: Option<Group>, f: Field, a: Info) {
    && count == a.index + 1 && a.part.Some? == f.width.Some?
    && group == match a.part
                case None => None
                case Some((k, w)) => Some(Group(f.kind, k + w, KindBits(f.kind)))
  }

  /** The whole packing, said without the state of the loop: the first member opens field 0, and where every
      other one goes is settled by the one before it. */
  lemma {:induction false} PackedInOrder(fs: seq<Field>, i: nat)
    requires i < |fs|
    ensures var r := Pack(0, None, fs);
            && (i == 0 ==> r[0] == Info(0, OpeningPart(fs[0])))
            && (i > 0 ==> PackedAfter(fs[i - 1], r[i - 1], fs[i], r[i]))
  {
    if i > 0 { PackedFrom(0, None, fs, i - 1); }
  }

  lemma {:induction false} PackedFrom(count: nat, group: Option<Group>, fs: seq<Field>, i: nat)
    requires i + 1 < |fs| && (group.Some? ==> count > 0 && group.value.capacity == KindBits(group.value.kind))
    ensures PackedAfter(fs[i], Pack(count, group, fs)[i], fs[i + 1], Pack(count, group, fs)[i + 1])
    decreases i
  {
    hide KindBits;
    var (count', group', info) := PackOne(count, group, fs[0]);
    assert GroupAfter(count', group', fs[0], info);
    if i == 0 {
      assert Pack(count, group, fs)[1] == PackOne(count', group', fs[1]).2;
    } else {
      PackedFrom(count', group', fs[1..], i - 1);
    }
  }

  /** Each member's field has the bits of its kind or, for an ordinary member, its own, and there are no
      fields behind that of the last member. */
  lemma UnitsMeaning(fs: seq<Field>, widthOf: seq<nat>)
    requires |widthOf| == |fs|
    ensures var r, units := Pack(0, None, fs), Units(0, None, fs, widthOf);
            && |units| == (if fs == [] then 0 else r[|fs| - 1].index + 1)
            && forall i :: 0 <= i < |fs| ==> r[i].index < |units| && units[r[i].index] == FieldBits(fs[i], widthOf[i])
  {
    hide Pack, Units;
    UnitsFrom([], None, fs, widthOf);
    assert [] + Units(0, None, fs, widthOf) == Units(0, None, fs, widthOf);
  }

  /** The open group is the last field. */
  predicate GroupLast(units: seq<nat>, group: Option<Group>) {
    group.Some? ==> units != [] && units[|units| - 1] == group.value.capacity == KindBits(group.value.kind)
  }

  lemma PushedLast(units: seq<nat>, group: Option<Group>, f: Field, own: nat)
    requires GroupLast(units, group)
    ensures var (count, group', info), us := PackOne(|units|, group, f), Pushed(units, group, f, own);
            GroupLast(us, group') && count == |us| == info.index + 1 && us[info.index] == FieldBits(f, own)
  {
  }

  predicate UnitsHold(fs: seq<Field>, widthOf: seq<nat>, r: seq<Info>, units: seq<nat>) {
    && |r| == |fs| == |widthOf|
    && forall i :: 0 <= i < |fs| ==> r[i].index < |units| && units[r[i].index] == FieldBits(fs[i], widthOf[i])
  }

  lemma UnitsCons(fs: seq<Field>, widthOf: seq<nat>, info: Info, r: seq<Info>, done: seq<nat>, rest: seq<nat>)
    requires fs != [] && |widthOf| == |fs| && UnitsHold(fs[1..], widthOf[1..], r, done + rest)
    requires info.index < |done| && done[info.index] == FieldBits(fs[0], widthOf[0])
    ensures UnitsHold(fs, widthOf, [info] + r, done + rest)
  {
    forall i | 0 < i < |fs|
      ensures ([info] + r)[i] == r[i - 1] && fs[i] == fs[1..][i - 1] && widthOf[i] == widthOf[1..][i - 1]
    {
    }
  }

  lemma {:induction false} UnitsFrom(done: seq<nat>, group: Option<Group>, fs: seq<Field>, widthOf: seq<nat>)
    requires |widthOf| == |fs| && GroupLast(done, group)
    ensures var r, units := Pack(|done|, group, fs), done + Units(|done|, group, fs, widthOf);
            && |units| == (if fs == [] then |done| else r[|fs| - 1].index + 1)
            && UnitsHold(fs, widthOf, r, units)
    decreases |fs|
  {
    hide KindBits, GroupLast, UnitsHold, PackOne, Pushed, FieldBits;
    if fs == [] {
      NoUnits(done, group);
    } else {
      var (count', group', info) := PackOne(|done|, group, fs[0]);
      var done' := Pushed(done, group, fs[0], widthOf[0]);
      PushedLast(done, group, fs[0], widthOf[0]);
      UnitsFrom(done', group', fs[1..], widthOf[1..]);
      UnitsStep(done, group, fs, widthOf);
      hide Pack, Units;
      UnitsCons(fs, widthOf, info, Pack(count', group', fs[1..]), done', Units(count', group', fs[1..], widthOf[1..]));
    }
  }

  lemma NoUnits(done: seq<nat>, group: Option<Group>)
    ensures done + Units(|done|, group, [], []) == done && UnitsHold([], [], Pack(|done|, group, []), done)
  {
  }

  // ----- reading and writing -----

  const WORD := 64

  /** The constant with the low w bits set, and the complement in m bits of that constant shifted up by k. */
  function Mask(n: nat, w: nat): (r: Bits)
    ensures |r| == n
  {
    FromNat(n, Pow2(w) - 1)
  }

  function ClearMask(n: nat, w: nat, k: nat, m: nat): (r: Bits)
    requires w + k <= m
    ensures |r| == n
  {
    MaskFits(w, k, m);
    FromNat(n, Pow2(m) - 1 - (Pow2(w) - 1) * Pow2(k))
  }

  lemma MaskFits(w: nat, k: nat, m: nat)
    requires w + k <= m
    ensures (Pow2(w) - 1) * Pow2(k) < Pow2(m)
  {
    hide Pow2;
    Pow2Sum(w, k);
    Pow2Sum(w + k, m - (w + k));
    ProductBound(Pow2(w), Pow2(k), Pow2(m - (w + k)));
  }

  lemma ProductBound(p: int, q: int, r: int)
    requires p > 0 && q > 0 && r > 0
    ensures (p - 1) * q < p * q * r
  {
    assert (p - 1) * q == p * q - q;
    MulMono(1, r, p * q);
  }

  function ZExt(v: Bits, n: nat): (r: Bits)
    requires |v| <= n
    ensures |r| == n
  {
    v + seq(n - |v|, _ => false)
  }

  /** Reading: the unit shifted down, and the mask. */
  function ReadAt(cells: seq<Bits>, a: Info): Bits
    requires a.index < |cells|
  {
    match a.part
    case None => cells[a.index]
    case Some((k, w)) => And(if k > 0 then Shr(cells[a.index], k) else cells[a.index], Mask(|cells[a.index]|, w))
  }

  /** A bit-field takes a value no wider than its unit; for any other member the value is cast. */
  predicate Fits(a: Info, v: Bits, n: nat) {
    a.part.Some? ==> |v| <= n
  }

  /** Writing: the new bits shifted up, into the unit with its old ones cleared. */
  function WriteAt(cells: seq<Bits>, a: Info, v: Bits): (r: seq<Bits>)
    requires a.index < |cells| && Fits(a, v, |cells[a.index]|)
    requires a.part.Some? ==> a.part.value.0 + a.part.value.1 <= WORD
    ensures |r| == |cells|
  {
    var n := |cells[a.index]|;
    match a.part
    case None => cells[a.index := IntCast(v, n)]
    case Some((k, w)) =>
      var masked := And(ZExt(v, n), Mask(n, w));
      cells[a.index := Or(And(cells[a.index], ClearMask(n, w, k, WORD)), if k > 0 then Shl(masked, k) else masked)]
  }

  lemma MaskBits(n: nat, w: nat, k: nat, m: nat, i: nat)
    requires i < n <= m && w + k <= m
    ensures |Mask(n, w)| == n && Mask(n, w)[i] == (i < w)
    ensures |ClearMask(n, w, k, m)| == n && ClearMask(n, w, k, m)[i] == !(k <= i < k + w)
  {
    hide Pow2, FromNat;
    MaskFits(w, k, m);
    FromNatMask(n, w, i);
    FromNatShift(n, Pow2(w) - 1, k, i);
    if i >= k { FromNatMask(n, w, i - k); }
    FromNatNot(n, m, (Pow2(w) - 1) * Pow2(k), i);
  }

  /** What reading gives: the unit's bits from k on, as many as the member has. */
  lemma ReadValue(cells: seq<Bits>, a: Info)
    requires a.index < |cells| && a.part.Some?
    ensures ToNat(ReadAt(cells, a)) == ToNat(cells[a.index]) / Pow2(a.part.value.0) % Pow2(a.part.value.1)
  {
    hide FromNat, ToNat, Pow2;
    var (k, w) := a.part.value;
    var u := cells[a.index];
    var shifted := if k > 0 then Shr(u, k) else u;
    ShrDivides(u, k);
    if k == 0 { assert Shr(u, 0) == u; }
    forall i | 0 <= i < |u| ensures ReadAt(cells, a)[i] == (i < w && shifted[i]) {
      FromNatMask(|u|, w, i);
    }
    LowBits(shifted, ReadAt(cells, a), w);
  }

  /** What reading gives, bit by bit. */
  lemma ReadBits(cells: seq<Bits>, a: Info, i: nat)
    requires a.index < |cells| && a.part.Some? && i < |cells[a.index]| <= WORD
    requires a.part.value.0 + a.part.value.1 <= |cells[a.index]|
    ensures ReadAt(cells, a)[i] == (i < a.part.value.1 && cells[a.index][i + a.part.value.0])
  {
    hide Mask, ClearMask;
    MaskBits(|cells[a.index]|, a.part.value.1, a.part.value.0, WORD, i);
  }

  /** What writing leaves in the unit, bit by bit. */
  lemma WriteBits(cells: seq<Bits>, a: Info, v: Bits, i: nat)
    requires a.index < |cells| && a.part.Some? && i < |cells[a.index]| <= WORD && |v| <= |cells[a.index]|
    requires a.part.value.0 + a.part.value.1 <= |cells[a.index]|
    ensures var (k, w) := a.part.value;
            WriteAt(cells, a, v)[a.index][i] == if k <= i < k + w then i - k < |v| && v[i - k] else cells[a.index][i]
  {
    hide Mask, ClearMask;
    var (k, w) := a.part.value;
    MaskBits(|cells[a.index]|, w, k, WORD, i);
    if i >= k { MaskBits(|cells[a.index]|, w, k, WORD, i - k); }
  }

  /** The fields of the struct have the widths that packing gave them. */
  predicate Shaped(cells: seq<Bits>, units: seq<nat>) {
    |cells| == |units| && forall i :: 0 <= i < |cells| ==> |cells[i]| == units[i]
  }

  /** What a member in a field of n bits keeps of a value: a bit-field its low bits, any other member the
      value as a signed number, as far as it fits. */
  function Kept(f: Field, n: nat, v: Bits): nat {
    match f.width
    case None => Pattern(Wrap(ToNat(v), |v|, true), n)
    case Some(w) => ToNat(v) % Pow2(w)
  }

  lemma PartWritten(cells: seq<Bits>, n: nat, a: Info, v: Bits)
    requires a.index < |cells| && |cells[a.index]| == n <= WORD && |v| <= n
    requires a.part.Some? && a.part.value.0 + a.part.value.1 <= n
    ensures ToNat(ReadAt(WriteAt(cells, a, v), a)) == ToNat(v) % Pow2(a.part.value.1)
    ensures |WriteAt(cells, a, v)[a.index]| == n
  {
    hide ReadAt, WriteAt, ToNat, Pow2;
    var (k, w) := a.part.value;
    var u := WriteAt(cells, a, v);
    WriteSize(cells, a, v);
    ExtendKeeps(v, n);
    forall i | 0 <= i < n ensures ReadAt(u, a)[i] == (i < w && ZExt(v, n)[i]) {
      ReadBits(u, a, i);
      if i < w { WriteBits(cells, a, v, i + k); }
    }
    LowBits(ZExt(v, n), ReadAt(u, a), w);
  }

  lemma MaskedValue(v: Bits, n: nat, w: nat)
    requires |v| <= n
    ensures ToNat(And(ZExt(v, n), Mask(n, w))) == ToNat(v) % Pow2(w)
  {
    hide FromNat, ToNat, Pow2;
    forall i | 0 <= i < n ensures And(ZExt(v, n), Mask(n, w))[i] == (i < w && ZExt(v, n)[i]) {
      FromNatMask(n, w, i);
    }
    LowBits(ZExt(v, n), And(ZExt(v, n), Mask(n, w)), w);
    ExtendKeeps(v, n);
  }

  lemma WriteSize(cells: seq<Bits>, a: Info, v: Bits)
    requires a.index < |cells| && Fits(a, v, |cells[a.index]|)
             && (a.part.Some? ==> a.part.value.0 + a.part.value.1 <= WORD)
    ensures var u := WriteAt(cells, a, v);
            && |u| == |cells| && |u[a.index]| == |cells[a.index]| && |ReadAt(u, a)| == |cells[a.index]|
            && forall j :: 0 <= j < |cells| && j != a.index ==> u[j] == cells[j]
  {
    hide Mask, ClearMask;
  }

  lemma ReadWritten(cells: seq<Bits>, units: seq<nat>, f: Field, a: Info, v: Bits)
    requires Shaped(cells, units) && Housed(f, a, units) && Fits(a, v, units[a.index])
    ensures Shaped(WriteAt(cells, a, v), units)
    ensures ToNat(ReadAt(WriteAt(cells, a, v), a)) == Kept(f, units[a.index], v)
  {
    hide Mask, ClearMask, ToNat, Pow2, IntCast, Wrap;
    WriteSize(cells, a, v);
    if a.part.Some? {
      PartWritten(cells, units[a.index], a, v);
    } else {
      CastValue(v, units[a.index]);
    }
  }

  lemma KeptBits(f: Field, n: nat, v: Bits)
    requires f.width.Some?
    ensures Kept(f, n, v) == Pattern(ToNat(v), f.width.value)
  {
  }

  /** A bit-field that holds a negative number is read without its sign, unless it fills its unit. */
  lemma SignedReadBack(cells: seq<Bits>, units: seq<nat>, f: Field, a: Info, v: Bits, x: int)
    requires Shaped(cells, units) && Housed(f, a, units) && Fits(a, v, units[a.index])
    requires a.part.Some? && a.part.value.1 <= |v| && InWindow(x, a.part.value.1, true)
    requires ToNat(v) == Pattern(x, |v|)
    ensures var n, got := units[a.index], ToNat(ReadAt(WriteAt(cells, a, v), a));
            Wrap(got, n, true) == x <==> x >= 0 || a.part.value.1 == n
  {
    hide Pow2, Pattern, ToNat, ReadAt, WriteAt, Kept;
    var n, w := units[a.index], a.part.value.1;
    ReadWritten(cells, units, f, a, v);
    KeptBits(f, n, v);
    PatternDown(x, |v|, w);
    var got := ToNat(ReadAt(WriteAt(cells, a, v), a));
    assert got == Pattern(x, w);
    PatternOf(x, w);
    PatternOf(got, n);
    WrapMeaning(got, n, true);
    if w < n { Doubling(w, n); }
  }

  lemma {:induction false} ExtendKeeps(v: Bits, n: nat)
    requires |v| <= n
    ensures ToNat(ZExt(v, n)) == ToNat(v)
  {
    if v == [] {
      NoBits(ZExt(v, n));
    } else {
      assert ZExt(v, n)[1..] == ZExt(v[1..], n - 1);
      ExtendKeeps(v[1..], n - 1);
    }
  }

  lemma OthersUntouched(cells: seq<Bits>, units: seq<nat>, f: Field, a: Info, v: Bits, g: Field, b: Info)
    requires Shaped(cells, units) && Housed(f, a, units) && Housed(g, b, units) && Fits(a, v, units[a.index])
    requires Apart(a, b)
    ensures ReadAt(WriteAt(cells, a, v), b) == ReadAt(cells, b)
  {
    hide Mask, ClearMask;
    var u := WriteAt(cells, a, v);
    if a.index == b.index {
      forall i | 0 <= i < units[b.index] ensures ReadAt(u, b)[i] == ReadAt(cells, b)[i] {
        ReadBits(u, b, i);
        ReadBits(cells, b, i);
        if i < b.part.value.1 { WriteBits(cells, a, v, i + b.part.value.0); }
      }
    }
  }

  /** The values of all members. */
  function Values(cells: seq<Bits>, infos: seq<Info>): (r: seq<nat>)
    requires forall i :: 0 <= i < |infos| ==> infos[i].index < |cells|
    ensures |r| == |infos|
  {
    seq(|infos|, i requires 0 <= i < |infos| => ToNat(ReadAt(cells, infos[i])))
  }

  lemma WritableIn(units: seq<nat>, fs: seq<Field>, infos: seq<Info>)
    requires AllHoused(fs, infos, units)
    ensures forall i :: 0 <= i < |infos| ==>
              infos[i].index < |units|
              && (infos[i].part.Some? ==> infos[i].part.value.0 + infos[i].part.value.1 <= WORD)
  {
  }

  /** Assigning to a member changes that member to what it keeps of the value, and no other. */
  lemma AssignIndependent(cells: seq<Bits>, units: seq<nat>, fs: seq<Field>, infos: seq<Info>, j: nat, v: Bits)
    requires Shaped(cells, units) && AllHoused(fs, infos, units) && AllApart(infos)
    requires j < |fs| && Fits(infos[j], v, units[infos[j].index])
    ensures Shaped(WriteAt(cells, infos[j], v), units)
    ensures Values(WriteAt(cells, infos[j], v), infos) ==
            Values(cells, infos)[j := Kept(fs[j], units[infos[j].index], v)]
  {
    hide ReadAt, WriteAt, ToNat, Kept, Within;
    WritableIn(units, fs, infos);
    ReadWritten(cells, units, fs[j], infos[j], v);
    forall i | 0 <= i < |infos| && i != j
      ensures ReadAt(WriteAt(cells, infos[j], v), infos[i]) == ReadAt(cells, infos[i])
    {
      BothApart(infos, i, j);
      OthersUntouched(cells, units, fs[j], infos[j], v, fs[i], infos[i]);
    }
    assert Values(WriteAt(cells, infos[j], v), infos) ==
           Values(cells, infos)[j := Kept(fs[j], units[infos[j].index], v)];
  }

  /** Assignments one after the other, each to a member by number. */
  function RunWrites(cells: seq<Bits>, infos: seq<Info>, ops: seq<(nat, Bits)>): (r: seq<Bits>)
    requires forall o :: o in ops ==> Writable(cells, infos, o)
    ensures |r| == |cells|
    decreases |ops|
  {
    if ops == [] then cells
    else
      assert ops[0] in ops && Writable(cells, infos, ops[0]);
      var next := WriteAt(cells, infos[ops[0].0], ops[0].1);
      assert forall o :: o in ops[1..] ==> o in ops && Writable(cells, infos, o);
      RunWrites(next, infos, ops[1..])
  }

  predicate Writable(cells: seq<Bits>, infos: seq<Info>, o: (nat, Bits)) {
    && o.0 < |infos| && infos[o.0].index < |cells| && Fits(infos[o.0], o.1, |cells[infos[o.0].index]|)
    && (infos[o.0].part.Some? ==> infos[o.0].part.value.0 + infos[o.0].part.value.1 <= WORD)
  }

  /** The same assignments to independent variables, in fields of ns bits. */
  function RunVariables(vars: seq<nat>, fs: seq<Field>, ns: seq<nat>, ops: seq<(nat, Bits)>): seq<nat>
    requires |vars| == |fs| == |ns| && forall o :: o in ops ==> o.0 < |fs|
    decreases |ops|
  {
    if ops == [] then vars
    else
      assert ops[0] in ops;
      assert forall o :: o in ops[1..] ==> o in ops;
      var (j, v) := ops[0];
      RunVariables(vars[j := Kept(fs[j], ns[j], v)], fs, ns, ops[1..])
  }

  /** The bits of the field that each member is in. */
  function FieldWidths(infos: seq<Info>, units: seq<nat>): (r: seq<nat>)
    requires forall i :: 0 <= i < |infos| ==> infos[i].index < |units|
    ensures |r| == |infos|
  {
    seq(|infos|, i requires 0 <= i < |infos| => units[infos[i].index])
  }

  /** Over any run of assignments the members of a packed struct behave like independent variables. */
  lemma {:induction false} BehavesLikeVariables(cells: seq<Bits>, fs: seq<Field>, widthOf: seq<nat>,
                                                ops: seq<(nat, Bits)>)
    requires Declarable(fs) && |widthOf| == |fs|
    requires var units, infos := Units(0, None, fs, widthOf), Pack(0, None, fs);
             Shaped(cells, units) && forall o :: o in ops ==> Writable(cells, infos, o)
    ensures var units, infos := Units(0, None, fs, widthOf), Pack(0, None, fs);
            && (forall i :: 0 <= i < |infos| ==> infos[i].index < |cells|)
            && Values(RunWrites(cells, infos, ops), infos) ==
               RunVariables(Values(cells, infos), fs, FieldWidths(infos, units), ops)
    decreases |ops|
  {
    var units, infos := Units(0, None, fs, widthOf), Pack(0, None, fs);
    hide Pack, Units, Apart, AllApart, WriteAt, ReadAt, ClearMask, Kept;
    PackingSound([], None, fs, widthOf);
    assert [] + units == units;
    if ops != [] {
      assert ops[0] in ops && Writable(cells, infos, ops[0]) && forall o :: o in ops[1..] ==> o in ops;
      AssignIndependent(cells, units, fs, infos, ops[0].0, ops[0].1);
      var next := WriteAt(cells, infos[ops[0].0], ops[0].1);
      BehavesLikeVariables(next, fs, widthOf, ops[1..]);
    }
  }

  /** Walk the member declarations, pushing LLVM fields and noting where each name went. */
  method RegisterMembers(fs: seq<Field>, widthOf: seq<nat>) returns (fieldBits: seq<nat>, gepInfo: map<string, Info>)
    requires |widthOf| == |fs|
    ensures fieldBits == Units(0, None, fs, widthOf)
    ensures forall i :: 0 <= i < |fs| && (forall j :: i < j < |fs| ==> fs[j].name != fs[i].name) ==>
              fs[i].name in gepInfo && gepInfo[fs[i].name] == Pack(0, None, fs)[i]
  {
    hide Pack, Units, KindBits;
    var gepIdx: nat, group: Option<Group> := 0, None;
    fieldBits, gepInfo := [], map[];
    PackEnds(fs, widthOf);
    ghost var infos: seq<Info> := [];
    for i := 0 to |fs|
      invariant gepIdx == |fieldBits| && |infos| == i && (group.Some? ==> gepIdx > 0)
      invariant infos + Pack(gepIdx, group, fs[i..]) == Pack(0, None, fs)
      invariant fieldBits + Units(gepIdx, group, fs[i..], widthOf[i..]) == Units(0, None, fs, widthOf)
      invariant forall k :: 0 <= k < i && (forall j :: k < j < i ==> fs[j].name != fs[k].name) ==>
                  fs[k].name in gepInfo && gepInfo[fs[k].name] == infos[k]
    {
      var f := fs[i];
      PackStep(gepIdx, group, fs, widthOf, i, infos, fieldBits);
      infos := infos + [PackOne(gepIdx, group, f).2];
      if f.width.Some? {
        var bw, storageBits := f.width.value, KindBits(f.kind);
        if group.Some? && group.value.kind == f.kind && group.value.used + bw <= group.value.capacity {
          gepInfo := gepInfo[f.name := Info(gepIdx - 1, Some((group.value.used, bw)))];
          group := Some(group.value.(used := group.value.used + bw));
        } else {
          fieldBits := fieldBits + [storageBits];
          gepInfo := gepInfo[f.name := Info(gepIdx, Some((0, bw)))];
          group := Some(Group(f.kind, bw, storageBits));
          gepIdx := gepIdx + 1;
        }
      } else {
        group := None;
        fieldBits := fieldBits + [widthOf[i]];
        gepInfo := gepInfo[f.name := Info(gepIdx, None)];
        gepIdx := gepIdx + 1;
      }
    }
    PackEnd(gepIdx, group, fs, widthOf);
  }

  lemma PackEnds(fs: seq<Field>, widthOf: seq<nat>)
    requires |fs| == |widthOf|
    ensures [] + Pack(0, None, fs[0..]) == Pack(0, None, fs)
    ensures [] + Units(0, None, fs[0..], widthOf[0..]) == Units(0, None, fs, widthOf)
  {
    assert fs[0..] == fs && widthOf[0..] == widthOf;
  }

  lemma PackEnd(count: nat, group: Option<Group>, fs: seq<Field>, widthOf: seq<nat>)
    requires |fs| == |widthOf|
    ensures Pack(count, group, fs[|fs|..]) == [] && Units(count, group, fs[|fs|..], widthOf[|fs|..]) == []
  {
  }

  lemma PackStep(count: nat, group: Option<Group>, fs: seq<Field>, widthOf: seq<nat>, i: nat, infos: seq<Info>,
                 units: seq<nat>)
    requires i < |fs| == |widthOf|
    ensures var (count', group', info) := PackOne(count, group, fs[i]);
            var own := if fs[i].width.Some? then KindBits(fs[i].kind) else widthOf[i];
            && infos + Pack(count, group, fs[i..]) == (infos + [info]) + Pack(count', group', fs[i + 1..])
            && units + Units(count, group, fs[i..], widthOf[i..]) ==
               (if count' == count then units else units + [own]) + Units(count', group', fs[i + 1..], widthOf[i + 1..])
  {
    assert fs[i..][0] == fs[i] && fs[i..][1..] == fs[i + 1..];
    assert widthOf[i..][0] == widthOf[i] && widthOf[i..][1..] == widthOf[i + 1..];
  }

  // ----- increment and decrement -----

  /** The unit after one is added to or taken from all of it. */
  function Stepped(u: Bits, up: bool): (r: Bits)
    ensures |r| == |u|
  {
    FromNat(|u|, Pattern(ToNat(u) + Step(up), |u|))
  }

  function Step(up: bool): int { if up then 1 else -1 }

  /** The bits below k and those from k + w on are as they were. */
  predicate OthersKept(x: nat, y: nat, k: nat, w: nat) {
    Pattern(y, k) == Pattern(x, k) && y / Pow2(k + w) == x / Pow2(k + w)
  }

  /** The member has gone one on, as a variable of its width does. */
  predicate MemberStepped(x: nat, y: nat, k: nat, w: nat, up: bool) {
    y / Pow2(k) % Pow2(w) == (x / Pow2(k) % Pow2(w) + Step(up)) % Pow2(w)
  }

  /** The member can be stepped with its unit: it starts at the unit's first bit, and has the unit for
      itself or is not at the end of its range. */
  predicate StepsAlone(x: nat, n: nat, k: nat, w: nat, up: bool) {
    k == 0 && (w == n || Pattern(x, w) != if up then Pow2(w) - 1 else 0)
  }

  /** A step of the whole unit is a step of the member alone exactly then. */
  lemma StepExact(u: Bits, k: nat, w: nat, up: bool)
    requires w > 0 && k + w <= |u|
    ensures var x, y := ToNat(u), ToNat(Stepped(u, up));
            OthersKept(x, y, k, w) && MemberStepped(x, y, k, w, up) <==> StepsAlone(x, |u|, k, w, up)
  {
    hide ToNat, FromNat, Pow2, Pattern, OthersKept, MemberStepped;
    var n, x, s := |u|, ToNat(u), Step(up);
    ToNatBound(u);
    ToNatFromNat(n, Pattern(x + s, n));
    if k > 0 {
      NeighboursMoved(x, n, k, w, s);
    } else {
      StepFirst(x, n, w, up);
    }
  }

  /** Above bit 0 the step always changes the bits below. */
  lemma NeighboursMoved(x: nat, n: nat, k: nat, w: nat, s: int)
    requires 0 < k <= n && (s == 1 || s == -1)
    ensures !OthersKept(x, Pattern(x + s, n), k, w)
  {
    hide Pow2, Pattern;
    PatternDown(x + s, n, k);
    Doubling(0, k);
    if s == 1 { PatternApart(x, 1, k); } else { PatternApart(x - 1, 1, k); }
  }

  lemma StepFirst(x: nat, n: nat, w: nat, up: bool)
    requires 0 < w <= n && x < Pow2(n)
    ensures var y := Pattern(x + Step(up), n);
            OthersKept(x, y, 0, w) && MemberStepped(x, y, 0, w, up) <==> StepsAlone(x, n, 0, w, up)
  {
    hide Pow2, Pattern;
    var s, y := Step(up), Pattern(x + Step(up), n);
    PatternDown(x + s, n, w);
    PatternDown(x, w, w);
    PatternAdd(Pattern(x, w), x, s, w);
    NoLowBits(x, y, w, up);
    if w == n {
      WholeUnit(x, w);
      WholeUnit(y, w);
    } else {
      HighBits(x, n, w, s);
    }
  }

  lemma NoLowBits(x: nat, y: nat, w: nat, up: bool)
    ensures OthersKept(x, y, 0, w) <==> y / Pow2(w) == x / Pow2(w)
    ensures MemberStepped(x, y, 0, w, up) <==> Pattern(y, w) == Pattern(Pattern(x, w) + Step(up), w)
  {
    assert Pow2(0) == 1;
  }

  lemma WholeUnit(x: nat, w: nat)
    requires x < Pow2(w)
    ensures x / Pow2(w) == 0
  {
    DivModUnique(x, Pow2(w), 0, x);
  }

  /** The bits above the member keep still unless the step carries out of it. */
  lemma HighBits(x: nat, n: nat, w: nat, s: int)
    requires w < n && x < Pow2(n) && (s == 1 || s == -1)
    ensures Pattern(x + s, n) / Pow2(w) == x / Pow2(w) <==> Pattern(x, w) != if s == 1 then Pow2(w) - 1 else 0
  {
    hide Pow2;
    Pow2Sum(n - w, w);
    Doubling(w, n);
    PatternOf(x + s, n);
    if x + s == Pow2(n) { DivModUnique(Pow2(n), Pow2(n), 1, 0); }
    SeveralTurns(Pow2(n - w), Pow2(w), Pow2(n));
    Carry(x, Pow2(w), Pow2(n - w), s, Pattern(x + s, n));
  }

  lemma SeveralTurns(k: int, m: int, n: int)
    requires m > 0 && n == k * m && 2 * m <= n
    ensures k >= 2
  {
    if k < 2 { MulMono(k, 1, m); }
  }

  /** Stepping round k turns of m: the quotient changes exactly when the remainder is at its end. */
  lemma Carry(x: nat, m: nat, k: nat, s: int, y: nat)
    requires m > 0 && k >= 2 && x < k * m && (s == 1 || s == -1)
    requires y == if x + s == k * m then 0 else if x + s < 0 then k * m - 1 else x + s
    ensures y / m == x / m <==> x % m != if s == 1 then m - 1 else 0
  {
    var q, r := x / m, x % m;
    Digits(x, m, q, r);
    QuotientBelow(x, m, k, q, r);
    if s == 1 {
      if r < m - 1 {
        Turn(q, k, r + 1, m);
        Quotient(y, m, q, r + 1);
      } else if q + 1 == k {
        Quotient(y, m, 0, 0);
      } else {
        Turn(q + 1, k, 0, m);
        Quotient(y, m, q + 1, 0);
      }
    } else if r > 0 {
      Quotient(y, m, q, r - 1);
    } else if q == 0 {
      Turn(k - 1, k, m - 1, m);
      Quotient(y, m, k - 1, m - 1);
    } else {
      Turn(q - 1, k, m - 1, m);
      Quotient(y, m, q - 1, m - 1);
    }
  }

  lemma Digits(x: nat, m: nat, q: nat, r: nat)
    requires m > 0 && q == x / m && r == x % m
    ensures x == q * m + r && r < m
  {
  }

  lemma QuotientBelow(x: nat, m: nat, k: nat, q: nat, r: nat)
    requires m > 0 && x == q * m + r && x < k * m
    ensures q < k
  {
    if q >= k { MulMono(k, q, m); }
  }

  lemma Turn(q: nat, k: nat, r: nat, m: nat)
    requires q < k && r < m
    ensures q * m + r < k * m && (q + 1) * m == q * m + m
    ensures q > 0 ==> (q - 1) * m == q * m - m
    ensures q + 1 == k ==> q * m + m == k * m
  {
    MulMono(q + 1, k, m);
  }

  lemma Quotient(y: int, m: int, q: int, r: int)
    requires m > 0 && y == q * m + r && 0 <= r < m
    ensures y / m == q
  {
    DivModUnique(y, m, q, r);
  }

  /** The struct after a step of the field that holds the member. */
  function StepAt(cells: seq<Bits>, a: Info, up: bool): (r: seq<Bits>)
    requires a.index < |cells|
    ensures |r| == |cells|
  {
    cells[a.index := Stepped(cells[a.index], up)]
  }

  /** The width a member counts at: its own if it is a bit-field, else that of its field. */
  function CountWidth(a: Info, n: nat): nat {
    match a.part case None => n case Some((_, w)) => w
  }

  /** When the member can be stepped with its unit, it alone changes, by one at its own width. */
  lemma StepIndependent(cells: seq<Bits>, units: seq<nat>, fs: seq<Field>, infos: seq<Info>, j: nat, up: bool)
    requires Shaped(cells, units) && AllHoused(fs, infos, units) && AllApart(infos) && Declarable(fs) && j < |fs|
    requires var a := infos[j];
             a.part.Some? ==> StepsAlone(ToNat(cells[a.index]), units[a.index], a.part.value.0, a.part.value.1, up)
    ensures Shaped(StepAt(cells, infos[j], up), units)
    ensures forall i :: 0 <= i < |infos| ==> infos[i].index < |cells|
    ensures Values(StepAt(cells, infos[j], up), infos) ==
            Values(cells, infos)[
              j := Pattern(Values(cells, infos)[j] + Step(up), CountWidth(infos[j], units[infos[j].index]))]
  {
    hide ReadAt, ToNat, Stepped, Pow2, Pattern, StepsAlone, AllApart, Apart;
    WritableIn(units, fs, infos);
    var a, after := infos[j], StepAt(cells, infos[j], up);
    StepRead(cells, units, fs[j], a, up);
    forall i | 0 <= i < |infos| && i != j ensures ToNat(ReadAt(after, infos[i])) == ToNat(ReadAt(cells, infos[i])) {
      BothApart(infos, i, j);
      StepOthers(cells, units, fs[j], a, fs[i], infos[i], up);
    }
    assert Values(after, infos) ==
           Values(cells, infos)[j := Pattern(Values(cells, infos)[j] + Step(up), CountWidth(a, units[a.index]))];
  }

  lemma BothApart(infos: seq<Info>, i: nat, j: nat)
    requires AllApart(infos) && i < |infos| && j < |infos| && i != j
    ensures Apart(infos[j], infos[i])
  {
    assert Apart(infos[if i < j then i else j], infos[if i < j then j else i]);
  }

  lemma StepRead(cells: seq<Bits>, units: seq<nat>, f: Field, a: Info, up: bool)
    requires Shaped(cells, units) && Housed(f, a, units) && (a.part.Some? ==> a.part.value.1 > 0)
    requires a.part.Some? ==> StepsAlone(ToNat(cells[a.index]), units[a.index], a.part.value.0, a.part.value.1, up)
    ensures ToNat(ReadAt(StepAt(cells, a, up), a)) ==
            Pattern(ToNat(ReadAt(cells, a)) + Step(up), CountWidth(a, units[a.index]))
  {
    hide ToNat, FromNat, Pow2, StepsAlone, Mask, Shr, And;
    var u, after := cells[a.index], StepAt(cells, a, up);
    match a.part
    case None => ToNatFromNat(|u|, Pattern(ToNat(u) + Step(up), |u|));
    case Some((k, w)) =>
      StepExact(u, k, w, up);
      ReadValue(cells, a);
      ReadValue(after, a);
  }

  lemma StepOthers(cells: seq<Bits>, units: seq<nat>, f: Field, a: Info, g: Field, b: Info, up: bool)
    requires Shaped(cells, units) && Housed(f, a, units) && Housed(g, b, units) && Apart(a, b)
    requires (a.part.Some? ==> a.part.value.1 > 0) && (b.part.Some? ==> b.part.value.1 > 0)
    requires a.part.Some? ==> StepsAlone(ToNat(cells[a.index]), units[a.index], a.part.value.0, a.part.value.1, up)
    ensures ToNat(ReadAt(StepAt(cells, a, up), b)) == ToNat(ReadAt(cells, b))
  {
    hide ToNat, Stepped, Pow2, Mask, Shr, And;
    var after := StepAt(cells, a, up);
    if a.index == b.index {
      var w, k := a.part.value.1, b.part.value.0;
      StepExact(cells[a.index], a.part.value.0, w, up);
      ReadValue(cells, b);
      ReadValue(after, b);
      SameAbove(ToNat(cells[a.index]), ToNat(after[a.index]), w, k);
    }
  }

  lemma SameAbove(x: nat, y: nat, w: nat, k: nat)
    requires x / Pow2(w) == y / Pow2(w) && w <= k
    ensures x / Pow2(k) == y / Pow2(k)
  {
    hide Pow2;
    Pow2Sum(w, k - w);
    DivideTwice(x, Pow2(w), Pow2(k - w), Pow2(k));
    DivideTwice(y, Pow2(w), Pow2(k - w), Pow2(k));
  }

  lemma DivideTwice(x: nat, m: nat, p: nat, n: nat)
    requires m > 0 && p > 0 && n == m * p
    ensures x / n == x / m / p
  {
    var q, r := x / m / p, x / m % p;
    assert x / m == q * p + r;
    assert x == (q * p + r) * m + x % m;
    assert (q * p + r) * m == q * n + r * m;
    MulMono(r, p - 1, m);
    assert (p - 1) * m == n - m;
    DivModUnique(x, n, q, r * m + x % m);
  }

  /** A struct variable, and the code emitted for accesses to its members, run on it. */
  class StructVariable {
    var cells: seq<Bits>

    /** Reading a bit-field gives the value of its bits in the unit, and any other member gives its field. */
    method MemberAccess(a: Info) returns (v: Bits)
      requires a.index < |cells|
      ensures v == ReadAt(cells, a)
      ensures a.part.None? ==> v == cells[a.index]
      ensures a.part.Some? ==>
                ToNat(v) == ToNat(cells[a.index]) / Pow2(a.part.value.0) % Pow2(a.part.value.1)
    {
      hide Mask, ToNat, Pow2;
      if a.part.Some? { ReadValue(cells, a); }
      var storage := cells[a.index];
      if a.part.None? { return storage; }
      var (bitOffset, bitWidth) := a.part.value;
      var shifted := if bitOffset > 0 then Shr(storage, bitOffset) else storage;
      v := And(shifted, Mask(|storage|, bitWidth));
    }

    /** Increment and decrement, of a bit-field too, load, step and store the whole field. */
    method IncDec(a: Info, up: bool) returns (result: Bits)
      requires a.index < |cells|
      modifies this
      ensures cells == StepAt(old(cells), a, up) && result == cells[a.index]
      ensures ToNat(result) == Pattern(ToNat(old(cells)[a.index]) + Step(up), |old(cells)[a.index]|)
    {
      var current := cells[a.index];
      var updated := FromNat(|current|, Pattern(ToNat(current) + if up then 1 else -1, |current|));
      ToNatFromNat(|current|, Pattern(ToNat(current) + Step(up), |current|));
      cells := cells[a.index := updated];
      result := updated;
    }

    /** Plain assignment, or, with an operator, a compound one that reads the member first.  The result
        is the value the member keeps. */
    method AssignExpr(a: Info, op: Option<(Bits, Bits) -> Bits>, rhs: Bits) returns (result: Bits)
      requires a.index < |cells| && (a.part.Some? ==> a.part.value.0 + a.part.value.1 <= WORD)
      requires Fits(a, if op.Some? then op.value(ReadAt(cells, a), rhs) else rhs, |cells[a.index]|)
      modifies this
      ensures var v := if op.Some? then op.value(ReadAt(old(cells), a), rhs) else rhs;
              && cells == WriteAt(old(cells), a, v)
              && (a.part.Some? ==>
                    result == And(ZExt(v, |old(cells)[a.index]|), Mask(|old(cells)[a.index]|, a.part.value.1)))
              && (a.part.None? ==> result == cells[a.index])
              && (a.part.None? ==> ToNat(result) == Pattern(Wrap(ToNat(v), |v|, true), |old(cells)[a.index]|))
              && (a.part.Some? ==> ToNat(result) == ToNat(v) % Pow2(a.part.value.1))
    {
      hide Mask, ClearMask, ToNat, Pow2, Wrap;
      var newVal := rhs;
      if op.Some? {
        var current := MemberAccess(a);
        newVal := op.value(current, rhs);
      }
      var oldStorage := cells[a.index];
      var n := |oldStorage|;
      if a.part.None? {
        CastValue(newVal, n);
        if |newVal| != n { newVal := IntCast(newVal, n); } else { assert IntCast(newVal, n) == newVal; }
        cells := cells[a.index := newVal];
        return cells[a.index];
      }
      var (bitOffset, bitWidth) := a.part.value;
      var cleared := And(oldStorage, ClearMask(n, bitWidth, bitOffset, WORD));
      var masked := And(ZExt(newVal, n), Mask(n, bitWidth));
      MaskedValue(newVal, n, bitWidth);
      var shifted := if bitOffset > 0 then Shl(masked, bitOffset) else masked;
      cells := cells[a.index := Or(cleared, shifted)];
      result := masked;
    }
  }
}
