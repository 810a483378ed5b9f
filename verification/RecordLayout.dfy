/** Where the members of a record go: byte offsets, bit-field storage units, size and alignment
    (section 6.7.2.1 of ISO/IEC 9899:1999). */
module RecordLayout {
  import opened Arithmetic

  /** What layout needs to know of a member: size and alignment of its type, and the width of a
      bit-field that is to be packed (0 for any other member). */
  datatype Slot = Slot(size: nat, align: nat, width: nat)

  /** Where a member went: byte offset, bits before it in its unit, and bytes reserved at the offset. */
  datatype Spot = Spot(offset: nat, bit: nat, unit: nat)

  /** The storage unit that bit-fields are being packed into, if there is one. */
  datatype Unit = Closed | Opened(base: nat, size: nat, used: nat)

  datatype Cursor = Cursor(offset: nat, unit: Unit)

  function AlignUp(x: nat, a: nat): nat
    requires a > 0
  {
    (x + a - 1) / a * a
  }

  /** The least multiple of a that is at least x. */
  lemma AlignUpLeast(x: nat, a: nat)
    requires a > 0
    ensures x <= AlignUp(x, a) && AlignUp(x, a) % a == 0
    ensures forall y: nat :: x <= y && y % a == 0 ==> AlignUp(x, a) <= y
  {
    var q, r := (x + a - 1) / a, (x + a - 1) % a;
    Recompose(x + a - 1, a);
    DivModUnique(q * a, a, q, 0);
    forall y: nat | x <= y && y % a == 0
      ensures q * a <= y
    {
      Recompose(y, a);
      NoMultipleBetween(x, a, q, r, y, y / a);
    }
  }

  lemma NoMultipleBetween(x: nat, a: nat, q: nat, r: nat, y: nat, k: nat)
    requires x + a - 1 == q * a + r && r < a && y == k * a && x <= y
    ensures q * a <= y
  {
    if q > k { NextMultiple(k, q, a); }
  }

  lemma Recompose(x: int, a: nat)
    requires a > 0
    ensures x == x / a * a + x % a && 0 <= x % a < a
  {
  }

  lemma NextMultiple(p: int, q: int, a: nat)
    requires p < q
    ensures p * a + a <= q * a
  {
    MulMono(p + 1, q, a);
  }

  function CloseUnit(c: Cursor): Cursor {
    if c.unit.Opened? then Cursor(c.unit.base + c.unit.size, Closed) else c
  }

  /** One member: a bit-field goes into the open unit if it fits and opens a new one otherwise. */
  function Place(c: Cursor, s: Slot): (Cursor, Spot)
    requires s.align > 0
  {
    if s.width > 0 then
      var c1 := if c.unit.Opened? && c.unit.size * 8 - c.unit.used < s.width then CloseUnit(c) else c;
      var c2 := if c1.unit.Opened? then c1 else
                  var off := AlignUp(c1.offset, s.align);
                  Cursor(off, Opened(off, s.size, 0));
      var u := c2.unit;
      (Cursor(c2.offset, Opened(u.base, u.size, u.used + s.width)), Spot(u.base, u.used, u.size))
    else
      var off := AlignUp(CloseUnit(c).offset, s.align);
      (Cursor(off + s.size, Closed), Spot(off, 0, s.size))
  }

  predicate Placeable(slots: seq<Slot>) {
    forall i :: 0 <= i < |slots| ==> slots[i].align > 0 && slots[i].width <= 8 * slots[i].size
  }

  function Spots(c: Cursor, slots: seq<Slot>): (r: seq<Spot>)
    requires Placeable(slots)
    ensures |r| == |slots|
    decreases |slots|
  {
    if slots == [] then []
    else
      var (c1, spot) := Place(c, slots[0]);
      [spot] + Spots(c1, slots[1..])
  }

  function Last(c: Cursor, slots: seq<Slot>): Cursor
    requires Placeable(slots)
    decreases |slots|
  {
    if slots == [] then c else Last(Place(c, slots[0]).0, slots[1..])
  }

  function MaxAlign(slots: seq<Slot>): nat {
    if slots == [] then 1
    else
      var m := MaxAlign(slots[..|slots| - 1]);
      var a := slots[|slots| - 1].align;
      if a > m then a else m
  }

  const START := Cursor(0, Closed)

  /** The first byte after all members. */
  function Extent(slots: seq<Slot>): nat
    requires Placeable(slots)
  {
    CloseUnit(Last(START, slots)).offset
  }

  function RecordSize(slots: seq<Slot>): nat
    requires Placeable(slots)
  {
    MaxAlignBounds(slots);
    AlignUp(Extent(slots), MaxAlign(slots))
  }

  lemma {:induction false} MaxAlignBounds(slots: seq<Slot>)
    ensures MaxAlign(slots) >= 1
    ensures forall i :: 0 <= i < |slots| ==> slots[i].align <= MaxAlign(slots)
    ensures MaxAlign(slots) == 1 || exists i :: 0 <= i < |slots| && slots[i].align == MaxAlign(slots)
    decreases |slots|
  {
    if slots != [] {
      var front := slots[..|slots| - 1];
      MaxAlignBounds(front);
      assert forall i :: 0 <= i < |front| ==> front[i] == slots[i];
      if MaxAlign(slots) == MaxAlign(front) && MaxAlign(front) != 1 {
        var i :| 0 <= i < |front| && front[i].align == MaxAlign(front);
        assert slots[i].align == MaxAlign(slots);
      }
    }
  }

  /** The bits used never outgrow the unit, so what remains is never negative. */
  predicate Sound(c: Cursor) {
    c.unit.Opened? ==> c.unit.used <= 8 * c.unit.size
  }

  /** p comes before q: in earlier bytes, or both are bit-fields and p has earlier bits of one unit. */
  predicate Before(s: Slot, p: Spot, t: Slot, q: Spot) {
    || p.offset + p.unit <= q.offset
    || (s.width > 0 && t.width > 0 && p.offset == q.offset && p.unit == q.unit && p.bit + s.width <= q.bit)
  }

  /** Where a member may still go when the cursor is c. */
  predicate After(c: Cursor, t: Slot, q: Spot) {
    match c.unit
    case Closed => c.offset <= q.offset
    case Opened(base, size, used) =>
      || base + size <= q.offset
      || (t.width > 0 && q.offset == base && q.unit == size && used <= q.bit)
  }

  /** A bit-field that is not first in its unit. */
  predicate Joins(c: Cursor, t: Slot, q: Spot) {
    t.width > 0 && c.unit.Opened? && q.offset == c.unit.base && q.unit == c.unit.size
  }

  lemma PlaceOne(c: Cursor, s: Slot)
    requires Sound(c) && s.align > 0 && s.width <= 8 * s.size
    ensures var (c1, p) := Place(c, s);
            && Sound(c1) && (s.width > 0 ==> p.bit + s.width <= 8 * p.unit)
            && After(c, s, p)
            && ((p.offset % s.align == 0 && p.unit == s.size && p.bit == 0) || Joins(c, s, p))
            && (s.width > 0 ==> c1.unit == Opened(p.offset, p.unit, p.bit + s.width))
            && (s.width == 0 ==> c1 == Cursor(p.offset + p.unit, Closed))
            && CloseUnit(c1).offset == p.offset + p.unit
            && CloseUnit(c).offset <= CloseUnit(c1).offset
  {
    AlignUpLeast(CloseUnit(c).offset, s.align);
    if c.unit.Closed? { AlignUpLeast(c.offset, s.align); }
  }

  /** After the first member is placed, what may come later still comes after what could come before. */
  lemma AfterStep(c: Cursor, s: Slot, t: Slot, q: Spot)
    requires Sound(c) && s.align > 0 && s.width <= 8 * s.size
    requires After(Place(c, s).0, t, q)
    ensures After(c, t, q) && Before(s, Place(c, s).1, t, q)
  {
    PlaceOne(c, s);
  }

  /** From any cursor: members follow each other, stay after the cursor, and end before its last state. */
  lemma {:induction false} Ordered(c: Cursor, slots: seq<Slot>)
    requires Placeable(slots) && Sound(c)
    ensures var r := Spots(c, slots);
            && Sound(Last(c, slots))
            && CloseUnit(c).offset <= CloseUnit(Last(c, slots)).offset
            && (forall i :: 0 <= i < |r| ==>
                  After(c, slots[i], r[i]) && r[i].offset + r[i].unit <= CloseUnit(Last(c, slots)).offset)
            && (forall i, j :: 0 <= i < j < |r| ==> Before(slots[i], r[i], slots[j], r[j]))
    decreases |slots|
  {
    hide Place, After, Before, Sound, CloseUnit, Joins;
    if slots != [] {
      var (c1, p) := Place(c, slots[0]);
      var r, r1 := Spots(c, slots), Spots(c1, slots[1..]);
      PlaceOne(c, slots[0]);
      Ordered(c1, slots[1..]);
      assert r == [p] + r1;
      forall j | 0 < j < |r|
        ensures After(c, slots[j], r[j]) && Before(slots[0], p, slots[j], r[j])
      {
        assert slots[j] == slots[1..][j - 1] && r[j] == r1[j - 1];
        AfterStep(c, slots[0], slots[j], r[j]);
      }
      forall i, j | 0 < i < j < |r|
        ensures Before(slots[i], r[i], slots[j], r[j])
      {
        assert slots[i] == slots[1..][i - 1] && slots[j] == slots[1..][j - 1];
        assert r[i] == r1[i - 1] && r[j] == r1[j - 1];
      }
    }
  }

  /** The member that opened the unit of member j: it has the unit's size and alignment, and it comes
      first in it. */
  ghost predicate Opener(slots: seq<Slot>, r: seq<Spot>, i: int, j: int) {
    && 0 <= i <= j < |slots| && |r| == |slots|
    && slots[i].align > 0
    && r[i].offset == r[j].offset && r[i].unit == r[j].unit && r[i].bit == 0
    && r[i].unit == slots[i].size && r[i].offset % slots[i].align == 0
  }

  ghost predicate HasOpener(slots: seq<Slot>, r: seq<Spot>, j: int) {
    exists i :: Opener(slots, r, i, j)
  }

  lemma {:induction false} Housed(c: Cursor, slots: seq<Slot>, j: nat)
    requires Placeable(slots) && Sound(c) && j < |slots|
    ensures var r := Spots(c, slots);
            && (slots[j].width > 0 ==> r[j].bit + slots[j].width <= 8 * r[j].unit)
            && (slots[j].width == 0 ==>
                  r[j].bit == 0 && r[j].unit == slots[j].size && r[j].offset % slots[j].align == 0)
            && (Joins(c, slots[j], r[j]) || HasOpener(slots, r, j))
    decreases |slots|
  {
    var (c1, p) := Place(c, slots[0]);
    var r, r1 := Spots(c, slots), Spots(c1, slots[1..]);
    PlaceOne(c, slots[0]);
    assert r == [p] + r1;
    if j == 0 {
      if !Joins(c, slots[0], p) { assert Opener(slots, r, 0, 0); }
    } else {
      Housed(c1, slots[1..], j - 1);
      assert slots[j] == slots[1..][j - 1] && r[j] == r1[j - 1];
      if Joins(c1, slots[j], r[j]) {
        assert slots[0].width > 0 && r[j].offset == p.offset && r[j].unit == p.unit;
        if !Joins(c, slots[0], p) { assert Opener(slots, r, 0, j); }
      } else {
        var i :| Opener(slots[1..], r1, i, j - 1);
        assert slots[1..][i] == slots[i + 1] && r1[i] == r[i + 1];
        assert Opener(slots, r, i + 1, j);
      }
    }
  }

  /** The layout of a record from its start: ordinary members and storage units lie in declaration
      order in disjoint bytes inside the record; each ordinary member is aligned to its type and each
      unit to the type that opened it; bit-fields that share a unit have disjoint bits inside it. */
  lemma LayoutMeaning(slots: seq<Slot>)
    requires Placeable(slots)
    ensures var r := Spots(START, slots);
            && (forall i, j :: 0 <= i < j < |r| ==> Before(slots[i], r[i], slots[j], r[j]))
            && (forall j :: 0 <= j < |r| ==> r[j].offset + r[j].unit <= RecordSize(slots))
            && (forall j :: 0 <= j < |r| && slots[j].width == 0 ==>
                  r[j].unit == slots[j].size && r[j].offset % slots[j].align == 0)
            && (forall j :: 0 <= j < |r| && slots[j].width > 0 ==> r[j].bit + slots[j].width <= 8 * r[j].unit)
            && (forall j :: 0 <= j < |r| ==> HasOpener(slots, r, j))
    ensures RecordSize(slots) % MaxAlign(slots) == 0
  {
    Ordered(START, slots);
    MaxAlignBounds(slots);
    AlignUpLeast(Extent(slots), MaxAlign(slots));
    forall j | 0 <= j < |slots|
      ensures var r := Spots(START, slots);
              && (slots[j].width > 0 ==> r[j].bit + slots[j].width <= 8 * r[j].unit)
              && (slots[j].width == 0 ==> r[j].unit == slots[j].size && r[j].offset % slots[j].align == 0)
              && HasOpener(slots, r, j)
    {
      Housed(START, slots, j);
    }
  }

  /** The least multiple of a from x on. */
  ghost predicate LeastFrom(m: nat, x: nat, a: nat)
    requires a > 0
  {
    x <= m && m % a == 0 && forall y: nat :: x <= y && y % a == 0 ==> m <= y
  }

  /** Where t goes right after s: a bit-field that fits into the rest of the unit of a bit-field takes the
      next bits of it; anything else takes the first aligned bytes behind. */
  ghost predicate Follows(s: Slot, p: Spot, t: Slot, q: Spot)
    requires t.align > 0
  {
    if s.width > 0 && t.width > 0 && p.bit + s.width + t.width <= 8 * p.unit
    then q == Spot(p.offset, p.bit + s.width, p.unit)
    else q.bit == 0 && q.unit == t.size && LeastFrom(q.offset, p.offset + p.unit, t.align)
  }

  /** The whole layout, said without the state of the loop: where the first member goes, where each other
      member goes after the one before it, and where the record ends. */
  lemma Successive(slots: seq<Slot>)
    requires Placeable(slots)
    ensures var r := Spots(START, slots);
            && (slots != [] ==> r[0] == Spot(0, 0, slots[0].size))
            && (forall i :: 0 <= i < |r| - 1 ==> Follows(slots[i], r[i], slots[i + 1], r[i + 1]))
            && Extent(slots) == if slots == [] then 0 else r[|r| - 1].offset + r[|r| - 1].unit
  {
    hide Spots, Last, Extent, Follows, LeastFrom, AlignUp, Place;
    if slots != [] { Ends(slots); } else { NoExtent(slots); }
    forall i | 0 <= i < |slots| - 1
      ensures Follows(slots[i], Spots(START, slots)[i], slots[i + 1], Spots(START, slots)[i + 1])
    {
      FollowsFrom(START, slots, i);
    }
  }

  lemma Ends(slots: seq<Slot>)
    requires Placeable(slots) && slots != []
    ensures var r := Spots(START, slots);
            r[0] == Spot(0, 0, slots[0].size) && Extent(slots) == r[|r| - 1].offset + r[|r| - 1].unit
  {
    hide AlignUp, Spots, Last, CloseUnit;
    FirstSpot(slots);
    ExtentFrom(START, slots);
  }

  lemma AlignZero(a: nat)
    requires a > 0
    ensures AlignUp(0, a) == 0
  {
    DivModUnique(a - 1, a, 0, a - 1);
  }

  lemma FirstSpot(slots: seq<Slot>)
    requires Placeable(slots) && slots != []
    ensures Spots(START, slots)[0] == Spot(0, 0, slots[0].size)
  {
    AlignZero(slots[0].align);
    hide AlignUp;
    assert Spots(START, slots)[0] == Place(START, slots[0]).1;
  }

  lemma NoExtent(slots: seq<Slot>)
    requires Placeable(slots) && slots == []
    ensures Extent(slots) == 0
  {
  }

  /** The size is the least multiple of the largest alignment that reaches to the end. */
  lemma SizeMeaning(slots: seq<Slot>)
    requires Placeable(slots)
    ensures MaxAlign(slots) > 0 && LeastFrom(RecordSize(slots), Extent(slots), MaxAlign(slots))
  {
    hide Extent, MaxAlign, AlignUp;
    MaxAlignBounds(slots);
    AlignUpLeast(Extent(slots), MaxAlign(slots));
  }

  lemma {:induction false} FollowsFrom(c: Cursor, slots: seq<Slot>, i: nat)
    requires Placeable(slots) && Sound(c) && i + 1 < |slots|
    ensures Follows(slots[i], Spots(c, slots)[i], slots[i + 1], Spots(c, slots)[i + 1])
    decreases i
  {
    var (c1, p) := Place(c, slots[0]);
    PlaceOne(c, slots[0]);
    if i == 0 {
      assert Spots(c, slots)[1] == Place(c1, slots[1]).1;
      AlignUpLeast(p.offset + p.unit, slots[1].align);
    } else {
      FollowsFrom(c1, slots[1..], i - 1);
    }
  }

  lemma {:induction false} ExtentFrom(c: Cursor, slots: seq<Slot>)
    requires Placeable(slots) && Sound(c) && slots != []
    ensures var last := Spots(c, slots)[|slots| - 1];
            CloseUnit(Last(c, slots)).offset == last.offset + last.unit
    decreases |slots|
  {
    var (c1, p) := Place(c, slots[0]);
    PlaceOne(c, slots[0]);
    if |slots| > 1 {
      ExtentFrom(c1, slots[1..]);
    } else {
      assert slots[1..] == [];
    }
  }

  /** Any placement of members without bit-fields that C would accept. */
  ghost predicate Acceptable(slots: seq<Slot>, offs: seq<nat>) {
    && |offs| == |slots|
    && (forall i :: 0 <= i < |slots| ==> slots[i].width == 0 && slots[i].align > 0 && offs[i] % slots[i].align == 0)
    && (forall i, j :: 0 <= i < j < |slots| ==> offs[i] + slots[i].size <= offs[j])
  }

  lemma {:induction false} Earliest(c: Cursor, slots: seq<Slot>, offs: seq<nat>, size: nat)
    requires Placeable(slots) && c.unit.Closed? && Acceptable(slots, offs)
    requires forall i :: 0 <= i < |offs| ==> c.offset <= offs[i] && offs[i] + slots[i].size <= size
    requires c.offset <= size
    ensures forall i :: 0 <= i < |offs| ==> Spots(c, slots)[i].offset <= offs[i]
    ensures Last(c, slots).unit.Closed? && Last(c, slots).offset <= size
    decreases |slots|
  {
    if slots != [] {
      var (c1, p) := Place(c, slots[0]);
      AlignUpLeast(c.offset, slots[0].align);
      assert p.offset <= offs[0];
      var rest := slots[1..];
      assert forall i :: 0 <= i < |rest| ==> rest[i] == slots[i + 1] && offs[1..][i] == offs[i + 1];
      Earliest(c1, rest, offs[1..], size);
      forall i | 0 <= i < |offs|
        ensures Spots(c, slots)[i].offset <= offs[i]
      {
        if i > 0 { assert offs[i] == offs[1..][i - 1]; }
      }
    }
  }

  /** No acceptable placement puts a member earlier or, at the record's alignment, needs less room. */
  lemma LayoutOptimal(slots: seq<Slot>, offs: seq<nat>, size: nat)
    requires Placeable(slots) && Acceptable(slots, offs)
    requires forall i :: 0 <= i < |offs| ==> offs[i] + slots[i].size <= size
    requires size % MaxAlign(slots) == 0
    ensures forall i :: 0 <= i < |offs| ==> Spots(START, slots)[i].offset <= offs[i]
    ensures RecordSize(slots) <= size
  {
    Earliest(START, slots, offs, size);
    MaxAlignBounds(slots);
    AlignUpLeast(Extent(slots), MaxAlign(slots));
  }

  ghost predicate IsPowerOf2(a: nat) { exists k: nat :: a == Pow2(k) }

  lemma PowersDivide(a: nat, b: nat)
    requires IsPowerOf2(a) && IsPowerOf2(b) && a <= b
    ensures b % a == 0
  {
    var j: nat :| a == Pow2(j);
    var k: nat :| b == Pow2(k);
    if k < j { Pow2Less(k, j); }
    Pow2Sum(j, k - j);
    DivModUnique(b, a, Pow2(k - j), 0);
  }

  lemma {:induction false} Pow2Less(m: nat, n: nat)
    requires m < n
    ensures Pow2(m) < Pow2(n)
  {
    if m > 0 { Pow2Less(m - 1, n - 1); } else if n > 1 { Pow2Less(0, n - 1); }
  }

  lemma MultipleOfMultiple(x: int, a: nat, b: nat)
    requires a > 0 && b > 0 && b % a == 0 && x % b == 0
    ensures x % a == 0
  {
    var p, q := b / a, x / b;
    assert x == q * b && b == p * a;
    assert x == (q * p) * a;
    DivModUnique(x, a, q * p, 0);
  }

  /** When all alignments are powers of two, so is the record's, and in an array of the record every
      ordinary member of every element is aligned. */
  lemma ArrayAligned(slots: seq<Slot>, k: nat, j: nat)
    requires Placeable(slots) && j < |slots| && slots[j].width == 0
    requires forall i :: 0 <= i < |slots| ==> IsPowerOf2(slots[i].align)
    ensures IsPowerOf2(MaxAlign(slots))
    ensures (k * RecordSize(slots) + Spots(START, slots)[j].offset) % slots[j].align == 0
  {
    hide *;
    AlignPositive(slots, j);
    MaxAlignPower(slots);
    MaxAlignBounds(slots);
    LayoutMeaning(slots);
    PowersDivide(slots[j].align, MaxAlign(slots));
    MultipleOfMultiple(RecordSize(slots), slots[j].align, MaxAlign(slots));
    SumOfMultiples(k, RecordSize(slots), Spots(START, slots)[j].offset, slots[j].align);
  }

  lemma AlignPositive(slots: seq<Slot>, j: nat)
    requires Placeable(slots) && j < |slots|
    ensures slots[j].align > 0
  {
  }

  lemma SumOfMultiples(k: nat, n: nat, off: nat, a: nat)
    requires a > 0 && n % a == 0 && off % a == 0
    ensures (k * n + off) % a == 0
  {
    Recompose(n, a);
    Recompose(off, a);
    assert k * (n / a * a) == k * (n / a) * a;
    DivModUnique(k * n + off, a, k * (n / a) + off / a, 0);
  }

  lemma MaxAlignPower(slots: seq<Slot>)
    requires forall i :: 0 <= i < |slots| ==> IsPowerOf2(slots[i].align)
    ensures IsPowerOf2(MaxAlign(slots))
  {
    MaxAlignBounds(slots);
    assert Pow2(0) == 1;
  }
}
