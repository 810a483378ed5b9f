/** The LLVM types of C types, the sizes the backend works out from them by itself, and when those
    agree with the type table. */
module LlvmImage {
  import opened Arithmetic
  import opened Options
  import opened RecordLayout
  import opened TypeTable
  import opened RecordTable

  datatype LType =
    | IntType(bits: nat)
    | FloatType(bits: nat)
    | PointerType
    | ArrayType(elem: LType, len: nat)
    | StructType(fields: seq<LType>, packed: bool)

  /** The image of a type; incomplete and unusual types get a placeholder. */
  function Image(types: Types, id: nat): LType
    requires Grounded(types)
    decreases id
  {
    if id >= |types| then IntType(32)
    else
      match types[id]
      case Void => IntType(8)
      case Bool => IntType(1)
      case Char(_) => IntType(8)
      case Short(_) => IntType(16)
      case Int(_) => IntType(32)
      case Long(_) => IntType(64)
      case LongLong(_) => IntType(64)
      case Float => FloatType(32)
      case Double => FloatType(64)
      case LongDouble => FloatType(64)
      case Pointer(_) => PointerType
      case Array(e, n) =>
        assert e in Components(types[id]);
        ArrayType(Image(types, e), Pattern(if n.Some? then n.value else 0, 32))
      case Struct(_, ms, _, a) =>
        if ms == [] then IntType(8) else
          assert forall m :: m in ms ==> m.ty in Components(types[id]);
          StructType(seq(|ms|, i requires 0 <= i < |ms| => assert ms[i] in ms; Image(types, ms[i].ty)), a == 1)
      case Union(_, _, _, _) => ArrayType(IntType(8), 1)
      case Enum(_, _) => IntType(32)
      case Function(_, _, _) => IntType(32)
      case Typedef(_, u) => assert u in Components(types[id]); Image(types, u)
      case Qualified(_, b) => assert b in Components(types[id]); Image(types, b)
  }

  /** Typedefs and qualifiers leave no trace. */
  lemma {:induction false} ImageAlong(types: Types, id: nat, n: nat)
    requires Grounded(types)
    ensures Image(types, Along(types, id, n)) == Image(types, id)
    decreases n
  {
    if n > 0 && Next(types, id).Some? { ImageAlong(types, Next(types, id).value, n - 1); }
  }

  predicate IsFloating(t: CType) { t.Float? || t.Double? || t.LongDouble? }

  predicate IsScalar(t: CType) {
    !(t.Void? || t.Array? || IsRecord(t) || t.Function? || t.Typedef? || t.Qualified?)
  }

  /** What kind of LLVM type stands for a type, through any chain of typedefs and qualifiers to t: integers for
      exactly the integer types among the scalars, floats for exactly the floating types, pointers for
      exactly the pointers, at eight bits a byte but for Bool, enums and long double; aggregates member by
      member, but a union is one byte whatever its size.  All scalars but enums are aligned to their size. */
  lemma ImageKind(types: Types, id: nat, n: nat)
    requires Grounded(types) && Next(types, Along(types, id, n)).None? && Along(types, id, n) < |types|
    ensures var t, image, size := types[Along(types, id, n)], Image(types, id), SizeOf(types, id);
            && (IsInteger(types, id) <==> IsScalar(t) && image.IntType?)
            && (image.FloatType? <==> IsFloating(t))
            && (image.PointerType? <==> t.Pointer?)
            && (IsInteger(types, id) && !t.Bool? && !t.Enum? ==> image.bits == 8 * size)
            && (t.Bool? ==> image == IntType(1) && size == 1)
            && (t.Enum? ==> image == IntType(32))
            && (t.Float? || t.Double? ==> image.bits == 8 * size)
            && (t.LongDouble? ==> image.bits == 4 * size)
            && (t.Pointer? ==> size == 8)
            && (IsScalar(t) && !t.Enum? ==> AlignOf(types, id) == size)
            && (t.Void? || t.Function? ==> size == 0 && AlignOf(types, id) == 1)
            && (t.Enum? ==> size == SizeOf(types, t.underlying) && AlignOf(types, id) == AlignOf(types, t.underlying))
            && (t.Array? ==>
                  && AlignOf(types, id) == AlignOf(types, t.element)
                  && size == if t.length.Some? then SizeOf(types, t.element) * t.length.value else 0)
    ensures var t, image := types[Along(types, id, n)], Image(types, id);
            && (t.Array? ==>
                  && image.ArrayType? && image.elem == Image(types, t.element)
                  && (t.length.Some? && t.length.value < Pow2(32) ==> image.len == t.length.value)
                  && (t.length.None? ==> image.len == 0))
            && (t.Union? ==> image == ArrayType(IntType(8), 1))
            && (t.Void? || (t.Struct? && t.members == []) ==> image == IntType(8))
            && (t.Struct? && t.members != [] ==>
                  && image.StructType? && (image.packed <==> t.align == 1) && |image.fields| == |t.members|
                  && forall k :: 0 <= k < |t.members| ==> image.fields[k] == Image(types, t.members[k].ty))
  {
    var r := Along(types, id, n);
    AlongKeeps(types, id, n);
    ImageAlong(types, id, n);
    ArrayLength(types[r]);
  }

  lemma ArrayLength(t: CType)
    ensures t.Array? && t.length.Some? && t.length.value < Pow2(32) ==> Pattern(t.length.value, 32) == t.length.value
    ensures Pattern(0, 32) == 0
  {
    if t.Array? && t.length.Some? { PatternOf(t.length.value, 32); }
    PatternOf(0, 32);
  }

  function IntBytes(bits: nat): nat { (if bits < 8 then 8 else bits) / 8 }

  /** The size of a float of so many bits, if LLVM answers with a constant. */
  type Asked = nat -> Option<nat>

  function FloatBytes(ask: Asked, bits: nat, fallback: nat): nat {
    match ask(bits) case Some(n) => n case None => fallback
  }

  function Round(x: nat, a: nat): nat { if a <= 1 then x else AlignUp(x, a) }

  function Max(a: nat, b: nat): nat { if a > b then a else b }

  /** Size and alignment of an array element inside a record; arrays in arrays are taken for 4 bytes. */
  function ElementSizeAlign(ask: Asked, t: LType): (nat, nat)
    decreases t, 0
  {
    match t
    case IntType(b) => (IntBytes(b), IntBytes(b))
    case FloatType(b) => (FloatBytes(ask, b, 4), FloatBytes(ask, b, 4))
    case PointerType => (8, 8)
    case ArrayType(_, _) => (4, 4)
    case StructType(fs, p) => StructSizeAlign(ask, fs, p)
  }

  function FieldSizeAlign(ask: Asked, t: LType): (nat, nat)
    decreases t, 1
  {
    match t
    case ArrayType(e, n) => (ElementSizeAlign(ask, e).0 * n, ElementSizeAlign(ask, e).1)
    case _ => ElementSizeAlign(ask, t)
  }

  /** Offset after the fields, and the largest alignment among them. */
  function Walk(ask: Asked, fs: seq<LType>, packed: bool): (nat, nat)
    decreases fs, 2
  {
    if fs == [] then (0, 1)
    else
      var (offset, maxAlign) := Walk(ask, fs[..|fs| - 1], packed);
      var (size, align) := FieldSizeAlign(ask, fs[|fs| - 1]);
      var a := if packed then 1 else Max(align, 1);
      (Round(offset, a) + size, Max(maxAlign, a))
  }

  function StructSizeAlign(ask: Asked, fs: seq<LType>, packed: bool): (nat, nat)
    decreases fs, 3
  {
    var (offset, maxAlign) := Walk(ask, fs, packed);
    if packed then (offset, 1) else (Round(offset, maxAlign), maxAlign)
  }

  function SizeBytes(ask: Asked, t: LType): nat {
    match t
    case IntType(b) => IntBytes(b)
    case FloatType(b) => FloatBytes(ask, b, 8)
    case PointerType => 8
    case ArrayType(e, n) => SizeBytes(ask, e) * n
    case StructType(fs, p) => StructSizeAlign(ask, fs, p).0
  }

  /** The types both sides agree on: integers, pointers, enums over int, floats and doubles if LLVM answers with
      their size, arrays of what is not itself an array, with a length that fits 32 bits, and laid-out structs
      with members but no bit-fields. */
  predicate Plain(ask: Asked, types: Types, id: nat)
    requires Grounded(types)
    decreases id
  {
    id < |types| &&
    match types[id]
    case Bool => true
    case Char(_) => true
    case Short(_) => true
    case Int(_) => true
    case Long(_) => true
    case LongLong(_) => true
    case Float => ask(32) == Some(4)
    case Double => ask(64) == Some(8)
    case Pointer(_) => true
    case Enum(_, u) => u < |types| && types[u].Int?
    case Array(e, n) =>
      assert e in Components(types[id]);
      n.Some? && n.value < Pow2(32) && Plain(ask, types, e) && !Image(types, e).ArrayType?
    case Struct(_, ms, _, a) =>
      && ms != [] && a > 0
      && (assert forall m :: m in ms ==> m.ty in Components(types[id]);
          forall m :: m in ms ==> m.bitWidth == None && Plain(ask, types, m.ty))
    case Typedef(_, u) => assert u in Components(types[id]); Plain(ask, types, u)
    case Qualified(_, b) => assert b in Components(types[id]); Plain(ask, types, b)
    case _ => false
  }

  /** What each of the two walks makes of a floating type depends on the answer: without one, a double in a
      record counts four bytes and a float by itself eight. */
  lemma FloatsAgree(ask: Asked)
    ensures var f, d := [Float], [Double];
            && Grounded(f) && Grounded(d)
            && (SizeBytes(ask, Image(f, 0)) == SizeOf(f, 0) <==> ask(32) == Some(4))
            && (FieldSizeAlign(ask, Image(f, 0)) == (SizeOf(f, 0), AlignOf(f, 0)) <==> ask(32) in {None, Some(4)})
            && (SizeBytes(ask, Image(d, 0)) == SizeOf(d, 0) <==> ask(64) in {None, Some(8)})
            && (FieldSizeAlign(ask, Image(d, 0)) == (SizeOf(d, 0), AlignOf(d, 0)) <==> ask(64) == Some(8))
  {
  }

  /** A long double has the image of a double, so no answer is right for both. */
  lemma LongDoubleDiffers(ask: Asked)
    ensures Grounded([LongDouble]) && Image([LongDouble], 0) == Image([Double], 0)
    ensures SizeBytes(ask, Image([LongDouble], 0)) != SizeOf([LongDouble], 0)
         || SizeBytes(ask, Image([Double], 0)) != SizeOf([Double], 0)
  {
  }

  /** In a record, an array of arrays gets the size of its elements right only if they take four bytes. */
  lemma NestedArray(ask: Asked, e: LType, m: nat, n: nat)
    ensures var t := ArrayType(ArrayType(e, m), n);
            FieldSizeAlign(ask, t).0 == SizeBytes(ask, t) <==> n == 0 || SizeBytes(ask, e) * m == 4
  {
    var inner := SizeBytes(ask, e) * m;
    assert FieldSizeAlign(ask, ArrayType(ArrayType(e, m), n)).0 == 4 * n;
    assert SizeBytes(ask, ArrayType(ArrayType(e, m), n)) == inner * n;
    if n > 0 {
      if inner > 4 { MulMono(5, inner, n); } else if inner < 4 { MulMono(inner, 3, n); }
    }
  }

  lemma {:induction false} LastSnoc(c: Cursor, slots: seq<Slot>)
    requires Placeable(slots) && slots != []
    ensures Placeable(slots[..|slots| - 1])
    ensures Last(c, slots) == Place(Last(c, slots[..|slots| - 1]), slots[|slots| - 1]).0
    decreases |slots|
  {
    var front := slots[..|slots| - 1];
    if front == [] {
      assert slots[1..] == [];
    } else {
      assert slots[1..][..|slots| - 2] == front[1..];
      LastSnoc(Place(c, slots[0]).0, slots[1..]);
    }
  }

  lemma {:induction false} NoUnits(c: Cursor, slots: seq<Slot>)
    requires Placeable(slots) && c.unit.Closed? && forall i :: 0 <= i < |slots| ==> slots[i].width == 0
    ensures Last(c, slots).unit.Closed?
    decreases |slots|
  {
    if slots != [] { NoUnits(Place(c, slots[0]).0, slots[1..]); }
  }

  lemma RoundUp(x: nat, a: nat)
    requires a > 0
    ensures Round(x, a) == AlignUp(x, a)
  {
    if a == 1 { AlignUpLeast(x, 1); }
  }

  /** Walking LLVM fields that have the sizes and alignments of the slots goes where layout goes; with
      all alignments 1 it makes no difference whether the struct is packed. */
  lemma {:induction false} WalkAgrees(ask: Asked, fs: seq<LType>, slots: seq<Slot>, packed: bool)
    requires |fs| == |slots| && Placeable(slots) && (packed ==> MaxAlign(slots) == 1)
    requires forall i :: 0 <= i < |slots| ==>
               slots[i].width == 0 && FieldSizeAlign(ask, fs[i]) == (slots[i].size, slots[i].align)
    ensures Walk(ask, fs, packed) == (Extent(slots), MaxAlign(slots))
    decreases |slots|
  {
    hide AlignUp, Round, Placeable, FieldSizeAlign;
    MaxAlignBounds(slots);
    if slots != [] {
      var front, s := slots[..|slots| - 1], slots[|slots| - 1];
      MaxAlignBounds(front);
      LastSnoc(START, slots);
      assert forall i :: 0 <= i < |front| ==> front[i] == slots[i] && fs[..|fs| - 1][i] == fs[i];
      WalkAgrees(ask, fs[..|fs| - 1], front, packed);
      NoUnits(START, front);
      AlignPositive(slots, |slots| - 1);
      assert s.align <= MaxAlign(slots);
      RoundUp(Extent(front), s.align);
    }
  }

  /** What a struct of the table was laid out from: ordinary members of the same types. */
  lemma PlainMembers(types: Types, id: nat, ms: seq<Member>, i: nat)
    requires Grounded(types) && id < |types| && types[id].Struct? && LaidFrom(types, types[id], ms)
    requires i < |ms| && types[id].members[i].bitWidth == None
    ensures |ms| == |types[id].members| && types[id].members[i].ty == ms[i].ty && PackedWidth(ms[i]) == 0
  {
  }

  /** On plain types the backend's own size computations agree with the type table. */
  lemma {:induction false} ImageAgrees(ask: Asked, types: Types, id: nat)
    requires TableOk(types) && Plain(ask, types, id)
    ensures SizeBytes(ask, Image(types, id)) == SizeOf(types, id)
    ensures FieldSizeAlign(ask, Image(types, id)) == (SizeOf(types, id), AlignOf(types, id))
    ensures Image(types, id).StructType? ==>
              StructSizeAlign(ask, Image(types, id).fields, Image(types, id).packed) ==
              (SizeOf(types, id), AlignOf(types, id))
    decreases id, 1
  {
    hide StructSizeAlign, Walk, RecordOk;
    match types[id]
    case Array(e, n) =>
      assert e in Components(types[id]);
      ImageAgrees(ask, types, e);
      DivModUnique(n.value, Pow2(32), 0, n.value);
    case Struct(_, _, _, _) => StructAgrees(ask, types, id);
    case Typedef(_, u) => assert u in Components(types[id]); ImageAgrees(ask, types, u);
    case Qualified(_, b) => assert b in Components(types[id]); ImageAgrees(ask, types, b);
    case _ =>
  }

  lemma {:induction false} StructAgrees(ask: Asked, types: Types, id: nat)
    requires TableOk(types) && Plain(ask, types, id) && types[id].Struct?
    ensures Image(types, id).StructType?
    ensures StructSizeAlign(ask, Image(types, id).fields, Image(types, id).packed) == (types[id].size, types[id].align)
    decreases id, 0
  {
    hide Walk, LaidFrom, AlignUp, MaxAlign, Last, Spots, FieldSizeAlign;
    assert RecordOk(types, id);
    var ms: seq<Member> :| LaidFrom(types, types[id], ms);
    var slots, fs := SlotsOf(types, ms), Image(types, id).fields;
    LaidSize(types, id, ms);
    forall i | 0 <= i < |slots|
      ensures slots[i].width == 0 && FieldSizeAlign(ask, fs[i]) == (slots[i].size, slots[i].align)
    {
      PlacedTypes(types, id, ms, i);
      assert types[id].members[i] in types[id].members;
      PlainMembers(types, id, ms, i);
      ImageAgrees(ask, types, ms[i].ty);
    }
    MaxAlignBounds(slots);
    WalkAgrees(ask, fs, slots, types[id].align == 1);
    RoundUp(Extent(slots), MaxAlign(slots));
    if types[id].align == 1 { AlignUpLeast(Extent(slots), 1); RoundUp(Extent(slots), 1); }
  }

  lemma LaidSize(types: Types, id: nat, ms: seq<Member>)
    requires Grounded(types) && id < |types| && types[id].Struct? && LaidFrom(types, types[id], ms)
    ensures Placeable(SlotsOf(types, ms)) && |ms| == |types[id].members|
    ensures types[id].size == RecordSize(SlotsOf(types, ms)) && types[id].align == MaxAlign(SlotsOf(types, ms))
  {
  }

  /** The backend object's cache of images, and its loops over the fields of a struct. */
  class TypeLowering {
    const types: Types
    var typeCache: map<nat, LType>

    ghost predicate Valid()
      reads this
    {
      Grounded(types) && forall id :: id in typeCache ==> typeCache[id] == Image(types, id)
    }

    constructor (table: Types)
      requires Grounded(table)
      ensures Valid() && types == table && typeCache == map[]
    {
      types, typeCache := table, map[];
    }

    /** Warm or cold, the cache does not change the image, and what is entered is the image. */
    method ToLlvmType(id: nat) returns (t: LType)
      requires Valid() && Grounded(types)
      modifies this
      ensures Valid() && t == Image(types, id)
      ensures id in typeCache && forall k :: k in old(typeCache) ==> k in typeCache
      decreases id, 2
    {
      hide Image;
      if id in typeCache { return typeCache[id]; }
      t := BuildType(id);
      typeCache := typeCache[id := t];
    }

    method BuildType(id: nat) returns (t: LType)
      requires Valid() && Grounded(types)
      modifies this
      ensures Valid() && t == Image(types, id)
      ensures forall k :: k in old(typeCache) ==> k in typeCache
      decreases id, 1
    {
      hide Valid, Pattern;
      if id >= |types| {
        t := IntType(32);
      } else {
        match types[id] {
          case Void => t := IntType(8);
          case Bool => t := IntType(1);
          case Char(_) => t := IntType(8);
          case Short(_) => t := IntType(16);
          case Int(_) => t := IntType(32);
          case Long(_) => t := IntType(64);
          case LongLong(_) => t := IntType(64);
          case Float => t := FloatType(32);
          case Double => t := FloatType(64);
          case LongDouble => t := FloatType(64);
          case Pointer(_) => t := PointerType;
          case Array(e, n) =>
            assert e in Components(types[id]);
            var elem := ToLlvmType(e);
            t := ArrayType(elem, Pattern(if n.Some? then n.value else 0, 32));
          case Struct(_, ms, _, a) =>
            var fields := MemberTypes(id);
            t := if fields == [] then IntType(8) else StructType(fields, a == 1);
          case Union(_, _, _, _) => t := ArrayType(IntType(8), 1);
          case Enum(_, _) => t := IntType(32);
          case Function(_, _, _) => t := IntType(32);
          case Typedef(_, u) =>
            assert u in Components(types[id]);
            t := ToLlvmType(u);
          case Qualified(_, b) =>
            assert b in Components(types[id]);
            t := ToLlvmType(b);
        }
      }
    }

    method MemberTypes(id: nat) returns (fields: seq<LType>)
      requires Valid() && Grounded(types) && id < |types| && types[id].Struct?
      modifies this
      ensures Valid() && forall k :: k in old(typeCache) ==> k in typeCache
      ensures |fields| == |types[id].members|
      ensures forall k :: 0 <= k < |fields| ==>
                types[id].members[k].ty < id && fields[k] == Image(types, types[id].members[k].ty)
      decreases id, 0
    {
      hide Image, Valid;
      var ms := types[id].members;
      fields := [];
      for i := 0 to |ms|
        invariant Valid() && forall k :: k in old(typeCache) ==> k in typeCache
        invariant |fields| == i
        invariant forall k :: 0 <= k < i ==> ms[k].ty < id && fields[k] == Image(types, ms[k].ty)
      {
        assert ms[i] in ms && ms[i].ty in Components(types[id]) && Below(types[id], id);
        var f := ToLlvmType(ms[i].ty);
        fields := fields + [f];
      }
    }

    /** Size and alignment of a struct type, field by field. */
    static method RecordSizeAlign(ask: Asked, st: LType) returns (size: nat, align: nat)
      requires st.StructType?
      ensures (size, align) == StructSizeAlign(ask, st.fields, st.packed)
      decreases st, 0
    {
      hide FieldSizeAlign, AlignUp;
      var fs, packed := st.fields, st.packed;
      var offset: nat, maxAlign: nat := 0, 1;
      for i := 0 to |fs|
        invariant (offset, maxAlign) == Walk(ask, fs[..i], packed)
      {
        assert fs[..i + 1][..i] == fs[..i];
        var fieldSize, fieldAlign := FieldSizes(ask, fs[i]);
        var a := if packed then 1 else Max(fieldAlign, 1);
        maxAlign := Max(maxAlign, a);
        offset := Round(offset, a) + fieldSize;
      }
      assert fs[..|fs|] == fs;
      if packed { return offset, 1; }
      return Round(offset, maxAlign), maxAlign;
    }

    static method FieldSizes(ask: Asked, field: LType) returns (size: nat, align: nat)
      ensures (size, align) == FieldSizeAlign(ask, field)
      decreases field, 1
    {
      hide StructSizeAlign;
      match field {
        case IntType(b) => size, align := IntBytes(b), IntBytes(b);
        case FloatType(b) => size, align := FloatBytes(ask, b, 4), FloatBytes(ask, b, 4);
        case PointerType => size, align := 8, 8;
        case StructType(_, _) => size, align := RecordSizeAlign(ask, field);
        case ArrayType(elem, n) =>
          match elem {
            case IntType(b) => size, align := IntBytes(b), IntBytes(b);
            case FloatType(b) => size, align := FloatBytes(ask, b, 4), FloatBytes(ask, b, 4);
            case PointerType => size, align := 8, 8;
            case StructType(_, _) => size, align := RecordSizeAlign(ask, elem);
            case ArrayType(_, _) => size, align := 4, 4;
          }
          size := size * n;
      }
    }

    /** The size the backend gives a value of LLVM type t. */
    static method LlvmTypeSizeBytes(ask: Asked, t: LType) returns (size: nat)
      ensures size == SizeBytes(ask, t)
    {
      match t {
        case IntType(b) => size := IntBytes(b);
        case FloatType(b) => size := FloatBytes(ask, b, 8);
        case PointerType => size := 8;
        case ArrayType(e, n) =>
          var elem := LlvmTypeSizeBytes(ask, e);
          size := elem * n;
        case StructType(_, _) =>
          var align;
          size, align := RecordSizeAlign(ask, t);
      }
    }
  }
}
