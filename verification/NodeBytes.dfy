/** How a syntax tree node lies in memory: fields little-endian at the offsets of the C layout. */
module NodeBytes {
  import opened RecordLayout

  type Byte = b: int | 0 <= b < 256

  type U16 = x: int | 0 <= x < 0x1_0000

  type U32 = x: int | 0 <= x < 0x1_0000_0000

  type Bytes = seq<Byte>

  datatype SourceLocation = SourceLocation(fileId: U32, line: U32, column: U32, length: U32)

  datatype CAstNode = CAstNode(
    kind: U16, flags: U16, parent: U32, firstChild: U32, lastChild: U32, nextSibling: U32, prevSibling: U32,
    childCount: U16, data: U32, source: SourceLocation, payloadOffset: U32, payloadLen: U32)

  const FIELDS: nat := 16

  /** The bytes of field i: kind, flags and child count take two, and so does the padding after the count. */
  function Width(i: nat): nat { if i < 2 || i == 7 || i == 8 then 2 else 4 }

  /** The widths of the fields from i on. */
  function Widths(i: nat): (ws: seq<nat>)
    requires i <= FIELDS
    ensures |ws| == FIELDS - i && forall k :: 0 <= k < |ws| ==> ws[k] == Width(i + k)
    decreases FIELDS - i
  {
    if i == FIELDS then [] else [Width(i)] + Widths(i + 1)
  }

  const NODE_SIZE: nat := 56

  function Pow256(w: nat): nat { if w == 0 then 1 else 256 * Pow256(w - 1) }

  function Little(v: nat, w: nat): (b: Bytes)
    ensures |b| == w
  {
    if w == 0 then [] else [v % 256] + Little(v / 256, w - 1)
  }

  function FromLittle(b: Bytes): (v: nat)
    ensures v < Pow256(|b|)
  {
    if b == [] then 0 else b[0] + 256 * FromLittle(b[1..])
  }

  lemma {:induction false} LittleReadBack(v: nat, w: nat)
    requires v < Pow256(w)
    ensures FromLittle(Little(v, w)) == v
  {
    if w > 0 {
      LittleReadBack(v / 256, w - 1);
      assert Little(v, w)[1..] == Little(v / 256, w - 1);
    }
  }

  function Total(ws: seq<nat>): nat { if ws == [] then 0 else ws[0] + Total(ws[1..]) }

  predicate Fits(vs: seq<nat>, ws: seq<nat>) {
    |vs| == |ws| && forall i :: 0 <= i < |ws| ==> vs[i] < Pow256(ws[i])
  }

  function Pack(vs: seq<nat>, ws: seq<nat>): (b: Bytes)
    requires |vs| == |ws|
    ensures |b| == Total(ws)
  {
    if ws == [] then [] else Little(vs[0], ws[0]) + Pack(vs[1..], ws[1..])
  }

  function Unpack(b: Bytes, ws: seq<nat>): (vs: seq<nat>)
    requires |b| == Total(ws)
    ensures Fits(vs, ws)
    decreases |ws|
  {
    if ws == [] then []
    else
      var rest := Unpack(b[ws[0]..], ws[1..]);
      [FromLittle(b[..ws[0]])] + rest
  }

  lemma {:induction false} UnpackPack(vs: seq<nat>, ws: seq<nat>)
    requires Fits(vs, ws)
    ensures Unpack(Pack(vs, ws), ws) == vs
    decreases |ws|
  {
    if ws != [] {
      var b := Pack(vs, ws);
      LittleReadBack(vs[0], ws[0]);
      assert forall i :: 0 <= i < |ws| - 1 ==> vs[1..][i] == vs[i + 1] && ws[1..][i] == ws[i + 1];
      UnpackPack(vs[1..], ws[1..]);
      assert b[..ws[0]] == Little(vs[0], ws[0]) && b[ws[0]..] == Pack(vs[1..], ws[1..]);
    }
  }

  /** Bytes from field i to the end of the node. */
  function Remaining(i: nat): int {
    if i >= 9 then 4 * (16 - i)
    else if i >= 7 then 28 + 2 * (9 - i)
    else if i >= 2 then 32 + 4 * (7 - i)
    else 52 + 2 * (2 - i)
  }

  lemma {:induction false} WidthsTotal(i: nat)
    requires i <= FIELDS
    ensures Total(Widths(i)) == Remaining(i)
    decreases FIELDS - i
  {
    if i < FIELDS {
      WidthsTotal(i + 1);
      assert Widths(i)[1..] == Widths(i + 1);
    }
  }

  lemma NodeSize()
    ensures Total(Widths(0)) == NODE_SIZE
  {
    WidthsTotal(0);
  }

  /** The fields of the node as C declares them: sizes, which are alignments too. */
  const C_SIZES: seq<nat> := [2, 2, 4, 4, 4, 4, 4, 2, 4, 4, 4, 4, 4, 4, 4]

  ghost function CFields(): (slots: seq<Slot>)
    ensures |slots| == FIELDS - 1 && Placeable(slots)
  {
    seq(FIELDS - 1, j requires 0 <= j < FIELDS - 1 => Slot(C_SIZES[j], C_SIZES[j], 0))
  }

  /** The number of a C field among those written, which count the padding. */
  function Number(j: nat): nat { if j < 8 then j else j + 1 }

  /** Where the fields lie is where the record layout puts them, and so is the size. */
  lemma {:induction false} FieldOffset(j: nat)
    requires j < FIELDS - 1
    ensures Spots(START, CFields())[j].offset == NODE_SIZE - Total(Widths(Number(j)))
    ensures C_SIZES[j] == Width(Number(j))
  {
    hide Spots, Extent, Total, Widths;
    var slots := CFields();
    Successive(slots);
    hide CFields, Remaining, Follows;
    WidthsTotal(Number(j));
    if j > 0 {
      FieldOffset(j - 1);
      WidthsTotal(Number(j - 1));
      FieldUnit(j - 1);
      NextField(j, Spots(START, slots)[j - 1], Spots(START, slots)[j]);
    }
  }

  lemma NextField(j: nat, p: Spot, q: Spot)
    requires 0 < j < FIELDS - 1 && Follows(CFields()[j - 1], p, CFields()[j], q)
    requires p.offset == 56 - Remaining(Number(j - 1)) && p.unit == C_SIZES[j - 1]
    ensures q.offset == 56 - Remaining(Number(j))
  {
    OnlyMultiple(q.offset, p.offset + p.unit, 56 - Remaining(Number(j)), C_SIZES[j]);
  }

  lemma FieldUnit(j: nat)
    requires j < FIELDS - 1
    ensures Spots(START, CFields())[j].unit == C_SIZES[j]
  {
    LayoutMeaning(CFields());
  }

  lemma OnlyMultiple(m: nat, x: nat, v: int, a: nat)
    requires a in {2, 4} && LeastFrom(m, x, a) && x <= v < x + a && v % a == 0
    ensures m == v
  {
    assert LeastFrom(m, x, a) ==> m <= v;
  }

  lemma NodeLayout()
    ensures RecordSize(CFields()) == NODE_SIZE
  {
    hide Spots, Extent, Total, Widths, MaxAlign, RecordSize;
    var slots := CFields();
    Successive(slots);
    SizeMeaning(slots);
    MaxAlignBounds(slots);
    FieldOffset(FIELDS - 2);
    FieldUnit(FIELDS - 2);
    WidthsTotal(FIELDS - 1);
    assert slots[2].align == 4;
    assert MaxAlign(slots) == 4;
    OnlyMultiple(RecordSize(slots), Extent(slots), 56, 4);
  }

  lemma Limits()
    ensures Pow256(2) == 0x1_0000 && Pow256(4) == 0x1_0000_0000
  {
    assert Pow256(1) == 256;
    assert Pow256(3) == 256 * Pow256(2);
  }

  lemma FieldLimit(vs: seq<nat>, i: nat)
    requires Fits(vs, Widths(0)) && i < FIELDS
    ensures |vs| == FIELDS && vs[i] < if Width(i) == 2 then 0x1_0000 else 0x1_0000_0000
  {
    Limits();
    hide Pow256;
    assert Widths(0)[i] == Width(i);
  }

  lemma ValuesFit(n: CAstNode)
    ensures Fits(Values(n), Widths(0))
  {
    Limits();
    hide Pow256, Widths;
    var vs := Values(n);
    forall i | 0 <= i < FIELDS ensures vs[i] < Pow256(Width(i)) {
    }
  }

  function Values(n: CAstNode): (vs: seq<nat>)
    ensures |vs| == 16
  {
    [n.kind, n.flags, n.parent, n.firstChild, n.lastChild, n.nextSibling, n.prevSibling, n.childCount, 0, n.data,
     n.source.fileId, n.source.line, n.source.column, n.source.length, n.payloadOffset, n.payloadLen]
  }

  function Word(vs: seq<nat>, i: nat): U32
    requires Fits(vs, Widths(0)) && i < FIELDS
  {
    FieldLimit(vs, i);
    vs[i]
  }

  function HalfWord(vs: seq<nat>, i: nat): U16
    requires Fits(vs, Widths(0)) && i < FIELDS && Width(i) == 2
  {
    FieldLimit(vs, i);
    vs[i]
  }

  function FromValues(vs: seq<nat>): CAstNode
    requires Fits(vs, Widths(0))
  {
    CAstNode(HalfWord(vs, 0), HalfWord(vs, 1), Word(vs, 2), Word(vs, 3), Word(vs, 4), Word(vs, 5), Word(vs, 6),
             HalfWord(vs, 7), Word(vs, 9), SourceLocation(Word(vs, 10), Word(vs, 11), Word(vs, 12), Word(vs, 13)),
             Word(vs, 14), Word(vs, 15))
  }

  function Encode(n: CAstNode): (b: Bytes)
    ensures |b| == NODE_SIZE
  {
    NodeSize();
    Pack(Values(n), Widths(0))
  }

  function Decode(b: Bytes): CAstNode
    requires |b| == NODE_SIZE
  {
    NodeSize();
    FromValues(Unpack(b, Widths(0)))
  }

  /** A node written out reads back. */
  lemma DecodeEncode(n: CAstNode)
    ensures Decode(Encode(n)) == n
  {
    hide Pack, Unpack, Widths, Fits;
    ValuesFit(n);
    NodeSize();
    UnpackPack(Values(n), Widths(0));
    assert FromValues(Values(n)) == n;
  }
}
