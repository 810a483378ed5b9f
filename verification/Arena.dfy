/** The arena: one mapped stretch of bytes, syntax tree nodes bumped up from its start and length-prefixed
    blocks of bytes bumped up from behind them. */
module Arena {
  import opened Options
  import opened NodeBytes

  /** The four bytes of a block's length, then the block. */
  const PREFIX: nat := 4

  const U32_LIMIT: nat := 0x1_0000_0000

  function Slots(len: nat): nat { (PREFIX + len + NODE_SIZE - 1) / NODE_SIZE }

  function Block(data: Bytes): (b: Bytes)
    ensures |b| == PREFIX + |data|
  {
    Little(|data|, PREFIX) + data
  }

  lemma BlockReadBack(data: Bytes)
    requires |data| < U32_LIMIT
    ensures FromLittle(Block(data)[..PREFIX]) == |data| && Block(data)[PREFIX..] == data
  {
    Limits();
    LittleReadBack(|data|, PREFIX);
    assert Block(data)[..PREFIX] == Little(|data|, PREFIX);
  }

  lemma SlotsHold(len: nat)
    ensures PREFIX + len <= Slots(len) * NODE_SIZE < PREFIX + len + NODE_SIZE
  {
  }

  // ---- stretches of bytes ----

  function Stretch(mem: Bytes, at: nat, n: nat): (s: Bytes)
    requires at + n <= |mem|
    ensures |s| == n
  {
    mem[at..at + n]
  }

  function Splice(mem: Bytes, at: nat, data: Bytes): (r: Bytes)
    requires at + |data| <= |mem|
    ensures |r| == |mem|
  {
    mem[..at] + data + mem[at + |data|..]
  }

  lemma SpliceReadBack(mem: Bytes, at: nat, data: Bytes)
    requires at + |data| <= |mem|
    ensures Stretch(Splice(mem, at, data), at, |data|) == data
  {
  }

  lemma SpliceApart(mem: Bytes, at: nat, data: Bytes, at': nat, n: nat)
    requires at + |data| <= |mem| && at' + n <= |mem| && (at' + n <= at || at + |data| <= at')
    ensures Stretch(Splice(mem, at, data), at', n) == Stretch(mem, at', n)
  {
  }

  /** Node i of the list lies in slot i; slot 0 holds none. */
  ghost predicate NodesHeld(mem: Bytes, nodes: seq<CAstNode>) {
    && |nodes| * NODE_SIZE <= |mem|
    && forall i :: 0 < i < |nodes| ==> NodeAt(mem, i, nodes[i])
  }

  ghost predicate NodeAt(mem: Bytes, i: nat, n: CAstNode) {
    (i + 1) * NODE_SIZE <= |mem| && Decode(Stretch(mem, i * NODE_SIZE, NODE_SIZE)) == n
  }

  /** Each block lies whole at its slot, between start and the first free slot. */
  ghost predicate BlocksHeld(mem: Bytes, start: nat, free: nat, blocks: map<nat, Bytes>) {
    forall off :: off in blocks ==> start <= off && BlockAt(mem, off, free, blocks[off])
  }

  ghost predicate BlockAt(mem: Bytes, off: nat, free: nat, data: Bytes) {
    && data != [] && |data| < U32_LIMIT
    && off + Slots(|data|) <= free && off * NODE_SIZE + PREFIX + |data| <= |mem|
    && Stretch(mem, off * NODE_SIZE, PREFIX + |data|) == Block(data)
  }

  lemma WriteNodeHeld(mem: Bytes, nodes: seq<CAstNode>, i: nat, n: CAstNode, nodes': seq<CAstNode>)
    requires NodesHeld(mem, nodes) && 0 < i <= |nodes| && (i + 1) * NODE_SIZE <= |mem|
    requires nodes' == if i == |nodes| then nodes + [n] else nodes[i := n]
    ensures NodesHeld(Splice(mem, i * NODE_SIZE, Encode(n)), nodes')
  {
    hide Decode, Encode, Splice, Stretch;
    var at, data := i * NODE_SIZE, Encode(n);
    forall j | 0 < j < |nodes'| ensures NodeAt(Splice(mem, at, data), j, nodes'[j]) {
      if j == i {
        SpliceReadBack(mem, at, data);
        DecodeEncode(n);
      } else {
        assert NodeAt(mem, j, nodes[j]);
        SpliceApart(mem, at, data, j * NODE_SIZE, NODE_SIZE);
      }
    }
  }

  lemma WriteNodeKeepsBlocks(mem: Bytes, i: nat, n: CAstNode, start: nat, free: nat, blocks: map<nat, Bytes>)
    requires BlocksHeld(mem, start, free, blocks) && i < start && (i + 1) * NODE_SIZE <= |mem|
    ensures BlocksHeld(Splice(mem, i * NODE_SIZE, Encode(n)), start, free, blocks)
  {
    hide Encode, Splice, Stretch, Block, Slots;
    forall off | off in blocks ensures BlockAt(Splice(mem, i * NODE_SIZE, Encode(n)), off, free, blocks[off]) {
      assert BlockAt(mem, off, free, blocks[off]);
      SpliceApart(mem, i * NODE_SIZE, Encode(n), off * NODE_SIZE, PREFIX + |blocks[off]|);
    }
  }

  lemma WriteBlockKeepsNodes(mem: Bytes, nodes: seq<CAstNode>, off: nat, data: Bytes)
    requires NodesHeld(mem, nodes) && |nodes| <= off && off * NODE_SIZE + PREFIX + |data| <= |mem|
    ensures NodesHeld(Splice(mem, off * NODE_SIZE, Block(data)), nodes)
  {
    hide Decode, Splice, Stretch, Block;
    forall i | 0 < i < |nodes| ensures NodeAt(Splice(mem, off * NODE_SIZE, Block(data)), i, nodes[i]) {
      assert NodeAt(mem, i, nodes[i]);
      SpliceApart(mem, off * NODE_SIZE, Block(data), i * NODE_SIZE, NODE_SIZE);
    }
  }

  lemma WriteBlockHeld(mem: Bytes, start: nat, off: nat, data: Bytes, blocks: map<nat, Bytes>)
    requires BlocksHeld(mem, start, off, blocks) && start <= off && data != [] && |data| < U32_LIMIT
    requires off * NODE_SIZE + PREFIX + |data| <= |mem|
    ensures off !in blocks
    ensures BlocksHeld(Splice(mem, off * NODE_SIZE, Block(data)), start, off + Slots(|data|), blocks[off := data])
  {
    hide Splice, Stretch, Block;
    var mem' := Splice(mem, off * NODE_SIZE, Block(data));
    forall o | o in blocks ensures o < off && BlockAt(mem', o, off + Slots(|data|), blocks[o]) {
      assert BlockAt(mem, o, off, blocks[o]);
      SlotsHold(|blocks[o]|);
      SpliceApart(mem, off * NODE_SIZE, Block(data), o * NODE_SIZE, PREFIX + |blocks[o]|);
    }
    SpliceReadBack(mem, off * NODE_SIZE, Block(data));
  }

  lemma BlockReads(mem: Bytes, off: nat, free: nat, data: Bytes)
    requires BlockAt(mem, off, free, data)
    ensures FromLittle(mem[off * NODE_SIZE..off * NODE_SIZE + PREFIX]) == |data|
    ensures mem[off * NODE_SIZE + PREFIX..off * NODE_SIZE + PREFIX + |data|] == data
  {
    hide Slots;
    BlockReadBack(data);
    var at := off * NODE_SIZE;
    var s := Stretch(mem, at, PREFIX + |data|);
    assert s[..PREFIX] == mem[at..at + PREFIX];
    assert s[PREFIX..] == mem[at + PREFIX..at + PREFIX + |data|];
  }

  // ---- the slot that is missing ----

  /** Blocks start one slot behind the nodes, but the mapping has no slot for that: of the accepted blocks,
      exactly those that leave a slot unused stay inside it. */
  lemma MissingSlot(nodeCapacity: nat, stringAllocated: nat, len: nat)
    requires stringAllocated + Slots(len) <= nodeCapacity / 4
    ensures (nodeCapacity + 1 + stringAllocated) * NODE_SIZE + PREFIX + len
         <= (nodeCapacity + nodeCapacity / 4) * NODE_SIZE
       <==> stringAllocated + Slots(len) < nodeCapacity / 4
  {
    SlotsHold(len);
    var total, used := nodeCapacity / 4, stringAllocated + Slots(len);
    assert (nodeCapacity + 1 + stringAllocated) * NODE_SIZE + Slots(len) * NODE_SIZE ==
           (nodeCapacity + 1 + used) * NODE_SIZE;
  }

  class Arena {
    const mmap: array<Byte>
    const nodeCapacity: nat
    const stringStart: nat
    const stringCapacity: nat
    var nodeAllocated: nat
    var stringAllocated: nat

    /** What the arena holds: nodes by offset, entry 0 meaning nothing, and blocks by offset. */
    ghost var nodes: seq<CAstNode>
    ghost var blocks: map<nat, Bytes>

    ghost predicate Valid()
      reads this, mmap
    {
      && nodeCapacity > 0 && stringCapacity == nodeCapacity / 4 && stringStart == nodeCapacity + 1
      && mmap.Length == (nodeCapacity + stringCapacity) * NODE_SIZE
      && nodeAllocated == |nodes| && 1 <= nodeAllocated <= nodeCapacity
      && stringAllocated <= stringCapacity
      && NodesHeld(mmap[..], nodes)
      && BlocksHeld(mmap[..], stringStart, stringStart + stringAllocated, blocks)
    }

    constructor (capacity: nat)
      requires capacity > 0 && capacity + 1 + capacity / 4 < U32_LIMIT
      ensures Valid() && fresh(mmap) && |nodes| == 1 && blocks == map[]
      ensures nodeCapacity == capacity && stringAllocated == 0
    {
      nodeCapacity, stringCapacity, stringStart := capacity, capacity / 4, capacity + 1;
      nodeAllocated, stringAllocated := 1, 0;
      mmap := new Byte[(capacity + capacity / 4) * NODE_SIZE](_ => 0);
      var none: CAstNode := CAstNode(0, 0, 0, 0, 0, 0, 0, 0, 0, SourceLocation(0, 0, 0, 0), 0, 0);
      nodes, blocks := [none], map[];
    }

    static method Create(capacity: nat) returns (arena: Option<Arena>)
      requires capacity + 1 + capacity / 4 < U32_LIMIT
      ensures arena.None? <==> capacity == 0
      ensures arena.Some? ==> fresh(arena.value) && fresh(arena.value.mmap) && arena.value.Valid()
      ensures arena.Some? ==>
                |arena.value.nodes| == 1 && arena.value.blocks == map[] && arena.value.nodeCapacity == capacity
    {
      if capacity == 0 { return None; }
      var a := new Arena(capacity);
      arena := Some(a);
    }

    /** Copy the bytes into the mapping. */
    method WriteBytes(at: nat, data: Bytes)
      requires at + |data| <= mmap.Length
      modifies mmap
      ensures mmap[..] == Splice(old(mmap[..]), at, data)
    {
      ghost var before := mmap[..];
      var i: nat := 0;
      while i < |data|
        invariant i <= |data|
        invariant mmap[..] == Splice(before, at, data[..i])
      {
        mmap[at + i] := data[i];
        SpliceMore(before, at, data, i);
        i := i + 1;
      }
      assert data[..i] == data;
    }

    method Alloc(node: CAstNode) returns (offset: Option<nat>)
      requires Valid()
      modifies this, mmap
      ensures Valid() && blocks == old(blocks) && stringAllocated == old(stringAllocated)
      ensures offset == if old(|nodes|) < nodeCapacity then Some(old(|nodes|)) else None
      ensures nodes == if offset.Some? then old(nodes) + [node] else old(nodes)
    {
      if nodeAllocated >= nodeCapacity { return None; }
      offset := Some(nodeAllocated);
      PutNode(nodeAllocated, node, nodes + [node]);
      nodeAllocated := nodeAllocated + 1;
    }

    /** Write one node's slot; nodes is what the arena is to hold afterwards. */
    method PutNode(i: nat, node: CAstNode, ghost after: seq<CAstNode>)
      requires Valid() && 0 < i <= |nodes| && i < nodeCapacity
      requires after == if i == |nodes| then nodes + [node] else nodes[i := node]
      modifies this`nodes, mmap
      ensures nodes == after && NodesHeld(mmap[..], nodes)
      ensures BlocksHeld(mmap[..], stringStart, stringStart + stringAllocated, blocks)
    {
      hide NodesHeld, BlocksHeld, Splice, Encode;
      ghost var before := mmap[..];
      WriteBytes(i * NODE_SIZE, Encode(node));
      WriteNodeHeld(before, nodes, i, node, after);
      WriteNodeKeepsBlocks(before, i, node, stringStart, stringStart + stringAllocated, blocks);
      nodes := after;
    }

    function Get(offset: nat): (node: Option<CAstNode>)
      requires Valid()
      reads this, mmap
      ensures node == if 0 < offset < |nodes| then Some(nodes[offset]) else None
    {
      if offset == 0 || offset >= nodeAllocated then None
      else
        assert NodeAt(mmap[..], offset, nodes[offset]);
        Some(Decode(mmap[offset * NODE_SIZE..offset * NODE_SIZE + NODE_SIZE]))
    }

    /** A write through the reference that get_mut hands out; without a node there is none. */
    method Update(offset: nat, node: CAstNode) returns (found: bool)
      requires Valid()
      modifies this, mmap
      ensures Valid() && blocks == old(blocks) && stringAllocated == old(stringAllocated)
      ensures found <==> 0 < offset < |old(nodes)|
      ensures nodes == if found then old(nodes)[offset := node] else old(nodes)
    {
      found := !(offset == 0 || offset >= nodeAllocated);
      if found {
        PutNode(offset, node, nodes[offset := node]);
      }
    }

    /** A block that the string pool accepts must leave a slot unused. */
    ghost predicate LeavesASlot(len: nat)
      reads this
    {
      stringAllocated + Slots(len) <= stringCapacity ==> stringAllocated + Slots(len) < stringCapacity
    }

    method StoreBlock(data: Bytes) returns (offset: Option<nat>)
      requires Valid() && data != [] && LeavesASlot(|data|) && PREFIX + |data| + NODE_SIZE <= U32_LIMIT
      modifies this, mmap
      ensures Valid() && nodes == old(nodes)
      ensures offset.None? <==> old(stringAllocated) + Slots(|data|) > stringCapacity
      ensures offset.None? ==> blocks == old(blocks) && stringAllocated == old(stringAllocated)
      ensures offset.Some? ==>
                offset.value != 0 && offset.value !in old(blocks) && blocks == old(blocks)[offset.value := data]
      ensures offset.Some? ==> stringAllocated == old(stringAllocated) + Slots(|data|)
    {
      hide NodesHeld, BlocksHeld, Splice, Block;
      var slotsNeeded := Slots(|data|);
      if stringAllocated + slotsNeeded > stringCapacity { return None; }
      MissingSlot(nodeCapacity, stringAllocated, |data|);
      var slot := stringStart + stringAllocated;
      ghost var before := mmap[..];
      stringAllocated := stringAllocated + slotsNeeded;
      WriteBytes(slot * NODE_SIZE, Block(data));
      WriteBlockKeepsNodes(before, nodes, slot, data);
      WriteBlockHeld(before, stringStart, slot, data, blocks);
      blocks := blocks[slot := data];
      offset := Some(slot);
    }

    method StoreString(s: Bytes) returns (offset: Option<nat>)
      requires Valid() && (s != [] ==> LeavesASlot(|s|) && PREFIX + |s| + NODE_SIZE <= U32_LIMIT)
      modifies this, mmap
      ensures Valid() && nodes == old(nodes)
      ensures s == [] ==> offset == Some(0) && blocks == old(blocks)
      ensures s != [] ==> (offset.None? <==> old(stringAllocated) + Slots(|s|) > stringCapacity)
      ensures offset.None? ==> blocks == old(blocks)
      ensures s != [] && offset.Some? ==>
        offset.value != 0 && offset.value !in old(blocks) && blocks == old(blocks)[offset.value := s]
    {
      if s == [] { return Some(0); }
      offset := StoreBlock(s);
    }

    method StorePayload(data: Bytes) returns (r: Option<(nat, nat)>)
      requires Valid() && (data != [] ==> LeavesASlot(|data|) && PREFIX + |data| + NODE_SIZE <= U32_LIMIT)
      modifies this, mmap
      ensures Valid() && nodes == old(nodes)
      ensures data == [] ==> r == Some((0, 0)) && blocks == old(blocks)
      ensures data != [] ==> (r.None? <==> old(stringAllocated) + Slots(|data|) > stringCapacity)
      ensures r.None? ==> blocks == old(blocks)
      ensures data != [] && r.Some? ==>
        r.value.0 != 0 && r.value.0 !in old(blocks) && r.value.1 == |data| && blocks == old(blocks)[r.value.0 := data]
    {
      if data == [] { return Some((0, 0)); }
      var offset := StoreBlock(data);
      r := match offset case Some(off) => Some((off, |data|)) case None => None;
    }

    predicate InStringPool(offset: nat)
      reads this
    {
      stringStart <= offset < stringStart + stringAllocated
    }

    /** Only the offsets that a store returned may be looked up inside the pool. */
    ghost predicate Issued(offset: nat)
      reads this
    {
      InStringPool(offset) ==> offset in blocks
    }

    function GetString(offset: nat): (s: Option<Bytes>)
      requires Valid() && Issued(offset)
      reads this, mmap
      ensures s == if offset == 0 then Some([]) else if offset in blocks then Some(blocks[offset]) else None
    {
      IssuedInPool(offset);
      if offset == 0 then Some([])
      else if offset < stringStart || offset >= stringStart + stringAllocated then None
      else
        BlockBounds(offset);
        var at := offset * NODE_SIZE;
        var len := FromLittle(mmap[at..at + PREFIX]);
        Some(mmap[at + PREFIX..at + PREFIX + len])
    }

    function GetPayload(offset: nat, len: nat): (s: Option<Bytes>)
      requires Valid() && Issued(offset)
      reads this, mmap
      ensures s == if offset == 0 then Some([])
                   else if offset in blocks && |blocks[offset]| == len then Some(blocks[offset]) else None
    {
      IssuedInPool(offset);
      if offset == 0 then Some([])
      else if offset < stringStart || offset >= stringStart + stringAllocated then None
      else
        BlockBounds(offset);
        var at := offset * NODE_SIZE;
        var stored := FromLittle(mmap[at..at + PREFIX]);
        if stored != len then None else Some(mmap[at + PREFIX..at + PREFIX + len])
    }

    lemma IssuedInPool(offset: nat)
      requires Valid()
      ensures offset in blocks ==> InStringPool(offset)
    {
      if offset in blocks {
        assert BlockAt(mmap[..], offset, stringStart + stringAllocated, blocks[offset]);
        SlotsHold(|blocks[offset]|);
      }
    }

    lemma BlockBounds(offset: nat)
      requires Valid() && offset in blocks
      ensures offset * NODE_SIZE + PREFIX + |blocks[offset]| <= mmap.Length
      ensures FromLittle(mmap[offset * NODE_SIZE..offset * NODE_SIZE + PREFIX]) == |blocks[offset]|
      ensures mmap[offset * NODE_SIZE + PREFIX..offset * NODE_SIZE + PREFIX + |blocks[offset]|] == blocks[offset]
    {
      hide NodesHeld, Block, Stretch, Slots;
      assert BlockAt(mmap[..], offset, stringStart + stringAllocated, blocks[offset]);
      BlockReads(mmap[..], offset, stringStart + stringAllocated, blocks[offset]);
      ghost var at := offset * NODE_SIZE;
      assert mmap[..][at..at + PREFIX] == mmap[at..at + PREFIX];
      assert mmap[..][at + PREFIX..at + PREFIX + |blocks[offset]|] == mmap[at + PREFIX..at + PREFIX + |blocks[offset]|];
    }

    /** No offset is both a node's and a block's. */
    lemma OffsetsApart(offset: nat)
      requires Valid() && Issued(offset) && offset != 0
      ensures Get(offset).None? || (GetString(offset).None? && forall len :: GetPayload(offset, len).None?)
    {
      IssuedInPool(offset);
    }
  }

  lemma SpliceMore(mem: Bytes, at: nat, data: Bytes, i: nat)
    requires i < |data| && at + |data| <= |mem|
    ensures Splice(mem, at, data[..i])[at + i := data[i]] == Splice(mem, at, data[..i + 1])
  {
  }
}
