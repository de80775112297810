/**
 * `ComponentStorage`: a bump allocator over a list of 4096-byte blocks. A slot is the
 * owner pointer (8 bytes) followed by the payload, and slots are laid out back to back
 * with stride `size_ = sizeof(T) + sizeof(void*)`.
 *
 * The model keeps the byte arithmetic (stride, `block_offset_`, `kBlockSize`) and, per
 * block, the owners of the slots written so far. Payloads are not stored: a payload is
 * identified by its address, a block index and a byte offset inside the block.
 */
module Storage {
  import opened Options

  /** kBlockSize */
  const BlockSize: nat := 4096
  /** sizeof(void*) */
  const PointerSize: nat := 8
  /** size_t arithmetic wraps modulo 2^64. */
  const SizeMax: nat := 0x1_0000_0000_0000_0000

  /** A component type's identity (`typeid(T)`). */
  type TypeKey = int
  /** An object's identity; in the scene it is the object's index in `objects_`. */
  type ObjectId = nat

  /** What `Init<T>` learns about T: its identity, `sizeof(T)`, and which member functions it has. */
  datatype ComponentType = ComponentType(key: TypeKey, payloadSize: nat, hasUpdate: bool, hasShowUi: bool)

  /** Every C++ type has a nonzero size; a slot must fit in one block. */
  predicate Storable(t: ComponentType) {
    1 <= t.payloadSize && t.payloadSize + PointerSize <= BlockSize
  }

  /** A payload address: block index in the list and byte offset inside the block. */
  datatype Address = Address(block: nat, offset: nat)

  /** A written slot: the owner stored at the slot start and the payload's address. */
  datatype Slot = Slot(owner: ObjectId, payload: Address)

  /**
   * What a traversal hands to its callback: the owner read from the slot start and the
   * payload address. A position past the written slots holds zero bytes (blocks are
   * value-initialised by `emplace_back()`), so its owner reads as a null pointer: None.
   */
  datatype Visit = Visit(owner: Option<ObjectId>, payload: Address)

  /** A block holding n slots of the given stride has no room for another. */
  predicate Full(n: nat, stride: nat) {
    n * stride <= BlockSize < n * stride + stride
  }

  /** The written slots of block b, the j-th at byte offset j * stride. */
  function BlockSlots(b: nat, owners: seq<ObjectId>, stride: nat): (r: seq<Slot>)
    ensures |r| == |owners|
    ensures forall j | 0 <= j < |owners| :: r[j] == Slot(owners[j], Address(b, j * stride + PointerSize))
  {
    seq(|owners|, j requires 0 <= j < |owners| => Slot(owners[j], Address(b, j * stride + PointerSize)))
  }

  /** All written slots, block by block in list order. */
  function AllSlots(blocks: seq<seq<ObjectId>>, stride: nat): seq<Slot> {
    if blocks == [] then []
    else AllSlots(blocks[..|blocks| - 1], stride) + BlockSlots(|blocks| - 1, blocks[|blocks| - 1], stride)
  }

  /** The visits a correct traversal makes: every written slot, owner included. */
  function Visits(slots: seq<Slot>): (r: seq<Visit>)
    ensures |r| == |slots|
    ensures forall i | 0 <= i < |slots| :: r[i] == Visit(Some(slots[i].owner), slots[i].payload)
  {
    seq(|slots|, i requires 0 <= i < |slots| => Visit(Some(slots[i].owner), slots[i].payload))
  }

  function Payloads(visits: seq<Visit>): (r: seq<Address>)
    ensures |r| == |visits|
    ensures forall i | 0 <= i < |visits| :: r[i] == visits[i].payload
  {
    seq(|visits|, i requires 0 <= i < |visits| => visits[i].payload)
  }

  function OwnerAt(owners: seq<ObjectId>, j: nat): Option<ObjectId> {
    if j < |owners| then Some(owners[j]) else None
  }

  /**
   * The inner loop `for (i = offset; i < bound; i += size_)` over block b, j counting the
   * slot positions passed: one visit per position, with the payload at i + sizeof(void*).
   */
  function Walk(b: nat, owners: seq<ObjectId>, j: nat, offset: nat, bound: nat, stride: nat): seq<Visit>
    requires stride > 0
    decreases if offset < bound then bound - offset else 0
  {
    if bound <= offset then []
    else [Visit(OwnerAt(owners, j), Address(b, offset + PointerSize))] + Walk(b, owners, j + 1, offset + stride, bound, stride)
  }

  /** The inner loop over every block of bs, each bounded by `bound`. */
  function WalkFull(bs: seq<seq<ObjectId>>, stride: nat, bound: nat): seq<Visit>
    requires stride > 0
  {
    if bs == [] then []
    else WalkFull(bs[..|bs| - 1], stride, bound) + Walk(|bs| - 1, bs[|bs| - 1], 0, 0, bound, stride)
  }

  /** The outer loop: every block but the last bounded by `fullBound`, the last by `lastBound`. */
  function Traversal(blocks: seq<seq<ObjectId>>, stride: nat, lastBound: nat, fullBound: nat): seq<Visit>
    requires stride > 0 && |blocks| >= 1
  {
    WalkFull(blocks[..|blocks| - 1], stride, fullBound) + Walk(|blocks| - 1, blocks[|blocks| - 1], 0, 0, lastBound, stride)
  }

  /** The destructor's order: the last block first, then the others in list order. */
  function DestroyOrder(blocks: seq<seq<ObjectId>>, stride: nat, lastBound: nat, fullBound: nat): seq<Visit>
    requires stride > 0 && |blocks| >= 1
  {
    Walk(|blocks| - 1, blocks[|blocks| - 1], 0, 0, lastBound, stride) + WalkFull(blocks[..|blocks| - 1], stride, fullBound)
  }

  /** The storage's state invariant, on the values of its fields. */
  predicate WellFormed(blocks: seq<seq<ObjectId>>, blockOffset: nat, stride: nat) {
    PointerSize < stride <= BlockSize
    && blockOffset <= BlockSize
    && (blocks == [] ==> blockOffset == BlockSize)
    && (blocks != [] ==> |blocks[|blocks| - 1]| >= 1 && blockOffset == |blocks[|blocks| - 1]| * stride)
    && forall b | 0 <= b < |blocks| - 1 :: Full(|blocks[b]|, stride)
  }

  /** `Count` as written: it divides by `size_ + sizeof(void*)`, with size_t wrap-around. */
  function CountAsWritten(blockOffset: nat, blockCount: nat, stride: nat): nat {
    var divisor := stride + PointerSize;
    var fullBlocks := if blockCount == 0 then SizeMax - 1 else blockCount - 1;
    (blockOffset / divisor + (fullBlocks * BlockSize) % SizeMax / divisor) % SizeMax
  }

  // ----- arithmetic -----

  lemma DivUnique(n: nat, s: nat, a: nat)
    requires s > 0 && n * s <= a < n * s + s
    ensures a / s == n
  {
    var q := a / s;
    assert q * s <= a < q * s + s;
    if q < n {
      MulStrict(q, n, s);
    } else if q > n {
      MulStrict(n, q, s);
    }
  }

  lemma MulStrict(j: nat, n: nat, s: nat)
    requires j < n && s > 0
    ensures j * s + s <= n * s
  {
    assert (j + 1) * s <= n * s;
  }

  // ----- traversals against the written slots -----

  /**
   * Walking one block from slot j up to a bound that lies between the end of the written
   * slots and one stride past it visits the remaining written slots and, when the bound
   * is beyond their end, exactly one more position whose owner reads as null.
   */
  lemma {:induction false} WalkBounded(b: nat, owners: seq<ObjectId>, j: nat, s: nat, bound: nat)
    requires s > 0 && j <= |owners|
    requires |owners| * s <= bound <= |owners| * s + s
    ensures Walk(b, owners, j, j * s, bound, s)
         == Visits(BlockSlots(b, owners, s)[j..])
            + (if |owners| * s < bound then [Visit(None, Address(b, |owners| * s + PointerSize))] else [])
  {
    WalkFrom(b, owners, j, j * s, |owners| * s, s, bound);
  }

  /** WalkBounded with the byte offsets j * s and |owners| * s named, so that the induction is linear. */
  lemma {:induction false} WalkFrom(b: nat, owners: seq<ObjectId>, j: nat, offset: nat, end: nat, s: nat, bound: nat)
    requires s > 0 && j <= |owners|
    requires offset == j * s && end == |owners| * s
    requires end <= bound <= end + s
    decreases |owners| - j
    ensures Walk(b, owners, j, offset, bound, s)
         == Visits(BlockSlots(b, owners, s)[j..])
            + (if end < bound then [Visit(None, Address(b, end + PointerSize))] else [])
  {
    var slots := BlockSlots(b, owners, s);
    if j == |owners| {
      assert slots[j..] == [];
      if end < bound {
        assert Walk(b, owners, j + 1, offset + s, bound, s) == [];
      }
    } else {
      MulStrict(j, |owners|, s);
      MulStep(j, s);
      WalkFrom(b, owners, j + 1, offset + s, end, s, bound);
      VisitsCons(slots, j);
    }
  }

  lemma VisitsCons(slots: seq<Slot>, j: nat)
    requires j < |slots|
    ensures Visits(slots[j..]) == [Visit(Some(slots[j].owner), slots[j].payload)] + Visits(slots[j + 1..])
  {
    assert slots[j..] == [slots[j]] + slots[j + 1..];
  }

  lemma MulStep(j: nat, s: nat)
    ensures (j + 1) * s == j * s + s
  {
  }

  /** A block bounded at exactly its written extent yields exactly its slots. */
  lemma WalkExact(b: nat, owners: seq<ObjectId>, s: nat)
    requires s > 0
    ensures Walk(b, owners, 0, 0, |owners| * s, s) == Visits(BlockSlots(b, owners, s))
  {
    WalkBounded(b, owners, 0, s, |owners| * s);
    assert BlockSlots(b, owners, s)[0..] == BlockSlots(b, owners, s);
  }

  lemma VisitsAppend(x: seq<Slot>, y: seq<Slot>)
    ensures Visits(x + y) == Visits(x) + Visits(y)
  {
  }

  /** Full blocks bounded by the largest multiple of the stride in a block yield exactly their slots. */
  lemma {:induction false} WalkFullExact(bs: seq<seq<ObjectId>>, s: nat)
    requires s > 0
    requires forall i | 0 <= i < |bs| :: Full(|bs[i]|, s)
    ensures WalkFull(bs, s, BlockSize / s * s) == Visits(AllSlots(bs, s))
  {
    if bs != [] {
      var n := |bs[|bs| - 1]|;
      WalkFullExact(bs[..|bs| - 1], s);
      DivUnique(n, s, BlockSize);
      WalkExact(|bs| - 1, bs[|bs| - 1], s);
      VisitsAppend(AllSlots(bs[..|bs| - 1], s), BlockSlots(|bs| - 1, bs[|bs| - 1], s));
    }
  }

  /** The corrected traversal of a well-formed storage visits every written slot once, in order. */
  lemma TraversalExact(blocks: seq<seq<ObjectId>>, blockOffset: nat, s: nat)
    requires WellFormed(blocks, blockOffset, s) && |blocks| >= 1
    ensures Traversal(blocks, s, blockOffset, BlockSize / s * s) == Visits(AllSlots(blocks, s))
  {
    var prefix := blocks[..|blocks| - 1];
    WalkFullExact(prefix, s);
    WalkExact(|blocks| - 1, blocks[|blocks| - 1], s);
    VisitsAppend(AllSlots(prefix, s), BlockSlots(|blocks| - 1, blocks[|blocks| - 1], s));
  }

  /**
   * As written, a full block is walked up to kBlockSize. When the stride divides 4096 that
   * is exactly its slots; otherwise the walk also reaches one phantom position past the
   * last slot, reads a null owner there, and hands on a payload address whose payload
   * would extend past the end of the block.
   */
  lemma AsWrittenFullBlock(b: nat, owners: seq<ObjectId>, s: nat)
    requires s > PointerSize && Full(|owners|, s)
    ensures BlockSize % s == 0 ==> Walk(b, owners, 0, 0, BlockSize, s) == Visits(BlockSlots(b, owners, s))
    ensures BlockSize % s != 0 ==>
      Walk(b, owners, 0, 0, BlockSize, s)
        == Visits(BlockSlots(b, owners, s)) + [Visit(None, Address(b, |owners| * s + PointerSize))]
      && |owners| * s + PointerSize + (s - PointerSize) > BlockSize
  {
    DivUnique(|owners|, s, BlockSize);
    WalkBounded(b, owners, 0, s, BlockSize);
    assert BlockSlots(b, owners, s)[0..] == BlockSlots(b, owners, s);
  }

  /** A block of 170 slots of stride 24 (a 16-byte payload: a shared_ptr) followed by one more slot. */
  function PhantomExample(): seq<seq<ObjectId>> {
    [seq(170, i => 0), [1]]
  }

  /**
   * For that storage the as-written traversal hands the callback a null owner and the
   * payload address 4088, whose 16 bytes run to byte 4104 of a 4096-byte block.
   */
  lemma AsWrittenVisitsPhantom()
    ensures WellFormed(PhantomExample(), 24, 24)
    ensures Visit(None, Address(0, 4088)) in Traversal(PhantomExample(), 24, 24, BlockSize)
    ensures Visit(None, Address(0, 4088)) !in Visits(AllSlots(PhantomExample(), 24))
  {
    var blocks := PhantomExample();
    assert Full(|blocks[0]|, 24);
    AsWrittenFullBlock(0, blocks[0], 24);
    assert blocks[..1] == [blocks[0]];
    var first: seq<seq<ObjectId>> := blocks[..1];
    assert first[..0] == [];
    assert WalkFull(first, 24, BlockSize) == Walk(0, blocks[0], 0, 0, BlockSize, 24);
    var v := Visits(BlockSlots(0, blocks[0], 24)) + [Visit(None, Address(0, 4088))];
    assert v[170] == Visit(None, Address(0, 4088));
    var all := Visits(AllSlots(blocks, 24));
    forall i | 0 <= i < |all| ensures all[i] != Visit(None, Address(0, 4088)) {
      assert all[i].owner.Some?;
    }
  }

  // ----- counting -----

  /** The number of written slots: every full block holds 4096 / stride of them. */
  lemma {:induction false} AllSlotsLength(bs: seq<seq<ObjectId>>, s: nat)
    requires s > 0
    requires forall i | 0 <= i < |bs| :: Full(|bs[i]|, s)
    ensures |AllSlots(bs, s)| == |bs| * (BlockSize / s)
  {
    if bs != [] {
      AllSlotsLength(bs[..|bs| - 1], s);
      DivUnique(|bs[|bs| - 1]|, s, BlockSize);
    }
  }

  /** The corrected count formula equals the number of written slots. */
  lemma CountFormula(blocks: seq<seq<ObjectId>>, blockOffset: nat, s: nat)
    requires WellFormed(blocks, blockOffset, s) && |blocks| >= 1
    ensures blockOffset / s + (|blocks| - 1) * (BlockSize / s) == |AllSlots(blocks, s)|
  {
    var n := |blocks[|blocks| - 1]|;
    AllSlotsLength(blocks[..|blocks| - 1], s);
    DivUnique(n, s, blockOffset);
  }

  /**
   * As written, one component of 8 bytes (stride 16) is counted as none: the offset 16
   * is divided by 24.
   */
  lemma CountAsWrittenUndercounts()
    ensures WellFormed([[0]], 16, 16)
    ensures |AllSlots([[0]], 16)| == 1
    ensures CountAsWritten(16, 1, 16) == 0
  {
    var blocks: seq<seq<ObjectId>> := [[0]];
    assert blocks[..0] == [];
    assert AllSlots(blocks, 16) == AllSlots([], 16) + BlockSlots(0, [0], 16);
  }

  /**
   * As written, 100 blocks each holding one component of stride 4000 are counted as 101:
   * 99 * 4096 / 4008 rounds up past the one slot each full block holds.
   */
  lemma CountAsWrittenOvercounts()
    ensures WellFormed(seq(100, i => [0]), 4000, 4000)
    ensures |AllSlots(seq(100, i => [0]), 4000)| == 100
    ensures CountAsWritten(4000, 100, 4000) == 101
  {
    var blocks: seq<seq<ObjectId>> := seq(100, i => [0]);
    assert forall b | 0 <= b < |blocks| - 1 :: Full(|blocks[b]|, 4000);
    CountFormula(blocks, 4000, 4000);
  }

  /** Within one block, the as-written count is below the number of slots whenever there is one. */
  lemma CountAsWrittenSingleBlock(n: nat, s: nat)
    requires 1 <= n && PointerSize < s && n * s <= BlockSize
    ensures CountAsWritten(n * s, 1, s) < n
  {
    var d := s + PointerSize;
    var a := n * s;
    assert a < n * d;
    DivBelow(a, d, n);
    assert a / d <= a;
    assert (0 * BlockSize) % SizeMax / d == 0;
    assert CountAsWritten(a, 1, s) == a / d;
  }

  lemma DivBelow(a: nat, d: nat, n: nat)
    requires d > 0 && a < n * d
    ensures a / d < n
  {
    var q := a / d;
    assert q * d <= a;
    if q >= n {
      MulMono(n, q, d);
    }
  }

  lemma MulMono(n: nat, q: nat, d: nat)
    requires n <= q
    ensures n * d <= q * d
  {
  }

  /**
   * One component storage: the slot stride, the type's hooks, the blocks (as the owners of
   * their written slots) and the offset of the next free byte in the last block.
   */
  class ComponentStorage {
    const componentType: ComponentType
    /** size_ */
    const size: nat
    /** funcs_.destructor, funcs_.update, funcs_.show_ui: whether each is installed. */
    const destructorHook: bool
    const updateHook: bool
    const showUiHook: bool
    /** storage_: per block, the owners written at offsets 0, size_, 2 * size_, ... */
    var blocks: seq<seq<ObjectId>>
    /** block_offset_ */
    var blockOffset: nat

    ghost predicate Valid()
      reads this
    {
      size == componentType.payloadSize + PointerSize
      && destructorHook
      && WellFormed(blocks, blockOffset, size)
    }

    /** The written slots in list and offset order. */
    function Slots(): seq<Slot>
      reads this
    {
      AllSlots(blocks, size)
    }

    /**
     * The storage `Scene::AddComponent` inserts, after `Init<T>`: stride sizeof(T) + 8,
     * no block yet and the offset at kBlockSize so the first allocation opens a block;
     * the destructor hook always, the others iff T has the member function.
     */
    constructor Init(t: ComponentType)
      requires Storable(t)
      ensures Valid()
      ensures componentType == t && size == t.payloadSize + PointerSize
      ensures blocks == [] && blockOffset == BlockSize && Slots() == []
      ensures destructorHook
      ensures updateHook <==> t.hasUpdate
      ensures showUiHook <==> t.hasShowUi
    {
      componentType := t;
      size := t.payloadSize + PointerSize;
      blockOffset := BlockSize;
      blocks := [];
      destructorHook := true;
      updateHook := t.hasUpdate;
      showUiHook := t.hasShowUi;
    }

    /**
     * Allocate: open a new block (offset 0) iff the slot does not fit, write the owner at
     * the slot start, return the address just after it and advance the offset by a stride.
     */
    method Allocate(owner: ObjectId) returns (addr: Address)
      requires Valid()
      modifies this
      ensures Valid()
      ensures old(blockOffset) + size > BlockSize ==> |blocks| == old(|blocks|) + 1 && addr == Address(|blocks| - 1, PointerSize)
      ensures old(blockOffset) + size <= BlockSize ==> |blocks| == old(|blocks|) && addr == Address(|blocks| - 1, old(blockOffset) + PointerSize)
      ensures blocks[..|blocks| - 1] == old(blocks)[..|blocks| - 1]
      ensures Slots() == old(Slots()) + [Slot(owner, addr)]
    {
      if blockOffset + size > BlockSize {
        blocks := blocks + [[]];
        blockOffset := 0;
      }
      ghost var before := blocks;
      var last := |blocks| - 1;
      addr := Address(last, blockOffset + PointerSize);
      blocks := blocks[last := blocks[last] + [owner]];
      blockOffset := blockOffset + size;
      assert blocks[..last] == before[..last];
      assert blockOffset == |blocks[last]| * size;
      assert AllSlots(before, size) == old(Slots()) by {
        if |before| != |old(blocks)| {
          assert before[..last] == old(blocks);
        }
      }
      assert BlockSlots(last, blocks[last], size) == BlockSlots(last, before[last], size) + [Slot(owner, addr)];
    }

    /** The corrected count: the number of written slots. */
    function Count(): (r: nat)
      reads this
      requires Valid()
      ensures r == |Slots()|
    {
      if blocks == [] then 0
      else
        CountFormula(blocks, blockOffset, size);
        blockOffset / size + (|blocks| - 1) * (BlockSize / size)
    }

    /** The loop nest shared by the traversals: every block but the last bounded by `fullBound`. */
    method TraverseBlocks(fullBound: nat) returns (visits: seq<Visit>)
      requires Valid() && |blocks| >= 1
      ensures visits == Traversal(blocks, size, blockOffset, fullBound)
    {
      visits := [];
      var k := 0;
      while k < |blocks|
        invariant 0 <= k <= |blocks|
        invariant k < |blocks| ==> visits == WalkFull(blocks[..k], size, fullBound)
        invariant k == |blocks| ==> visits == Traversal(blocks, size, blockOffset, fullBound)
      {
        var bound := if k == |blocks| - 1 then blockOffset else fullBound;
        var blockVisits := WalkBlock(k, bound);
        assert blocks[..k + 1][..k] == blocks[..k];
        visits := visits + blockVisits;
        k := k + 1;
      }
    }

    /** The inner loop over block k, slot counter j beside the byte offset i. */
    method WalkBlock(k: nat, bound: nat) returns (blockVisits: seq<Visit>)
      requires Valid() && k < |blocks|
      ensures blockVisits == Walk(k, blocks[k], 0, 0, bound, size)
    {
      blockVisits := [];
      var i, j := 0, 0;
      while i < bound
        invariant blockVisits + Walk(k, blocks[k], j, i, bound, size) == Walk(k, blocks[k], 0, 0, bound, size)
        decreases bound - i
      {
        var owner := if j < |blocks[k]| then Some(blocks[k][j]) else None;
        blockVisits := blockVisits + [Visit(owner, Address(k, i + PointerSize))];
        i, j := i + size, j + 1;
      }
    }

    /** ForEachInner as written: full blocks walked up to kBlockSize. */
    method ForEachInnerAsWritten() returns (visits: seq<Visit>)
      requires Valid() && |blocks| >= 1
      ensures visits == Traversal(blocks, size, blockOffset, BlockSize)
    {
      visits := TraverseBlocks(BlockSize);
    }

    /**
     * ForEachInner with full blocks bounded by the last whole stride: it visits every
     * written slot exactly once, blocks in list order and slots in offset order, with the
     * owner stored at the slot start.
     */
    method ForEachInner() returns (visits: seq<Visit>)
      requires Valid() && |blocks| >= 1
      ensures visits == Visits(Slots())
    {
      visits := TraverseBlocks(BlockSize / size * size);
      TraversalExact(blocks, blockOffset, size);
    }

    /** Update: the update hook on every visited payload when installed, otherwise nothing. */
    method Update() returns (updated: seq<Address>)
      requires Valid() && |blocks| >= 1
      ensures updateHook ==> updated == Payloads(Visits(Slots()))
      ensures !updateHook ==> updated == []
    {
      updated := [];
      if updateHook {
        var visits := ForEachInner();
        updated := Payloads(visits);
      }
    }

    /** The destructor's loops: the last block up to `block_offset_`, then the rest up to `fullBound`. */
    method DestroyBlocks(fullBound: nat) returns (destroyed: seq<Address>)
      requires Valid()
      ensures blocks == [] || !destructorHook ==> destroyed == []
      ensures blocks != [] && destructorHook ==> destroyed == Payloads(DestroyOrder(blocks, size, blockOffset, fullBound))
    {
      destroyed := [];
      if destructorHook {
        if |blocks| > 0 {
          var lastVisits := WalkBlock(|blocks| - 1, blockOffset);
          var visits := lastVisits;
          var k := 0;
          while k < |blocks| - 1
            invariant 0 <= k <= |blocks| - 1
            invariant visits == lastVisits + WalkFull(blocks[..k], size, fullBound)
          {
            var blockVisits := WalkBlock(k, fullBound);
            assert blocks[..k + 1][..k] == blocks[..k];
            visits := visits + blockVisits;
            k := k + 1;
          }
          destroyed := Payloads(visits);
        }
      }
    }

    /** ~ComponentStorage as written: the blocks other than the last walked up to kBlockSize. */
    method DestroyAsWritten() returns (destroyed: seq<Address>)
      requires Valid()
      ensures blocks == [] || !destructorHook ==> destroyed == []
      ensures blocks != [] && destructorHook ==> destroyed == Payloads(DestroyOrder(blocks, size, blockOffset, BlockSize))
    {
      destroyed := DestroyBlocks(BlockSize);
    }

    /**
     * ~ComponentStorage with full blocks bounded by the last whole stride: every written
     * payload is destroyed exactly once, those of the last block first.
     */
    method Destroy() returns (destroyed: seq<Address>)
      requires Valid()
      ensures blocks == [] ==> destroyed == []
      ensures blocks != [] ==>
        destroyed == Payloads(Visits(BlockSlots(|blocks| - 1, blocks[|blocks| - 1], size)))
                     + Payloads(Visits(AllSlots(blocks[..|blocks| - 1], size)))
      ensures multiset(destroyed) == multiset(Payloads(Visits(Slots())))
    {
      destroyed := DestroyBlocks(BlockSize / size * size);
      if blocks != [] {
        DestroyOrderExact(blocks, blockOffset, size);
      }
    }
  }

  /**
   * With full blocks bounded by the last whole stride the destructor's order is the last
   * block's payloads followed by all the others: every written payload exactly once.
   */
  lemma DestroyOrderExact(blocks: seq<seq<ObjectId>>, blockOffset: nat, s: nat)
    requires WellFormed(blocks, blockOffset, s) && |blocks| >= 1
    ensures Payloads(DestroyOrder(blocks, s, blockOffset, BlockSize / s * s))
         == Payloads(Visits(BlockSlots(|blocks| - 1, blocks[|blocks| - 1], s)))
            + Payloads(Visits(AllSlots(blocks[..|blocks| - 1], s)))
    ensures multiset(Payloads(DestroyOrder(blocks, s, blockOffset, BlockSize / s * s)))
         == multiset(Payloads(Visits(AllSlots(blocks, s))))
  {
    var prefix := blocks[..|blocks| - 1];
    var lastSlots := BlockSlots(|blocks| - 1, blocks[|blocks| - 1], s);
    WalkFullExact(prefix, s);
    WalkExact(|blocks| - 1, blocks[|blocks| - 1], s);
    PayloadsAppend(Visits(lastSlots), Visits(AllSlots(prefix, s)));
    VisitsAppend(AllSlots(prefix, s), lastSlots);
    PayloadsAppend(Visits(AllSlots(prefix, s)), Visits(lastSlots));
  }

  lemma PayloadsAppend(x: seq<Visit>, y: seq<Visit>)
    ensures Payloads(x + y) == Payloads(x) + Payloads(y)
  {
  }
}
