/** The object pool: blocks of equal slots, a flag for each slot and a count of the free ones.

    An address counts slots, and 0 is the null pointer.  The environment supplies the storage of a new
    block: slots that belong to no other block. */
module MemoryPools {
  type Address = nat

  const NULL: Address := 0

  // ---- the history of a pool ------------------------------------------------------------------

  datatype Event = Gave(slot: Address) | Took(slot: Address)

  /** The slots handed out and not given back since. */
  ghost function Outstanding(log: seq<Event>): set<Address> {
    if log == [] then {}
    else
      var before := Outstanding(log[..|log| - 1]);
      match log[|log| - 1]
      case Gave(a) => before + {a}
      case Took(a) => before - {a}
  }

  /** No slot is handed out while somebody has it. */
  ghost predicate NeverShared(log: seq<Event>) {
    forall k | 0 <= k < |log| && log[k].Gave? :: log[k].slot !in Outstanding(log[..k])
  }

  /** The most slots that were ever out at once. */
  ghost function Peak(log: seq<Event>): nat {
    if log == [] then 0
    else
      var before, now := Peak(log[..|log| - 1]), |Outstanding(log)|;
      if now > before then now else before
  }

  lemma {:induction false} StaysOut(log: seq<Event>, j: nat, k: nat, a: Address)
    requires j < k <= |log| && log[j] == Gave(a)
    requires forall m | j < m < k :: log[m] != Took(a)
    ensures a in Outstanding(log[..k])
  {
    var l := log[..k];
    assert l[..k - 1] == log[..k - 1];
    if k > j + 1 {
      StaysOut(log, j, k - 1, a);
    }
  }

  /** Between two times that a slot is handed out it was given back. */
  lemma ReusedOnlyWhenReturned(log: seq<Event>, j: nat, k: nat, a: Address)
    requires NeverShared(log) && j < k < |log| && log[j] == Gave(a) && log[k] == Gave(a)
    ensures exists m :: j < m < k && log[m] == Took(a)
  {
    if forall m | j < m < k :: log[m] != Took(a) {
      StaysOut(log, j, k, a);
    }
  }

  lemma OneMoreEvent(log: seq<Event>, e: Event)
    requires NeverShared(log) && (e.Gave? ==> e.slot !in Outstanding(log))
    ensures NeverShared(log + [e])
    ensures Outstanding(log + [e]) == if e.Gave? then Outstanding(log) + {e.slot} else Outstanding(log) - {e.slot}
    ensures Peak(log + [e]) >= Peak(log) && Peak(log + [e]) >= |Outstanding(log + [e])|
  {
    var l := log + [e];
    assert l[..|log|] == log;
    assert forall k | 0 <= k < |log| :: l[..k] == log[..k] && l[k] == log[k];
  }

  // ---- blocks ---------------------------------------------------------------------------------

  datatype Block = Block(data: Address, used: seq<bool>, freeCount: nat)

  function CountFree(used: seq<bool>): nat {
    if used == [] then 0 else (if used[0] then 0 else 1) + CountFree(used[1..])
  }

  lemma {:induction false} CountFlip(used: seq<bool>, i: nat)
    requires i < |used| && !used[i]
    ensures CountFree(used) == CountFree(used[i := true]) + 1
  {
    var v := used[i := true];
    if i > 0 {
      assert v[1..] == used[1..][i - 1 := true];
      CountFlip(used[1..], i - 1);
    } else {
      assert v[1..] == used[1..];
    }
  }

  /** The count is zero exactly when every slot is in use. */
  lemma {:induction false} NoneFree(used: seq<bool>)
    ensures CountFree(used) == 0 <==> forall i | 0 <= i < |used| :: used[i]
  {
    if used != [] {
      NoneFree(used[1..]);
      assert forall i | 0 < i < |used| :: used[i] == used[1..][i - 1];
    }
  }

  lemma {:induction false} AllFree(n: nat)
    ensures CountFree(seq(n, _ => false)) == n
  {
    var s := seq(n, _ => false);
    if n > 0 {
      assert s[1..] == seq(n - 1, _ => false);
      AllFree(n - 1);
    }
  }

  predicate Covers(b: Block, a: Address) {
    b.data <= a < b.data + |b.used|
  }

  predicate Uses(b: Block, a: Address) {
    Covers(b, a) && b.used[a - b.data]
  }

  ghost predicate BlockOk(b: Block, size: nat) {
    |b.used| == size && b.freeCount == CountFree(b.used) && b.data > NULL
  }

  predicate Disjoint(b: Block, c: Block) {
    b.data + |b.used| <= c.data || c.data + |c.used| <= b.data
  }

  ghost predicate BlocksOk(blocks: seq<Block>, size: nat) {
    && (forall k | 0 <= k < |blocks| :: BlockOk(blocks[k], size))
    && (forall j, k | 0 <= j < k < |blocks| :: Disjoint(blocks[j], blocks[k]))
  }

  lemma BlockShape(blocks: seq<Block>, size: nat, k: nat)
    requires BlocksOk(blocks, size) && k < |blocks|
    ensures |blocks[k].used| == size && blocks[k].freeCount == CountFree(blocks[k].used)
  {
  }

  /** The addresses whose flag is set. */
  ghost function Live(blocks: seq<Block>): set<Address> {
    set k, a: Address | 0 <= k < |blocks| && blocks[k].data <= a < blocks[k].data + |blocks[k].used| &&
                        Uses(blocks[k], a) :: a
  }

  /** Blocks do not overlap, so a flag is the flag of one address only. */
  lemma OnlyCover(blocks: seq<Block>, size: nat, k: nat, i: nat)
    requires BlocksOk(blocks, size) && k < |blocks| && i < size
    ensures forall j | 0 <= j < |blocks| && j != k :: !Covers(blocks[j], blocks[k].data + i)
  {
    hide CountFree;
    assert BlockOk(blocks[k], size);
    assert forall j | 0 <= j < k :: Disjoint(blocks[j], blocks[k]);
    assert forall j | k < j < |blocks| :: Disjoint(blocks[k], blocks[j]);
  }

  lemma FlagMoves(blocks: seq<Block>, size: nat, k: nat, i: nat, v: bool, free: nat)
    requires BlocksOk(blocks, size) && k < |blocks| && i < size && blocks[k].used[i] != v
    ensures var after := blocks[k := blocks[k].(used := blocks[k].used[i := v], freeCount := free)];
            forall a: Address :: a in Live(after) <==> if a == blocks[k].data + i then v else a in Live(blocks)
  {
    hide BlockOk, Disjoint, CountFree;
    BlockShape(blocks, size, k);
    var after := blocks[k := blocks[k].(used := blocks[k].used[i := v], freeCount := free)];
    var at := blocks[k].data + i;
    OnlyCover(blocks, size, k, i);
    forall a: Address
      ensures a in Live(after) <==> if a == at then v else a in Live(blocks)
    {
      if a != at {
        assert forall j | 0 <= j < |blocks| :: Uses(after[j], a) <==> Uses(blocks[j], a);
      } else if v {
        assert Uses(after[k], a);
      }
    }
  }

  /** Setting one flag that was clear, with its count, puts one address more in use. */
  lemma MarkUsed(blocks: seq<Block>, size: nat, k: nat, i: nat)
    requires BlocksOk(blocks, size) && k < |blocks| && i < size && !blocks[k].used[i]
    ensures blocks[k].freeCount > 0 && blocks[k].data > NULL && |blocks[k].used| == size
    ensures blocks[k].data + i !in Live(blocks)
    ensures var b := blocks[k].(used := blocks[k].used[i := true], freeCount := blocks[k].freeCount - 1);
            && BlocksOk(blocks[k := b], size)
            && Live(blocks[k := b]) == Live(blocks) + {blocks[k].data + i}
  {
    CountFlip(blocks[k].used, i);
    FlagMoves(blocks, size, k, i, true, blocks[k].freeCount - 1);
  }

  lemma MarkFree(blocks: seq<Block>, size: nat, k: nat, i: nat)
    requires BlocksOk(blocks, size) && k < |blocks| && i < size && blocks[k].used[i]
    ensures |blocks[k].used| == size && blocks[k].data + i in Live(blocks)
    ensures var b := blocks[k].(used := blocks[k].used[i := false], freeCount := blocks[k].freeCount + 1);
            && BlocksOk(blocks[k := b], size)
            && Live(blocks[k := b]) == Live(blocks) - {blocks[k].data + i}
  {
    CountFlip(blocks[k].used[i := false], i);
    assert blocks[k].used[i := false][i := true] == blocks[k].used;
    assert Uses(blocks[k], blocks[k].data + i);
    FlagMoves(blocks, size, k, i, false, blocks[k].freeCount + 1);
  }

  // ---- the pool -------------------------------------------------------------------------------

  /** Where the blocks lie. */
  function Places(blocks: seq<Block>): (places: seq<Address>)
    ensures |places| == |blocks|
    ensures forall k | 0 <= k < |blocks| :: places[k] == blocks[k].data
  {
    seq(|blocks|, k requires 0 <= k < |blocks| => blocks[k].data)
  }

  ghost function Slots(blocks: seq<Block>): set<Address> {
    set k, a: Address | 0 <= k < |blocks| && blocks[k].data <= a < blocks[k].data + |blocks[k].used| &&
                        Covers(blocks[k], a) :: a
  }

  /** Storage the allocator may return: not null, and apart from every block. */
  ghost predicate Apart(blocks: seq<Block>, data: Address, size: nat) {
    data > NULL && forall k | 0 <= k < |blocks| :: Disjoint(blocks[k], NewBlock(data, size))
  }

  function NewBlock(data: Address, size: nat): Block {
    Block(data, seq(size, _ => false), size)
  }

  lemma AddedBlock(blocks: seq<Block>, data: Address, size: nat)
    requires BlocksOk(blocks, size) && Apart(blocks, data, size)
    ensures var r := blocks + [NewBlock(data, size)];
            BlocksOk(r, size) && Live(r) == Live(blocks)
  {
    var n, r := NewBlock(data, size), blocks + [NewBlock(data, size)];
    AllFree(size);
    forall a: Address
      ensures a in Live(r) <==> a in Live(blocks)
    {
      assert !Uses(n, a);
      assert forall k | 0 <= k < |blocks| :: r[k] == blocks[k];
      if a in Live(blocks) {
        var k :| 0 <= k < |blocks| && Uses(blocks[k], a);
        assert Uses(r[k], a);
      }
    }
  }

  /** A block without free slots is in use throughout; a pool of such blocks is full. */
  lemma FullPool(blocks: seq<Block>, size: nat)
    requires BlocksOk(blocks, size) && forall k | 0 <= k < |blocks| :: blocks[k].freeCount == 0
    ensures Live(blocks) == Slots(blocks) && |Live(blocks)| == |blocks| * size
    decreases |blocks|
  {
    forall a | a in Slots(blocks)
      ensures a in Live(blocks)
    {
      var k :| 0 <= k < |blocks| && Covers(blocks[k], a);
      NoneFree(blocks[k].used);
      assert Uses(blocks[k], a);
    }
    CountSlots(blocks, size);
  }

  ghost function Range(data: Address, size: nat): (r: set<Address>)
    ensures |r| == size && forall a: Address :: a in r <==> data <= a < data + size
  {
    if size == 0 then {} else Range(data, size - 1) + {data + size - 1}
  }

  lemma LastSlots(blocks: seq<Block>, size: nat)
    requires BlocksOk(blocks, size) && blocks != []
    ensures var n := |blocks| - 1;
            && BlocksOk(blocks[..n], size)
            && Slots(blocks[..n]) !! Range(blocks[n].data, size)
            && Slots(blocks) == Slots(blocks[..n]) + Range(blocks[n].data, size)
  {
    var n := |blocks| - 1;
    var init, last := blocks[..n], Range(blocks[n].data, size);
    assert BlockOk(blocks[n], size);
    forall a: Address
      ensures a in Slots(blocks) <==> a in Slots(init) || a in last
      ensures !(a in Slots(init) && a in last)
    {
      assert a in last <==> Covers(blocks[n], a);
      assert forall k | 0 <= k < n :: init[k] == blocks[k];
    }
  }

  lemma {:induction false} CountSlots(blocks: seq<Block>, size: nat)
    requires BlocksOk(blocks, size)
    ensures |Slots(blocks)| == |blocks| * size
  {
    hide BlocksOk;
    if blocks == [] {
      assert Slots(blocks) == {};
    } else {
      hide Slots;
      var n := |blocks| - 1;
      LastSlots(blocks, size);
      CountSlots(blocks[..n], size);
      assert (n + 1) * size == n * size + size;
    }
  }

  /** `a` is the first slot, block by block, whose flag is clear. */
  ghost predicate FirstFree(blocks: seq<Block>, a: Address) {
    exists k :: 0 <= k < |blocks| && FirstFreeIn(blocks, k, a)
  }

  ghost predicate FirstFreeIn(blocks: seq<Block>, k: nat, a: Address)
    requires k < |blocks|
  {
    && Covers(blocks[k], a) && !Uses(blocks[k], a)
    && (forall i | 0 <= i < a - blocks[k].data :: blocks[k].used[i])
    && (forall j | 0 <= j < k :: blocks[j].freeCount == 0)
  }

  function Capacity(n: nat, size: nat): nat {
    n * size
  }

  /** The first block is there from the start; any other was needed when it came. */
  ghost predicate NoneIdle(n: nat, size: nat, peak: nat) {
    n > 1 ==> Capacity(n, size) < peak + size
  }

  lemma PeakGrows(n: nat, size: nat, peak: nat, more: nat)
    requires NoneIdle(n, size, peak) && peak <= more
    ensures NoneIdle(n, size, more)
  {
  }

  lemma AllWereOut(n: nat, size: nat, peak: nat)
    requires peak > n * size
    ensures NoneIdle(n + 1, size, peak)
  {
    assert (n + 1) * size == n * size + size;
  }

  class MemoryPool {
    const blockSize: nat
    var blocks: seq<Block>
    var allocatedCount: nat
    ghost var log: seq<Event>

    /** The flags say who is out, the counts agree with the flags, and nobody ever shared a slot. */
    ghost predicate Accounted()
      reads this
    {
      && BlocksOk(blocks, blockSize)
      && Live(blocks) == Outstanding(log) && allocatedCount == |Live(blocks)|
      && NeverShared(log)
    }

    /** And there are no more blocks than the busiest moment needed. */
    ghost predicate Valid()
      reads this
    {
      && blockSize > 0 && blocks != [] && Accounted()
      && NoneIdle(|blocks|, blockSize, Peak(log))
    }

    /** total_capacity(): beyond the first block, less than one block more than were ever out at once. */
    function TotalCapacity(): (slots: nat)
      requires Valid()
      reads this
      ensures slots == |Slots(blocks)|
      ensures |blocks| > 1 ==> slots < Peak(log) + blockSize
    {
      CountSlots(blocks, blockSize);
      Capacity(|blocks|, blockSize)
    }

    /** A block size of zero makes a pool whose first allocation indexes an empty vector. */
    constructor (blockSize: nat, storage: Address)
      requires storage > NULL
      ensures Accounted() && log == [] && this.blockSize == blockSize && |blocks| == 1
      ensures Valid() <==> blockSize > 0
    {
      this.blockSize := blockSize;
      allocatedCount, log := 0, [];
      blocks := [NewBlock(storage, blockSize)];
      new;
      AddedBlock([], storage, blockSize);
      assert Live([]) == {};
      assert [] + [NewBlock(storage, blockSize)] == blocks;
    }

    method AddBlock(storage: Address)
      requires BlocksOk(blocks, blockSize) && Apart(blocks, storage, blockSize)
      modifies this`blocks
      ensures BlocksOk(blocks, blockSize) && blocks == old(blocks) + [NewBlock(storage, blockSize)]
      ensures Live(blocks) == old(Live(blocks))
    {
      AddedBlock(blocks, storage, blockSize);
      blocks := blocks + [NewBlock(storage, blockSize)];
    }

    method Take(k: nat, i: nat) returns (ptr: Address)
      requires Accounted() && k < |blocks| && i < blockSize && !blocks[k].used[i]
      modifies this
      ensures Accounted() && ptr == old(blocks)[k].data + i && ptr != NULL
      ensures ptr !in old(Live(blocks)) && Live(blocks) == old(Live(blocks)) + {ptr}
      ensures Places(blocks) == old(Places(blocks)) && log == old(log) + [Gave(ptr)]
      ensures Peak(log) >= old(Peak(log)) && Peak(log) >= allocatedCount
    {
      hide BlocksOk, Live, NeverShared, Outstanding, Peak;
      MarkUsed(blocks, blockSize, k, i);
      ptr := blocks[k].data + i;
      OneMoreEvent(log, Gave(ptr));
      blocks := blocks[k := blocks[k].(used := blocks[k].used[i := true], freeCount := blocks[k].freeCount - 1)];
      allocatedCount := allocatedCount + 1;
      log := log + [Gave(ptr)];
    }

    /** The first free slot of the first block that has one; a new block only when every slot is out. */
    method Allocate(storage: Address) returns (ptr: Address)
      requires Valid() && Apart(blocks, storage, blockSize)
      modifies this
      ensures Valid() && log == old(log) + [Gave(ptr)]
      ensures ptr != NULL && ptr !in old(Live(blocks)) && Live(blocks) == old(Live(blocks)) + {ptr}
      ensures if old(Live(blocks)) == old(Slots(blocks)) then
                Places(blocks) == old(Places(blocks)) + [storage] && ptr == storage
              else Places(blocks) == old(Places(blocks)) && FirstFree(old(blocks), ptr)
    {
      hide BlocksOk, Live, Slots, NeverShared, Outstanding, Peak, Apart, CountFree, NoneIdle;
      var k := 0;
      while k < |blocks|
        invariant k <= |blocks| && blocks == old(blocks) && log == old(log) && allocatedCount == old(allocatedCount)
        invariant forall j | 0 <= j < k :: blocks[j].freeCount == 0
      {
        BlockShape(blocks, blockSize, k);
        if blocks[k].freeCount > 0 {
          var i := 0;
          while i < blockSize
            invariant i <= blockSize == |blocks[k].used| && blocks == old(blocks) && log == old(log)
            invariant allocatedCount == old(allocatedCount)
            invariant forall j | 0 <= j < i :: blocks[k].used[j]
          {
            if !blocks[k].used[i] {
              SlotLeft(blocks, blockSize, k, i);
              ghost var peak := Peak(log);
              ptr := Take(k, i);
              PeakGrows(|blocks|, blockSize, peak, Peak(log));
              assert FirstFreeIn(old(blocks), k, ptr);
              return;
            }
            i := i + 1;
          }
          NoneFree(blocks[k].used);
          assert false;
        }
        k := k + 1;
      }
      ptr := AllocateFromNew(storage);
    }

    /** The first slot of a new block, when no block has a free one. */
    method AllocateFromNew(storage: Address) returns (ptr: Address)
      requires Valid() && Apart(blocks, storage, blockSize)
      requires forall k | 0 <= k < |blocks| :: blocks[k].freeCount == 0
      modifies this
      ensures Valid() && log == old(log) + [Gave(ptr)] && ptr == storage && ptr != NULL
      ensures old(Live(blocks)) == old(Slots(blocks)) && Places(blocks) == old(Places(blocks)) + [storage]
      ensures ptr !in old(Live(blocks)) && Live(blocks) == old(Live(blocks)) + {ptr}
    {
      hide BlocksOk, Live, Slots, NeverShared, Outstanding, Peak, Apart, CountFree, NoneIdle;
      FullPool(blocks, blockSize);
      ghost var n := |blocks|;
      AddBlock(storage);
      ptr := Take(|blocks| - 1, 0);
      AllWereOut(n, blockSize, Peak(log));
    }

    method Release(k: nat, i: nat)
      requires BlocksOk(blocks, blockSize) && allocatedCount == |Live(blocks)|
      requires k < |blocks| && i < blockSize && blocks[k].used[i]
      modifies this`blocks, this`allocatedCount
      ensures BlocksOk(blocks, blockSize) && allocatedCount == |Live(blocks)|
      ensures Places(blocks) == old(Places(blocks))
      ensures old(blocks)[k].data + i in old(Live(blocks))
      ensures Live(blocks) == old(Live(blocks)) - {old(blocks)[k].data + i}
    {
      hide BlocksOk, Live;
      MarkFree(blocks, blockSize, k, i);
      blocks := blocks[k := blocks[k].(used := blocks[k].used[i := false], freeCount := blocks[k].freeCount + 1)];
      allocatedCount := allocatedCount - 1;
    }

    /** The search of deallocate: the slot of the block that covers the pointer, if one does. */
    method TakeBack(ptr: Address)
      requires BlocksOk(blocks, blockSize) && allocatedCount == |Live(blocks)|
      modifies this`blocks, this`allocatedCount
      ensures BlocksOk(blocks, blockSize) && allocatedCount == |Live(blocks)|
      ensures Places(blocks) == old(Places(blocks))
      ensures Live(blocks) == old(Live(blocks)) - {ptr}
      ensures ptr !in old(Live(blocks)) ==> blocks == old(blocks)
    {
      hide BlocksOk, Live, CountFree, Disjoint, Uses;
      var k := 0;
      while k < |blocks|
        invariant k <= |blocks| && blocks == old(blocks) && allocatedCount == old(allocatedCount)
        invariant forall j | 0 <= j < k :: !Covers(blocks[j], ptr)
      {
        BlockShape(blocks, blockSize, k);
        var start := blocks[k].data;
        if start <= ptr < start + blockSize {
          var index := ptr - start;
          if blocks[k].used[index] {
            Release(k, index);
          } else {
            NotOut(blocks, blockSize, k, ptr);
          }
          return;
        }
        k := k + 1;
      }
      ForeignIsNoSlot(blocks, ptr);
    }

    /** Gives the slot back; a null pointer, one that is not a slot or a slot that is not out changes
        nothing. */
    method Deallocate(ptr: Address)
      requires Valid()
      modifies this
      ensures Valid() && log == old(log) + [Took(ptr)]
      ensures Live(blocks) == old(Live(blocks)) - {ptr}
      ensures Places(blocks) == old(Places(blocks))
      ensures ptr !in old(Live(blocks)) ==> blocks == old(blocks) && allocatedCount == old(allocatedCount)
    {
      hide BlocksOk, Live, NeverShared, Outstanding, Peak, NoneIdle;
      OneMoreEvent(log, Took(ptr));
      PeakGrows(|blocks|, blockSize, Peak(log), Peak(log + [Took(ptr)]));
      log := log + [Took(ptr)];
      if ptr == NULL {
        NullIsNoSlot(blocks, blockSize);
        return;
      }
      TakeBack(ptr);
    }
  }

  lemma NullIsNoSlot(blocks: seq<Block>, size: nat)
    requires BlocksOk(blocks, size)
    ensures NULL !in Live(blocks)
  {
    assert forall k | 0 <= k < |blocks| :: BlockOk(blocks[k], size);
  }

  lemma ForeignIsNoSlot(blocks: seq<Block>, a: Address)
    requires forall k | 0 <= k < |blocks| :: !Covers(blocks[k], a)
    ensures a !in Live(blocks)
  {
  }

  lemma SlotLeft(blocks: seq<Block>, size: nat, k: nat, i: nat)
    requires BlocksOk(blocks, size) && k < |blocks| && i < size && !blocks[k].used[i]
    ensures Live(blocks) != Slots(blocks)
  {
    MarkUsed(blocks, size, k, i);
    assert Covers(blocks[k], blocks[k].data + i);
    assert blocks[k].data + i in Slots(blocks);
  }

  lemma NotOut(blocks: seq<Block>, size: nat, k: nat, a: Address)
    requires BlocksOk(blocks, size) && k < |blocks|
    requires Covers(blocks[k], a) && !blocks[k].used[a - blocks[k].data]
    ensures a !in Live(blocks)
  {
    forall j | 0 <= j < |blocks|
      ensures !Uses(blocks[j], a)
    {
      assert j < k ==> Disjoint(blocks[j], blocks[k]);
      assert k < j ==> Disjoint(blocks[k], blocks[j]);
    }
  }
}
