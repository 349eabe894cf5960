/** A fixed pool: one block of itemNum slots, carved on demand, and a chain of
    returned slots whose links are stored behind each slot's item bytes. */
module LibBuffers {
  import opened Bytes

  const WSIZE := 8

  class LibBuffer {
    const heap: array<uint8>
    const base: nat           // the address of heap[0]; 0 is NULL
    const itemSize: nat
    const itemNum: nat
    var freeListHead: nat
    var freeListSize: nat
    var curHeapHead: nat
    var allocatedNum: nat
    ghost var carved: nat     // slots 0..carved have been handed out at least once
    ghost var chain: seq<nat> // the free slots, in the order of their links
    ghost var live: set<nat>  // the slots in use

    ghost predicate Valid()
      reads this, heap
    {
      Sized() && Counted() && Linked()
    }

    /** The bookkeeping: which slots are free, in use, or not yet carved. */
    ghost predicate Counted()
      reads this
      requires Sized()
    {
      && carved <= itemNum && curHeapHead == Addr(carved)
      && Partition(chain, live, carved)
      && freeListSize == |chain| && allocatedNum == |live| && freeListSize + allocatedNum == carved
    }

    /** The bytes: every free slot holds the pointer to the next, and no slot
        outside the ones in use holds anything but zeros. */
    ghost predicate Linked()
      reads this, heap
      requires Sized() && Counted()
    {
      && freeListHead == Ptr(chain, 0)
      && (forall i :: 0 <= i < |chain| ==> Link(chain[i]) == U64(Ptr(chain, i + 1)))
      && (forall k :: 0 <= k < itemNum && k !in live ==> Zeroed(k))
    }

    ghost predicate Sized() {
      && base > 0 && itemSize > 0 && itemNum > 0
      && heap.Length == Offset(itemNum) && base + heap.Length < 0x1_0000_0000_0000_0000
    }

    ghost function Stride(): nat { itemSize + WSIZE }

    ghost function Offset(k: nat): nat { if k == 0 then 0 else Offset(k - 1) + Stride() }

    ghost function Addr(k: nat): nat { base + Offset(k) }

    /** What a chain of free slots stores for its i-th pointer. */
    ghost function Ptr(c: seq<nat>, i: nat): (p: uint64)
      requires Sized() && forall j :: 0 <= j < |c| ==> c[j] < itemNum
    {
      if i < |c| then
        InBlock(c[i]);
        Addr(c[i])
      else 0
    }

    ghost function Item(k: nat): (b: bytes)
      requires Sized() && k < itemNum
      reads heap
      ensures |b| == itemSize
    {
      InBlock(k);
      heap[Offset(k)..Offset(k) + itemSize]
    }

    ghost function Link(k: nat): (b: bytes)
      requires Sized() && k < itemNum
      reads heap
      ensures |b| == WSIZE
    {
      InBlock(k);
      heap[Offset(k) + itemSize..Offset(k) + Stride()]
    }

    ghost predicate Zeroed(k: nat)
      requires Sized() && k < itemNum
      reads heap
    {
      forall i :: 0 <= i < itemSize ==> Item(k)[i] == 0
    }

    lemma InBlock(k: nat)
      requires Sized() && k < itemNum
      ensures Offset(k) + Stride() <= heap.Length
    {
      SlotsApart(k, itemNum);
    }

    lemma {:induction false} SlotsApart(j: nat, k: nat)
      requires j < k
      ensures Offset(j) + Stride() <= Offset(k)
    {
      if j < k - 1 { SlotsApart(j, k - 1); }
    }

    /** Slot k is behind k slots of an item and an eight-byte link each. */
    lemma {:induction false} OffsetIs(k: nat)
      ensures Offset(k) == Stride() * k && Addr(k) == base + (itemSize + 8) * k
    {
      if k > 0 { OffsetIs(k - 1); }
    }

    /** Writing inside slot k leaves every other slot alone. */
    twostate lemma OtherSlots(k: nat, new j: nat)
      requires Sized() && k < itemNum && j < itemNum && j != k
      requires forall i :: 0 <= i < heap.Length && !(Offset(k) <= i < Offset(k) + Stride()) ==> heap[i] == old(heap[i])
      ensures Item(j) == old(Item(j)) && Link(j) == old(Link(j))
    {
      InBlock(j);
      InBlock(k);
      if j < k { SlotsApart(j, k); } else { SlotsApart(k, j); }
    }

    constructor (itemSize: nat, itemNum: nat, base: nat)
      requires itemSize > 0 && itemNum > 0
      requires 0 < base && base + (itemSize + WSIZE) * itemNum < 0x1_0000_0000_0000_0000
      ensures Valid() && fresh(heap) && live == {} && chain == []
      ensures this.itemSize == itemSize && this.itemNum == itemNum
    {
      this.itemSize, this.itemNum, this.base := itemSize, itemNum, base;
      heap := new uint8[(itemSize + WSIZE) * itemNum](i => 0);
      freeListHead, freeListSize, curHeapHead, allocatedNum := 0, 0, base, 0;
      carved, chain, live := 0, [], {};
      new;
      OffsetIs(itemNum);
      hide Item, Offset, Zeroed;
      forall k | 0 <= k < itemNum ensures Zeroed(k) { AllZero(k); }
    }

    lemma AllZero(k: nat)
      requires Sized() && k < itemNum && forall i :: 0 <= i < heap.Length ==> heap[i] == 0
      ensures Zeroed(k)
    {
      InBlock(k);
    }

    /** memcpy or memset inside slot k. */
    method Fill(ghost k: nat, at: nat, b: bytes)
      requires Sized() && k < itemNum && Offset(k) <= at && at + |b| <= Offset(k) + Stride() <= heap.Length
      modifies heap
      ensures heap[at..at + |b|] == b
      ensures forall i :: 0 <= i < heap.Length && !(at <= i < at + |b|) ==> heap[i] == old(heap[i])
      ensures OthersKept(k)
    {
      forall i | 0 <= i < |b| {
        heap[at + i] := b[i];
      }
      forall j | 0 <= j < itemNum && j != k
        ensures Item(j) == old(Item(j)) && Link(j) == old(Link(j))
      {
        OtherSlots(k, j);
      }
    }

    twostate predicate OthersKept(k: nat)
      requires Sized()
      reads heap
    {
      forall j :: 0 <= j < itemNum && j != k ==> Item(j) == old(Item(j)) && Link(j) == old(Link(j))
    }

    method StoreItem(p: nat, ghost k: nat, i: nat, b: bytes)
      requires Sized() && k < itemNum && p == Addr(k) && i + |b| <= itemSize
      modifies heap
      ensures Item(k) == old(Item(k))[..i] + b + old(Item(k))[i + |b|..]
      ensures Link(k) == old(Link(k)) && OthersKept(k)
    {
      hide Offset;
      InBlock(k);
      var at := p - base + i;
      Fill(k, at, b);
      ghost var lo, hi := Offset(k), Offset(k) + itemSize;
      Kept(lo, at);
      Kept(at + |b|, hi);
      Kept(hi, Offset(k) + Stride());
      Parts(heap[..], lo, at, at + |b|, hi);
      assert old(Item(k))[..i] == old(heap[lo..at]) && old(Item(k))[i + |b|..] == old(heap[at + |b|..hi]);
    }

    /** A part of the block that was not written to. */
    twostate lemma Kept(lo: nat, new hi: nat)
      requires lo <= hi <= heap.Length && forall i :: lo <= i < hi ==> heap[i] == old(heap[i])
      ensures heap[lo..hi] == old(heap[lo..hi])
    {
    }

    lemma Parts(h: bytes, a: nat, b: nat, c: nat, d: nat)
      requires a <= b <= c <= d <= |h|
      ensures h[a..d] == h[a..b] + h[b..c] + h[c..d]
    {
    }

    method StoreLink(p: nat, ghost k: nat, v: uint64)
      requires Sized() && k < itemNum && p == Addr(k)
      modifies heap
      ensures Link(k) == U64(v) && Item(k) == old(Item(k)) && OthersKept(k)
    {
      hide Offset, U64;
      InBlock(k);
      Fill(k, p - base + itemSize, U64(v));
    }

    method LoadLink(p: nat, ghost k: nat, ghost v: uint64) returns (next: uint64)
      requires Sized() && k < itemNum && p == Addr(k) && Link(k) == U64(v)
      ensures next == v
    {
      hide Offset, U64, FromU64;
      InBlock(k);
      var at := p - base + itemSize;
      next := FromU64(heap[at..at + WSIZE]);
      assert heap[at..at + WSIZE] == Link(k);
      LinkValue(v);
    }

    lemma LinkValue(v: uint64)
      ensures FromU64(U64(v)) == v
    {
      U64RoundTrip(v, []);
      assert U64(v) + [] == U64(v);
    }

    lemma Slots()
      requires Valid()
      ensures forall k :: k in live ==> k < itemNum
      ensures forall i :: 0 <= i < |chain| ==> chain[i] < itemNum && chain[i] !in live
      ensures allocatedNum < itemNum && chain == [] ==> carved < itemNum && carved !in live
      ensures allocatedNum >= itemNum ==> chain == []
    {
    }

    /** Hands out slot k, or NULL (0) when itemNum items are in use. */
    method Get() returns (p: nat, ghost k: nat)
      requires Valid()
      modifies this, heap
      ensures Valid()
      ensures p == 0 <==> old(allocatedNum) >= itemNum
      ensures p == 0 ==> unchanged(this) && unchanged(heap)
      ensures p != 0 ==> k < itemNum && k !in old(live) && p == Addr(k) && Zeroed(k)
      ensures p != 0 ==> live == old(live) + {k} && allocatedNum == old(allocatedNum) + 1
      ensures p != 0 ==> if old(chain) != [] then k == old(chain[0]) && chain == old(chain[1..])
              && carved == old(carved)
                         else k == old(carved) && chain == [] && carved == old(carved) + 1 && Link(k) == U64(0)
      ensures forall j | j in old(live) :: j < itemNum && Item(j) == old(Item(j))
    {
      hide Offset, Item, Link, Zeroed, U64, Partition;
      Slots();
      k := 0;
      if freeListSize > 0 {
        p, k := Pop();
        return;
      }
      if allocatedNum >= itemNum {
        return 0, 0;
      }
      p, k := Carve();
    }

    /** The first slot of the free chain. */
    method Pop() returns (p: nat, ghost k: nat)
      requires Valid() && chain != []
      modifies this
      ensures Valid() && k < itemNum && k == old(chain[0]) && p == Addr(k) && p != 0 && Zeroed(k)
      ensures live == old(live) + {k} && allocatedNum == old(allocatedNum) + 1
      ensures chain == old(chain[1..]) && carved == old(carved)
      ensures forall j | 0 <= j < itemNum :: Item(j) == old(Item(j))
    {
      hide Offset, Item, Link, Zeroed, U64, Partition;
      Slots();
      k := chain[0];
      p := freeListHead;
      var next := LoadLink(p, k, Ptr(chain, 1));
      freeListHead := next;
      freeListSize := freeListSize - 1;
      allocatedNum := allocatedNum + 1;
      chain, live := chain[1..], live + {k};
      Popped(k);
    }

    /** The next slot of the block that has never been used. */
    method Carve() returns (p: nat, ghost k: nat)
      requires Valid() && chain == [] && carved < itemNum
      modifies this, heap
      ensures Valid() && k < itemNum && k == old(carved) && k !in old(live) && p == Addr(k) && p != 0 && Zeroed(k)
      ensures live == old(live) + {k} && allocatedNum == old(allocatedNum) + 1
      ensures chain == [] && carved == old(carved) + 1 && Link(k) == U64(0)
      ensures forall j | j in old(live) :: j < itemNum && Item(j) == old(Item(j))
    {
      hide Offset, Item, Link, Zeroed, U64, Partition;
      Slots();
      k := carved;
      p := curHeapHead;
      StoreLink(p, k, 0);
      curHeapHead := p + (itemSize + WSIZE);
      allocatedNum := allocatedNum + 1;
      carved, live := carved + 1, live + {k};
      Carved(k);
    }

    twostate lemma Popped(k: nat)
      requires old(Valid() && chain != []) && k == old(chain[0]) && chain == old(chain[1..]) && live == old(live) + {k}
      requires carved == old(carved) && curHeapHead == old(curHeapHead) && heap[..] == old(heap[..])
      requires freeListSize == old(freeListSize) - 1 && allocatedNum == old(allocatedNum) + 1
      requires freeListHead == old(Ptr(chain, 1))
      ensures Valid()
      ensures forall j | 0 <= j < itemNum :: Item(j) == old(Item(j))
    {
      hide Offset, U64, Partition;
      PartitionPop(old(chain), old(live), carved);
      forall j | 0 <= j < itemNum
        ensures Item(j) == old(Item(j)) && Link(j) == old(Link(j))
      {
        SameSlot(j);
      }
      hide Item, Link;
      forall i | 0 <= i < |chain|
        ensures Link(chain[i]) == U64(Ptr(chain, i + 1))
      {
        assert chain[i] == old(chain)[i + 1];
      }
    }

    twostate lemma SameSlot(j: nat)
      requires Sized() && j < itemNum && heap[..] == old(heap[..])
      ensures Item(j) == old(Item(j)) && Link(j) == old(Link(j))
    {
      InBlock(j);
      var a, b, c := Offset(j), Offset(j) + itemSize, Offset(j) + Stride();
      assert heap[a..b] == heap[..][a..b] && heap[b..c] == heap[..][b..c];
    }

    twostate lemma Carved(k: nat)
      requires old(Valid() && chain == [] && carved < itemNum) && k == old(carved)
      requires carved == k + 1 && chain == [] && live == old(live) + {k}
      requires curHeapHead == old(curHeapHead) + Stride()
      requires freeListSize == old(freeListSize) && allocatedNum == old(allocatedNum) + 1
               && freeListHead == old(freeListHead)
      requires OthersKept(k) && Item(k) == old(Item(k))
      ensures Valid() && Zeroed(k) && k !in old(live)
    {
      hide Item, Link, U64;
      assert old(Zeroed(k));
    }

    /** Takes slot k back: its bytes are zeroed and the old head becomes its link. */
    method Put(p: nat, ghost k: nat)
      requires Valid() && k in live && p == Addr(k)
      modifies this, heap
      ensures Valid() && live == old(live) - {k} && chain == [k] + old(chain) && carved == old(carved)
      ensures allocatedNum == old(allocatedNum) - 1
      ensures forall j | j in live :: j < itemNum && Item(j) == old(Item(j))
    {
      hide Offset, Item, Link, U64, Partition;
      Slots();
      StoreItem(p, k, 0, seq(itemSize, i => 0));
      assert Zeroed(k);
      StoreLink(p, k, freeListHead);
      freeListHead := p;
      freeListSize := freeListSize + 1;
      allocatedNum := allocatedNum - 1;
      chain, live := [k] + chain, live - {k};
      Returned(k);
    }

    twostate lemma Returned(k: nat)
      requires old(Valid()) && k in old(live) && chain == [k] + old(chain) && live == old(live) - {k}
      requires carved == old(carved) && curHeapHead == old(curHeapHead)
      requires freeListSize == old(freeListSize) + 1 && allocatedNum == old(allocatedNum) - 1
      requires k < itemNum && freeListHead == Addr(k) && Link(k) == U64(old(Ptr(chain, 0))) && Zeroed(k)
               && OthersKept(k)
      ensures Valid()
    {
      hide Item, Link, Offset, U64, Partition;
      PartitionPush(old(chain), old(live), carved, k);
      forall i | 0 <= i < |chain|
        ensures Link(chain[i]) == U64(Ptr(chain, i + 1))
      {
        if i > 0 { assert chain[i] == old(chain)[i - 1]; }
      }
    }

    /** The owner of slot k stores into its item bytes. */
    method Store(p: nat, ghost k: nat, i: nat, b: bytes)
      requires Valid() && k in live && p == Addr(k) && i + |b| <= itemSize
      modifies heap
      ensures Valid() && Item(k) == old(Item(k))[..i] + b + old(Item(k))[i + |b|..]
      ensures forall j | j in live && j != k :: Item(j) == old(Item(j))
    {
      hide Offset, Item, Link, Sized, U64;
      StoreItem(p, k, i, b);
    }
  }

  /** The free chain and the slots in use share nothing and make up the carved slots. */
  ghost predicate Partition(chain: seq<nat>, live: set<nat>, carved: nat) {
    && (forall i, j :: 0 <= i < j < |chain| ==> chain[i] != chain[j])
    && (forall i :: 0 <= i < |chain| ==> chain[i] < carved && chain[i] !in live)
    && (forall k :: k in live ==> k < carved)
    && (forall k :: 0 <= k < carved ==> k in live || k in chain)
  }

  lemma PartitionPop(chain: seq<nat>, live: set<nat>, carved: nat)
    requires chain != [] && Partition(chain, live, carved)
    ensures Partition(chain[1..], live + {chain[0]}, carved) && chain[0] !in live
    ensures forall i :: 0 <= i < |chain| ==> chain[i] < carved
  {
  }

  lemma PartitionPush(chain: seq<nat>, live: set<nat>, carved: nat, k: nat)
    requires k in live && Partition(chain, live, carved)
    ensures Partition([k] + chain, live - {k}, carved)
    ensures forall i :: 0 <= i < |chain| ==> chain[i] < carved && chain[i] != k
  {
    var c := [k] + chain;
    assert forall i :: 0 < i < |c| ==> c[i] == chain[i - 1];
    assert forall j | j in chain :: j in c;
    assert c[0] == k;
  }

  /** Builds a pool in a block of zero bytes at address base. */
  method LibBufferInit(itemSize: nat, itemNum: nat, base: nat) returns (pool: LibBuffer?)
    requires 0 < base && base + (itemSize + WSIZE) * itemNum < 0x1_0000_0000_0000_0000
    ensures pool == null <==> itemSize == 0 || itemNum == 0
    ensures pool != null ==>
              && pool.Valid() && fresh(pool) && fresh(pool.heap) && pool.live == {} && pool.chain == []
              && pool.itemSize == itemSize && pool.itemNum == itemNum
  {
    if itemSize == 0 || itemNum == 0 { return null; }
    pool := new LibBuffer(itemSize, itemNum, base);
  }
}
