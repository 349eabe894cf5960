/** int_hash: buckets of list nodes, an insertion-order list through the same
    items, and a pool that holds exactly the items of the table. */
module IntHashes {
  import opened Bytes
  import opened Options
  import opened DoubleLists
  import opened LibBuffers

  const ITEM_HEADER := 64  // sizeof(INT_HASH_ITEM)

  /** An item in a pool slot: it sits in a bucket list and in the iteration list. */
  class HashItem {
    const hashKey: int
    const mapIndex: nat
    const addr: nat
    ghost const slot: nat
    const listNode: Node<HashItem?>
    const iterNode: Node<HashItem?>
    var value: bytes

    constructor (key: int, index: nat, v: bytes, p: nat, ghost k: nat)
      ensures hashKey == key && mapIndex == index && value == v && addr == p && slot == k
      ensures fresh(listNode) && fresh(iterNode) && listNode != iterNode
      ensures listNode.pdata == this && iterNode.pdata == this
    {
      hashKey, mapIndex, value, addr, slot := key, index, v, p, k;
      listNode := new Node(null);
      iterNode := new Node(null);
      new;
      listNode.pdata := this;
      iterNode.pdata := this;
    }
  }

  type ItemList = DoubleList<HashItem?>

  class IntHashTable {
    const capacity: nat
    const entryNum: nat
    const dataSize: nat
    const hashFunc: int -> nat
    const hashMap: seq<ItemList>
    const iterList: ItemList
    const bufPool: LibBuffer
    var itemNum: nat
    ghost var entries: seq<HashItem>  // in insertion order

    /** The nodes of all bucket lists. */
    ghost function BucketNodes(): set<Node<HashItem?>>
      reads hashMap
    {
      set b, n | b in hashMap && n in b.nodes :: n
    }

    ghost predicate Valid()
      reads this, hashMap, BucketNodes(), iterList, iterList.nodes, bufPool, bufPool.heap, entries,
            set e | e in entries :: e.listNode, set e | e in entries :: e.iterNode
    {
      Sound() && PoolOk()
    }

    /** Everything but the pool: each item is in its key's bucket and once in the
        iteration list, no key occurs twice, and nothing else is in any bucket. */
    ghost predicate Sound()
      reads this, hashMap, BucketNodes(), iterList, iterList.nodes, entries,
            set e | e in entries :: e.listNode, set e | e in entries :: e.iterNode
    {
      && Fixed()
      && itemNum == |entries|
      && (forall i :: 0 <= i < |entries| ==> ItemOk(entries[i]))
      && (forall i, j :: 0 <= i < j < |entries| ==> entries[i].hashKey != entries[j].hashKey)
      && BucketsOk()
      && IterOk()
    }

    ghost predicate BucketsOk()
      requires Fixed()
      reads this, hashMap, BucketNodes()
    {
      forall b | 0 <= b < entryNum :: InBuckets(b); BucketOk(b)
    }

    lemma InBuckets(b: nat)
      requires Fixed() && b < entryNum
      ensures forall n | n in hashMap[b].nodes :: n in BucketNodes()
    {
    }

    ghost predicate IterOk()
      reads this, iterList, iterList.nodes
    {
      && |iterList.nodes| == |entries|
      && (forall i :: 0 <= i < |entries| ==> iterList.nodes[i] == entries[i].iterNode)
      && iterList.Valid()
    }

    ghost predicate Fixed() {
      && capacity > 0 && entryNum == 8 * capacity && |hashMap| == entryNum
      && iterList !in hashMap
      && (forall b, c :: 0 <= b < c < entryNum ==> hashMap[b] != hashMap[c])
    }

    ghost predicate ItemOk(e: HashItem)
      requires Fixed()
      reads hashMap, e.listNode, e.iterNode
    {
      && e.mapIndex == hashFunc(e.hashKey) % entryNum
      && e.listNode in hashMap[e.mapIndex].nodes
      && e.listNode.pdata == e && e.iterNode.pdata == e && e.listNode != e.iterNode
    }

    ghost predicate BucketOk(b: nat)
      requires Fixed() && b < entryNum
      reads this, hashMap, hashMap[b].nodes
    {
      && (forall n | n in hashMap[b].nodes :: exists e :: e in entries && e.listNode == n && e.mapIndex == b)
      && hashMap[b].Valid()
    }

    /** The pool's slots in use are those of the items, one each. */
    ghost predicate PoolOk()
      reads this, bufPool, bufPool.heap
    {
      && bufPool.Valid() && bufPool.itemNum == capacity && bufPool.allocatedNum == itemNum
      && SlotsOk(entries, bufPool.live)
    }

    ghost predicate SlotsOk(es: seq<HashItem>, live: set<nat>) {
      && (forall i :: 0 <= i < |es| ==> es[i].slot in live && es[i].addr == bufPool.Addr(es[i].slot))
      && (forall i, j :: 0 <= i < j < |es| ==> es[i].slot != es[j].slot)
    }

    lemma SlotsAdd(es: seq<HashItem>, live: set<nat>, e: HashItem)
      requires SlotsOk(es, live) && e.slot !in live && e.addr == bufPool.Addr(e.slot)
      ensures SlotsOk(es + [e], live + {e.slot})
    {
    }

    lemma SlotsRemove(es: seq<HashItem>, live: set<nat>, i: nat)
      requires SlotsOk(es, live) && i < |es|
      ensures es[i].slot in live && es[i].addr == bufPool.Addr(es[i].slot)
      ensures SlotsOk(RemoveAt(es, i), live - {es[i].slot})
    {
    }

    constructor (capacity: nat, dataSize: nat, hash: int -> nat, map0: seq<ItemList>, iter: ItemList, pool: LibBuffer)
      requires capacity > 0 && |map0| == 8 * capacity && iter !in map0
      requires forall b, c :: 0 <= b < c < |map0| ==> map0[b] != map0[c]
      requires forall b :: 0 <= b < |map0| ==> map0[b].Valid() && map0[b].nodes == []
      requires iter.Valid() && iter.nodes == []
      requires pool.Valid() && pool.itemNum == capacity && pool.allocatedNum == 0
      ensures Valid() && entries == []
      ensures this.capacity == capacity && this.dataSize == dataSize && hashFunc == hash
      ensures hashMap == map0 && iterList == iter && bufPool == pool
    {
      this.capacity, this.entryNum, this.dataSize := capacity, 8 * capacity, dataSize;
      hashFunc, hashMap, iterList, bufPool := hash, map0, iter, pool;
      itemNum, entries := 0, [];
    }

    /** The node at position i of bucket b belongs to an item of the table. */
    lemma BucketNode(b: nat, i: nat) returns (e: HashItem)
      requires Sound() && b < entryNum && i < |hashMap[b].nodes|
      ensures e in entries && hashMap[b].nodes[i] == e.listNode && e.listNode.pdata == e && e.mapIndex == b
    {
      var n := hashMap[b].nodes[i];
      assert BucketOk(b) && n in hashMap[b].nodes;
      e :| e in entries && e.listNode == n && e.mapIndex == b;
      var j :| 0 <= j < |entries| && entries[j] == e;
      assert ItemOk(entries[j]);
    }

    /** An item's list node stands in the bucket of its key. */
    lemma ItemNode(e: HashItem) returns (i: nat)
      requires Sound() && e in entries
      ensures var b := hashFunc(e.hashKey) % entryNum;
              b == e.mapIndex && i < |hashMap[b].nodes| && hashMap[b].nodes[i] == e.listNode && e.listNode.pdata == e
    {
      var j :| 0 <= j < |entries| && entries[j] == e;
      assert ItemOk(entries[j]);
      i :| 0 <= i < |hashMap[e.mapIndex].nodes| && hashMap[e.mapIndex].nodes[i] == e.listNode;
    }

    /** Walks bucket b once around; the node it stops at holds the key's item. */
    method FindInBucket(key: int) returns (n: Node?<HashItem?>, ghost at: nat)
      requires Sound()
      ensures n == null <==> forall e | e in entries :: e.hashKey != key
      ensures n != null ==>
                var b := hashFunc(key) % entryNum;
                && at < |hashMap[b].nodes| && hashMap[b].nodes[at] == n
                && n.pdata != null && n.pdata in entries && n.pdata.hashKey == key && n.pdata.listNode == n
    {
      var b := hashFunc(key) % entryNum;
      var list := hashMap[b];
      at := 0;
      n := list.phead;
      assert BucketOk(b);
      if n == null {
        Absent(key, b);
        return;
      }
      ghost var e := BucketNode(b, 0);
      if n.pdata.hashKey == key { return; }
      at := 1;
      n := n.pnext;
      while n != list.phead
        invariant 1 <= at <= |list.nodes|
        invariant n == if at == |list.nodes| then list.phead else list.nodes[at]
        invariant forall i :: 0 <= i < at ==> list.nodes[i].pdata != null && list.nodes[i].pdata.hashKey != key
        decreases |list.nodes| - at
      {
        e := BucketNode(b, at);
        if n.pdata.hashKey == key { return; }
        n := n.pnext;
        at := at + 1;
      }
      Absent(key, b);
      n := null;
    }

    lemma Absent(key: int, b: nat)
      requires Sound() && b == hashFunc(key) % entryNum
      requires forall i :: 0 <= i < |hashMap[b].nodes| ==>
                 hashMap[b].nodes[i].pdata != null && hashMap[b].nodes[i].pdata.hashKey != key
      ensures forall e | e in entries :: e.hashKey != key
    {
      forall e | e in entries
        ensures e.hashKey != key
      {
        if e.hashKey == key { var i := ItemNode(e); }
      }
    }

    lemma Sizes(b: nat)
      requires Sound()
      ensures Fixed() && 0 < entryNum == |hashMap| && itemNum == |entries| == |iterList.nodes|
    {
    }

    /** Every node of a list leads back to its item, so no node is in two lists. */
    lemma Apart(b: nat)
      requires Sound() && b < entryNum
      ensures hashMap[b].Valid() && iterList.Valid() && hashMap[b] != iterList
      ensures forall c | 0 <= c < entryNum && c != b ::
                hashMap[c] != hashMap[b] && Disjoint(hashMap[c].nodes, hashMap[b].nodes)
      ensures forall c | 0 <= c < entryNum ::
                hashMap[c] != iterList && hashMap[c].Valid() && Disjoint(hashMap[c].nodes, iterList.nodes)
    {
      forall c | 0 <= c < entryNum
        ensures hashMap[c].Valid() && Disjoint(hashMap[c].nodes, iterList.nodes)
      {
        assert BucketOk(c);
        forall n | n in hashMap[c].nodes ensures n !in iterList.nodes { BucketOrIter(c, n); }
      }
      forall c | 0 <= c < entryNum && c != b
        ensures Disjoint(hashMap[c].nodes, hashMap[b].nodes)
      {
        forall n | n in hashMap[c].nodes ensures n !in hashMap[b].nodes { OneBucket(c, b, n); }
      }
    }

    lemma OneBucket(c: nat, b: nat, n: Node<HashItem?>)
      requires Sound() && b < entryNum && c < entryNum && c != b && n in hashMap[c].nodes
      ensures n !in hashMap[b].nodes
    {
      var e := Owner(c, n);
      if n in hashMap[b].nodes { var f := Owner(b, n); }
    }

    lemma BucketOrIter(c: nat, n: Node<HashItem?>)
      requires Sound() && c < entryNum && n in hashMap[c].nodes
      ensures n !in iterList.nodes
    {
      var e := Owner(c, n);
      forall i | 0 <= i < |iterList.nodes| ensures iterList.nodes[i] != n { assert ItemOk(entries[i]); }
    }

    lemma Owner(b: nat, n: Node<HashItem?>) returns (e: HashItem)
      requires Sound() && b < entryNum && n in hashMap[b].nodes
      ensures e in entries && n == e.listNode && n.pdata == e && e.mapIndex == b && e.iterNode != n
    {
      var i :| 0 <= i < |hashMap[b].nodes| && hashMap[b].nodes[i] == n;
      e := BucketNode(b, i);
      var j :| 0 <= j < |entries| && entries[j] == e;
      assert ItemOk(entries[j]);
    }

    /** The nodes of an item that is not in the table are in no list. */
    lemma NewNodes(e: HashItem)
      requires Sound() && e !in entries && e.listNode.pdata == e && e.iterNode.pdata == e
      ensures forall c | 0 <= c < entryNum :: e.listNode !in hashMap[c].nodes && e.iterNode !in hashMap[c].nodes
      ensures e.listNode !in iterList.nodes && e.iterNode !in iterList.nodes
    {
      forall c | 0 <= c < entryNum
        ensures e.listNode !in hashMap[c].nodes && e.iterNode !in hashMap[c].nodes
      {
        if e.listNode in hashMap[c].nodes { var f := Owner(c, e.listNode); }
        if e.iterNode in hashMap[c].nodes { var f := Owner(c, e.iterNode); }
      }
      forall i | 0 <= i < |iterList.nodes|
        ensures iterList.nodes[i] != e.listNode && iterList.nodes[i] != e.iterNode
      {
        assert ItemOk(entries[i]);
      }
    }

    /** Puts a new item into its bucket and at the end of the iteration list. */
    method Link(e: HashItem)
      requires Sound() && e.mapIndex == hashFunc(e.hashKey) % entryNum
      requires forall x | x in entries :: x.hashKey != e.hashKey
      requires e.listNode.pdata == e && e.iterNode.pdata == e && e.listNode != e.iterNode
      modifies this`entries, this`itemNum, iterList, iterList.nodes`pnext, iterList.nodes`pprev
      modifies e.iterNode`pnext, e.iterNode`pprev
      modifies hashMap[e.mapIndex], hashMap[e.mapIndex].nodes`pnext, hashMap[e.mapIndex].nodes`pprev
      modifies e.listNode`pnext, e.listNode`pprev
      ensures Sound() && entries == old(entries) + [e]
      ensures Repr() <= old(Repr()) + {e.listNode, e.iterNode}
    {
      hide Sound, Repr;
      Sizes(e.mapIndex);
      InsertNodes(e);
      itemNum := itemNum + 1;
      entries := entries + [e];
      Linked(e);
      ReprAfterLink(e);
    }

    method InsertNodes(e: HashItem)
      requires Sound() && e !in entries && e.mapIndex < entryNum == |hashMap|
      requires e.listNode.pdata == e && e.iterNode.pdata == e && e.listNode != e.iterNode
      modifies iterList, iterList.nodes`pnext, iterList.nodes`pprev, e.iterNode`pnext, e.iterNode`pprev
      modifies hashMap[e.mapIndex], hashMap[e.mapIndex].nodes`pnext, hashMap[e.mapIndex].nodes`pprev
      modifies e.listNode`pnext, e.listNode`pprev
      ensures iterList.Valid() && iterList.nodes == old(iterList.nodes) + [e.iterNode]
      ensures hashMap[e.mapIndex].nodes == [e.listNode] + old(hashMap[e.mapIndex].nodes)
      ensures forall c | 0 <= c < entryNum && c != e.mapIndex :: hashMap[c].nodes == old(hashMap[c].nodes)
      ensures forall c | 0 <= c < entryNum :: hashMap[c].Valid()
    {
      hide Sound, iterList.Valid;
      var list := hashMap[e.mapIndex];
      Apart(e.mapIndex);
      NewNodes(e);
      list.InsertAsHead(e.listNode);
      forall c | 0 <= c < entryNum && c != e.mapIndex ensures hashMap[c].Valid() { hashMap[c].Untouched(); }
      iterList.Untouched();
      label Inserted:
      iterList.AppendAsTail(e.iterNode);
      forall c | 0 <= c < entryNum ensures hashMap[c].Valid() { hashMap[c].Untouched@Inserted(); }
    }

    twostate lemma ReprAfterLink(e: HashItem)
      requires Fixed() && e.mapIndex < entryNum
      requires hashMap[e.mapIndex].nodes == [e.listNode] + old(hashMap[e.mapIndex].nodes)
      requires forall c | 0 <= c < entryNum && c != e.mapIndex :: hashMap[c].nodes == old(hashMap[c].nodes)
      requires iterList.nodes == old(iterList.nodes) + [e.iterNode]
      ensures Repr() <= old(Repr()) + {e.listNode, e.iterNode}
    {
      forall n | n in BucketNodes() ensures n in old(BucketNodes()) + {e.listNode} {
        var c :| 0 <= c < entryNum && n in hashMap[c].nodes;
        assert hashMap[c] in hashMap;
      }
    }

    twostate lemma Linked(e: HashItem)
      requires old(Sound()) && e.mapIndex == hashFunc(e.hashKey) % entryNum
      requires forall x | x in old(entries) :: x.hashKey != e.hashKey
      requires e.listNode.pdata == e && e.iterNode.pdata == e && e.listNode != e.iterNode
      requires itemNum == old(itemNum) + 1 && entries == old(entries) + [e]
      requires hashMap[e.mapIndex].Valid() && hashMap[e.mapIndex].nodes == [e.listNode] + old(hashMap[e.mapIndex].nodes)
      requires forall c | 0 <= c < entryNum && c != e.mapIndex ::
                 hashMap[c].Valid() && hashMap[c].nodes == old(hashMap[c].nodes)
      requires iterList.Valid() && iterList.nodes == old(iterList.nodes) + [e.iterNode]
      requires forall x | x in old(entries) ::
                 x.listNode.pdata == old(x.listNode.pdata) && x.iterNode.pdata == old(x.iterNode.pdata)
      ensures Sound()
    {
      forall i | 0 <= i < |entries| ensures ItemOk(entries[i]) {
        if i < |old(entries)| { assert old(ItemOk(entries[i])); }
      }
      forall b | 0 <= b < entryNum ensures BucketOk(b) {
        assert old(BucketOk(b));
        forall n | n in hashMap[b].nodes ensures exists x :: x in entries && x.listNode == n && x.mapIndex == b {
          if b == e.mapIndex && n == e.listNode {
            assert e in entries;
          } else {
            assert n in old(hashMap[b].nodes);
            var x :| x in old(entries) && x.listNode == n && x.mapIndex == b;
            assert x in entries;
          }
        }
      }
    }

    /** Takes the item at position i out of both of its lists. */
    method Unlink(e: HashItem, ghost i: nat)
      requires Sound() && i < |entries| && entries[i] == e
      modifies this`entries, this`itemNum, iterList, iterList.nodes`pnext, iterList.nodes`pprev
      modifies hashMap[e.mapIndex], hashMap[e.mapIndex].nodes`pnext, hashMap[e.mapIndex].nodes`pprev
      ensures Sound() && entries == RemoveAt(old(entries), i)
      ensures iterList.nodes == RemoveAt(old(iterList.nodes), i)
      ensures Repr() <= old(Repr())
    {
      hide Sound, iterList.Valid, Repr, RemoveAt;
      ghost var at := ItemNode(e);
      Sizes(e.mapIndex);
      IterNodeAt(i);
      RemoveNodes(e, i, at);
      itemNum := itemNum - 1;
      entries := RemoveAt(entries, i);
      Unlinked(e, i, at);
    }

    twostate lemma ReprAfterUnlink(e: HashItem, new i: nat, new at: nat)
      requires Fixed() && old(Sound()) && UnlinkStep(old(entries), e, i, at)
      ensures Repr() <= old(Repr())
    {
      forall n | n in BucketNodes() ensures n in old(BucketNodes()) {
        var c :| 0 <= c < entryNum && n in hashMap[c].nodes;
        assert hashMap[c] in hashMap && n in old(hashMap[c].nodes);
      }
    }

    method RemoveNodes(e: HashItem, ghost i: nat, ghost at: nat)
      requires Sound() && Fixed() && e.mapIndex < entryNum
      requires i < |iterList.nodes| && iterList.nodes[i] == e.iterNode
      requires at < |hashMap[e.mapIndex].nodes| && hashMap[e.mapIndex].nodes[at] == e.listNode
      modifies iterList, iterList.nodes`pnext, iterList.nodes`pprev
      modifies hashMap[e.mapIndex], hashMap[e.mapIndex].nodes`pnext, hashMap[e.mapIndex].nodes`pprev
      ensures NodesGone(entries, e, i, at)
    {
      hide Sound, iterList.Valid, RemoveAt;
      Sizes(0);
      var list := hashMap[e.mapIndex];
      Apart(e.mapIndex);
      list.Remove(e.listNode, at);
      forall c | 0 <= c < entryNum && c != e.mapIndex ensures hashMap[c].Valid() { hashMap[c].Untouched(); }
      iterList.Untouched();
      DisjointRemoved(old(list.nodes), at, iterList.nodes);
      label Removed:
      iterList.Remove(e.iterNode, i);
      forall c | 0 <= c < entryNum ensures hashMap[c].Valid() { hashMap[c].Untouched@Removed(); }
    }

    /** Both lists of an item have lost its node, and are lists still. */
    twostate predicate NodesGone(items: seq<HashItem>, e: HashItem, i: nat, at: nat)
      requires Fixed() && e.mapIndex < entryNum
      reads hashMap, BucketNodes(), iterList, iterList.nodes,
            set x | x in items :: x.listNode, set x | x in items :: x.iterNode
    {
      && iterList.Valid() && (forall c | 0 <= c < entryNum :: InBuckets(c); hashMap[c].Valid())
      && i < |old(iterList.nodes)| && iterList.nodes == RemoveAt(old(iterList.nodes), i)
      && (var l := hashMap[e.mapIndex]; var ns := old(hashMap[e.mapIndex].nodes);
          at < |ns| && ns[at] == e.listNode && l.nodes == RemoveAt(ns, at))
      && (forall c | 0 <= c < entryNum && c != e.mapIndex :: hashMap[c].nodes == old(hashMap[c].nodes))
      && (forall x | x in items ::
            x.listNode.pdata == old(x.listNode.pdata) && x.iterNode.pdata == old(x.iterNode.pdata))
    }

    /** The state after both removals, before the invariant is known to hold again. */
    twostate predicate UnlinkStep(items: seq<HashItem>, e: HashItem, i: nat, at: nat)
      requires old(Sound())
      reads this, hashMap, BucketNodes(), iterList, iterList.nodes,
            set x | x in items :: x.listNode, set x | x in items :: x.iterNode
    {
      && items == old(entries) && i < |items| && items[i] == e && e.mapIndex < |hashMap|
      && itemNum == old(itemNum) - 1 && entries == RemoveAt(items, i)
      && NodesGone(items, e, i, at)
    }

    twostate lemma ItemStays(e: HashItem, new i: nat, new at: nat, new x: HashItem)
      requires old(Sound()) && UnlinkStep(old(entries), e, i, at) && x in old(entries) && x in entries && x != e
      ensures ItemOk(x)
    {
      var k :| 0 <= k < |old(entries)| && old(entries)[k] == x;
      assert old(ItemOk(entries[k])) && old(ItemOk(entries[i]));
      if x.mapIndex == e.mapIndex {
        StillThere(x.listNode, old(hashMap[e.mapIndex].nodes), at, e.listNode);
      }
    }

    twostate lemma BucketStays(e: HashItem, new i: nat, new at: nat, new b: nat)
      requires old(Sound()) && UnlinkStep(old(entries), e, i, at) && b < entryNum
      ensures BucketOk(b)
    {
      assert old(BucketOk(b));
      var ns := old(hashMap[b].nodes);
      forall n | n in hashMap[b].nodes ensures exists x :: x in entries && x.listNode == n && x.mapIndex == b {
        assert n in ns;
        var x :| x in old(entries) && x.listNode == n && x.mapIndex == b;
        if x == e {
          assert old(hashMap[b].Valid());
          RemovedDistinct(ns, at);
          assert false;
        }
        StillThere(x, old(entries), i, e);
      }
    }

    twostate lemma Unlinked(e: HashItem, new i: nat, new at: nat)
      requires old(Sound()) && UnlinkStep(old(entries), e, i, at)
      ensures Sound() && Repr() <= old(Repr()) && iterList.nodes == RemoveAt(old(iterList.nodes), i)
    {
      hide iterList.Valid;
      ReprAfterUnlink(e, i, at);
      forall j | 0 <= j < |entries| ensures ItemOk(entries[j]) {
        assert entries[j] == old(entries)[if j < i then j else j + 1] && entries[j].hashKey != e.hashKey;
        ItemStays(e, i, at, entries[j]);
      }
      forall b | 0 <= b < entryNum ensures BucketOk(b) { BucketStays(e, i, at, b); }
    }

    lemma StillThere<T>(x: T, s: seq<T>, k: nat, gone: T)
      requires x in s && k < |s| && s[k] == gone && x != gone
      ensures x in RemoveAt(s, k)
    {
      var j :| 0 <= j < |s| && s[j] == x;
      assert RemoveAt(s, k)[if j < k then j else j - 1] == x;
    }

    ghost function Repr(): set<object>
      reads this, hashMap, iterList
    {
      {this, iterList, bufPool, bufPool.heap} + (set b | b in hashMap) + BucketNodes() + (set n | n in iterList.nodes)
    }

    /** The table's contents, in the order the keys were added. */
    ghost function Pairs(): (ps: seq<(int, bytes)>)
      reads this, entries
      ensures |ps| == |entries|
      ensures forall i :: 0 <= i < |entries| ==> ps[i] == (entries[i].hashKey, entries[i].value)
    {
      seq(|entries|, i requires 0 <= i < |entries| reads this, entries => (entries[i].hashKey, entries[i].value))
    }

    /** 1 on success; -1 no value; -2 full (even for a key already there); -4 the
        key exists. The pool never runs dry first, so -3 is not among the results. */
    method Add(key: int, value: Option<bytes>) returns (r: int)
      requires Valid() && (value.Some? ==> |value.value| == dataSize)
      modifies Repr()
      ensures Valid() && (forall o | o in Repr() :: o in old(Repr()) || fresh(o))
      ensures r == if value.None? then -1 else if old(itemNum) >= capacity then -2
                   else if HasKey(old(Pairs()), key) then -4 else 1
      ensures Pairs() == old(Pairs()) + if r == 1 then [(key, value.value)] else []
    {
      if value.None? { return -1; }
      if itemNum >= capacity { return -2; }
      r := Insert(key, value.value);
    }

    method Insert(key: int, value: bytes) returns (r: int)
      requires Valid() && itemNum < capacity
      modifies Repr()
      ensures Valid() && (forall o | o in Repr() :: o in old(Repr()) || fresh(o))
      ensures r == if HasKey(old(Pairs()), key) then -4 else 1
      ensures Pairs() == old(Pairs()) + if r == 1 then [(key, value)] else []
    {
      hide Sound, SlotsOk, HasKey, Repr, Pairs, bufPool.Valid;
      InRepr(0);
      var p, k := TakeSlot();
      if p == 0 { return -3; }
      r := Place(key, value, p, k, old(bufPool.live));
    }

    /** With slot k in hand: fill and link it, or give it back for a key already there. */
    method Place(key: int, value: bytes, p: nat, ghost k: nat, ghost others: set<nat>) returns (r: int)
      requires Sound() && HoldsSpare(p, k, others)
      modifies Repr()
      ensures Valid() && (forall o | o in Repr() :: o in old(Repr()) || fresh(o))
      ensures r == if HasKey(old(Pairs()), key) then -4 else 1
      ensures Pairs() == old(Pairs()) + if r == 1 then [(key, value)] else []
    {
      hide Sound, SlotsOk, Repr, Pairs, HasKey, bufPool.Valid;
      KeyInPairs(key);
      InRepr(0);
      var n, at := FindInBucket(key);
      SoundKept();
      if n != null {
        PutBack(p, k, others);
        return -4;
      }
      AddNew(key, value, p, k, others);
      return 1;
    }

    method PutBack(p: nat, ghost k: nat, ghost others: set<nat>)
      requires Sound() && HoldsSpare(p, k, others)
      modifies bufPool, bufPool.heap
      ensures Valid() && Repr() == old(Repr()) && Pairs() == old(Pairs())
    {
      hide Sound, SlotsOk, Repr, Pairs, bufPool.Valid;
      GiveSlot(p, k);
      assert bufPool.live == others;
    }

    method AddNew(key: int, value: bytes, p: nat, ghost k: nat, ghost others: set<nat>)
      requires Sound() && HoldsSpare(p, k, others) && forall x | x in entries :: x.hashKey != key
      modifies Repr()
      ensures Valid() && (forall o | o in Repr() :: o in old(Repr()) || fresh(o))
              && Pairs() == old(Pairs()) + [(key, value)]
    {
      hide Sound, SlotsOk, Repr, Pairs, bufPool.Valid;
      Sizes(0);
      var e := NewItem(key, hashFunc(key) % entryNum, value, p, k, others);
      SlotsAdd(entries, others, e);
      AddItem(e);
    }

    /** The pool has handed out one slot more than the table has items. */
    ghost predicate HoldsSpare(p: nat, k: nat, others: set<nat>)
      reads this, bufPool, bufPool.heap
    {
      && bufPool.Valid() && bufPool.itemNum == capacity && bufPool.allocatedNum == itemNum + 1
      && SlotsOk(entries, others) && k !in others && bufPool.live == others + {k} && p == bufPool.Addr(k)
    }

    method NewItem(key: int, index: nat, value: bytes, p: nat, ghost k: nat, ghost others: set<nat>)
      returns (e: HashItem)
      requires Sound() && HoldsSpare(p, k, others)
      ensures Sound() && HoldsSpare(p, k, others) && Repr() == old(Repr()) && Pairs() == old(Pairs())
      ensures fresh(e) && fresh(e.listNode) && fresh(e.iterNode) && e.listNode != e.iterNode
      ensures e.listNode.pdata == e && e.iterNode.pdata == e
      ensures e.hashKey == key && e.mapIndex == index && e.value == value && e.addr == p && e.slot == k
    {
      hide Sound, SlotsOk, Repr, Pairs, bufPool.Valid;
      e := new HashItem(key, index, value, p, k);
      SoundKept();
    }

    /** lib_buffer_get and lib_buffer_put, which leave the lists alone. */
    method TakeSlot() returns (p: nat, ghost k: nat)
      requires Sound() && bufPool.Valid()
      modifies bufPool, bufPool.heap
      ensures Sound() && bufPool.Valid() && Repr() == old(Repr()) && Pairs() == old(Pairs())
      ensures p == 0 <==> old(bufPool.allocatedNum) >= bufPool.itemNum
      ensures p != 0 ==> k !in old(bufPool.live) && p == bufPool.Addr(k) && bufPool.live == old(bufPool.live) + {k}
      ensures p != 0 ==> bufPool.allocatedNum == old(bufPool.allocatedNum) + 1
    {
      hide Sound, bufPool.Valid, Repr;
      p, k := bufPool.Get();
      SoundKept();
    }

    method GiveSlot(p: nat, ghost k: nat)
      requires Sound() && bufPool.Valid() && k in bufPool.live && p == bufPool.Addr(k)
      modifies bufPool, bufPool.heap
      ensures Sound() && bufPool.Valid() && Repr() == old(Repr()) && Pairs() == old(Pairs())
      ensures bufPool.live == old(bufPool.live) - {k} && bufPool.allocatedNum == old(bufPool.allocatedNum) - 1
    {
      hide Sound, bufPool.Valid, Repr;
      bufPool.Put(p, k);
      SoundKept();
    }

    method AddItem(e: HashItem)
      requires Sound() && e.mapIndex == hashFunc(e.hashKey) % entryNum
      requires forall x | x in entries :: x.hashKey != e.hashKey
      requires e.listNode.pdata == e && e.iterNode.pdata == e && e.listNode != e.iterNode
      modifies Repr(), e.listNode, e.iterNode
      ensures Sound() && entries == old(entries) + [e] && itemNum == old(itemNum) + 1
      ensures Repr() <= old(Repr()) + {e.listNode, e.iterNode}
      ensures Pairs() == old(Pairs()) + [(e.hashKey, e.value)]
      ensures unchanged(bufPool) && unchanged(bufPool.heap) && e.value == old(e.value)
    {
      hide Sound, Repr, Pairs;
      InRepr(e.mapIndex);
      Sizes(0);
      Link(e);
      Sizes(0);
      PairsAdded(e);
    }

    /** Takes an item out of its lists and gives its slot back. */
    method RemoveItem(e: HashItem, ghost i: nat)
      requires Valid() && i < |entries| && entries[i] == e
      modifies Repr()
      ensures Valid() && entries == RemoveAt(old(entries), i) && itemNum == old(itemNum) - 1
      ensures iterList.nodes == RemoveAt(old(iterList.nodes), i)
      ensures Repr() <= old(Repr()) && Pairs() == RemoveAt(old(Pairs()), i)
    {
      hide SlotsOk, Sound, bufPool.Valid;
      SlotsRemove(entries, bufPool.live, i);
      DropItem(e, i);
      GiveSlot(e.addr, e.slot);
    }

    method DropItem(e: HashItem, ghost i: nat)
      requires Sound() && i < |entries| && entries[i] == e
      modifies Repr()
      ensures Sound() && entries == RemoveAt(old(entries), i) && itemNum == old(itemNum) - 1
      ensures iterList.nodes == RemoveAt(old(iterList.nodes), i)
      ensures Repr() <= old(Repr()) && Pairs() == RemoveAt(old(Pairs()), i)
      ensures unchanged(bufPool) && unchanged(bufPool.heap)
    {
      hide Sound, Repr, Pairs, RemoveAt;
      InRepr(e.mapIndex);
      Sizes(0);
      ItemBucket(e, i);
      Unlink(e, i);
      Sizes(0);
      PairsRemoved(i);
    }

    twostate lemma PairsRemoved(i: nat)
      requires i < |old(entries)| && entries == RemoveAt(old(entries), i)
      requires forall x | x in old(entries) :: x.value == old(x.value)
      ensures Pairs() == RemoveAt(old(Pairs()), i)
    {
    }

    twostate lemma PairsAdded(new e: HashItem)
      requires entries == old(entries) + [e]
      requires forall x | x in old(entries) :: x.value == old(x.value)
      ensures Pairs() == old(Pairs()) + [(e.hashKey, e.value)]
    {
    }

    lemma IterNodeAt(i: nat)
      requires Sound() && i < |entries|
      ensures iterList.nodes[i] == entries[i].iterNode
    {
    }

    lemma ItemBucket(e: HashItem, i: nat)
      requires Sound() && i < |entries| && entries[i] == e
      ensures e.mapIndex < |hashMap|
    {
      assert ItemOk(entries[i]);
    }

    lemma InRepr(b: nat)
      ensures this in Repr() && iterList in Repr() && bufPool in Repr() && bufPool.heap in Repr()
      ensures forall n | n in iterList.nodes :: n in Repr()
      ensures b < |hashMap| ==> hashMap[b] in Repr() && forall n | n in hashMap[b].nodes :: n in Repr()
    {
      if b < |hashMap| { assert hashMap[b] in hashMap; }
    }

    /** Writing outside the table's objects leaves it as it was. */
    twostate lemma Kept()
      requires old(Valid()) && unchanged(this) && unchanged(bufPool) && unchanged(bufPool.heap) && unchanged(iterList)
      requires forall b | b in hashMap :: unchanged(b)
      requires forall n | n in old(BucketNodes()) :: unchanged(n)
      requires forall n | n in iterList.nodes :: unchanged(n)
      requires forall e | e in entries :: unchanged(e) && unchanged(e.listNode) && unchanged(e.iterNode)
      ensures Valid() && Pairs() == old(Pairs()) && Repr() == old(Repr())
    {
      hide Sound, Repr, Pairs;
      SoundKept();
    }

    /** Sound() does not look at the pool. */
    twostate lemma SoundKept()
      requires old(Sound()) && entries == old(entries) && itemNum == old(itemNum) && unchanged(iterList)
      requires forall b | b in hashMap :: unchanged(b)
      requires forall n | n in old(BucketNodes()) :: unchanged(n)
      requires forall n | n in iterList.nodes :: unchanged(n)
      requires forall e | e in entries :: unchanged(e) && unchanged(e.listNode) && unchanged(e.iterNode)
      ensures Sound() && Pairs() == old(Pairs()) && Repr() == old(Repr())
    {
      forall b | 0 <= b < entryNum
        ensures BucketOk(b) && hashMap[b].nodes == old(hashMap[b].nodes)
      {
        assert hashMap[b] in hashMap && old(BucketOk(b));
        hashMap[b].Untouched();
      }
      forall i | 0 <= i < |entries| ensures ItemOk(entries[i]) {
        assert old(ItemOk(entries[i])) && entries[i] in entries;
      }
      iterList.Untouched();
      assert BucketNodes() == old(BucketNodes());
    }

    lemma KeyInPairs(key: int)
      ensures HasKey(Pairs(), key) <==> exists e :: e in entries && e.hashKey == key
    {
      if e :| e in entries && e.hashKey == key {
        var i :| 0 <= i < |entries| && entries[i] == e;
        assert Pairs()[i].0 == key;
      }
      if HasKey(Pairs(), key) {
        var i :| 0 <= i < |Pairs()| && Pairs()[i].0 == key;
        assert entries[i] in entries;
      }
    }

    lemma PairsDistinct()
      requires Sound()
      ensures DistinctKeys(Pairs())
    {
    }

    /** The item whose value the caller may then read or write, or NULL. */
    method Query(key: int) returns (e: HashItem?)
      requires Valid()
      ensures e == null <==> !HasKey(Pairs(), key)
      ensures e != null ==> e in entries && Lookup(Pairs(), key) == Some(e.value)
    {
      hide Sound, HasKey, Lookup, Pairs;
      KeyInPairs(key);
      PairsDistinct();
      var n, at := FindInBucket(key);
      if n == null { return null; }
      e := n.pdata;
      ghost var i :| 0 <= i < |entries| && entries[i] == e;
      LookupAt(Pairs(), i);
    }

    /** 1 when the key was there, -2 when it was not. */
    method Remove(key: int) returns (r: int)
      requires Valid()
      modifies Repr()
      ensures Valid() && Repr() <= old(Repr())
      ensures r == if HasKey(old(Pairs()), key) then 1 else -2
      ensures Pairs() == Without(old(Pairs()), key)
    {
      hide Sound, PoolOk, HasKey, Without, Repr, Pairs, DistinctKeys, RemoveAt;
      KeyInPairs(key);
      PairsDistinct();
      var n, at := FindInBucket(key);
      Kept();
      if n == null {
        WithoutAbsent(Pairs(), key);
        return -2;
      }
      var e := n.pdata;
      ghost var i :| 0 <= i < |entries| && entries[i] == e;
      WithoutAt(Pairs(), i);
      RemoveItem(e, i);
      return 1;
    }
  }

  /** int_hash_init: eight bucket lists for every item the pool can hold. */
  method IntHashInit(maxItems: nat, itemSize: nat, hash: int -> nat, base: nat) returns (t: IntHashTable?)
    requires 0 < base && base + (ITEM_HEADER + itemSize + WSIZE) * maxItems < 0x1_0000_0000_0000_0000
    ensures t == null <==> maxItems == 0 || itemSize == 0
    ensures t != null ==>
              && t.Valid() && fresh(t) && t.Pairs() == []
              && t.capacity == maxItems && t.entryNum == 8 * maxItems && t.dataSize == itemSize && t.hashFunc == hash
  {
    if maxItems == 0 || itemSize == 0 { return null; }
    var pool := LibBufferInit(ITEM_HEADER + itemSize, maxItems, base);
    var iter := new DoubleList<HashItem?>();
    var lists := NewLists(8 * maxItems);
    t := new IntHashTable(maxItems, itemSize, hash, lists, iter, pool);
  }

  method NewLists(n: nat) returns (lists: seq<ItemList>)
    ensures |lists| == n && forall b :: 0 <= b < n ==> fresh(lists[b]) && lists[b].Valid() && lists[b].nodes == []
    ensures forall b, c :: 0 <= b < c < n ==> lists[b] != lists[c]
  {
    lists := [];
    for i := 0 to n
      invariant |lists| == i
      invariant forall b :: 0 <= b < i ==> fresh(lists[b]) && lists[b].Valid() && lists[b].nodes == []
      invariant forall b, c :: 0 <= b < c < i ==> lists[b] != lists[c]
    {
      var list := new DoubleList<HashItem?>();
      lists := lists + [list];
    }
  }

  /** How many nodes the first n buckets hold. */
  ghost function Population(t: IntHashTable, n: nat): nat
    requires t.Fixed() && n <= t.entryNum
    reads t.hashMap
  {
    if n == 0 then 0 else Population(t, n - 1) + |t.hashMap[n - 1].nodes|
  }

  /** The bucket sizes sum to the number of items. */
  lemma BucketSizesSum(t: IntHashTable)
    requires t.Valid()
    ensures Population(t, t.entryNum) == t.itemNum
  {
    var all := set e | e in t.entries && e.mapIndex < t.entryNum;
    ItemsBelow(t, t.entryNum);
    assert all == Elements(t.entries) by {
      forall e | e in t.entries ensures e.mapIndex < t.entryNum { var i := t.ItemNode(e); }
    }
    DistinctCount(t.entries);
  }

  lemma {:induction false} ItemsBelow(t: IntHashTable, n: nat)
    requires t.Valid() && n <= t.entryNum
    ensures Population(t, n) == |set e | e in t.entries && e.mapIndex < n|
  {
    hide t.Sound, t.SlotsOk, t.bufPool.Valid;
    t.Sizes(0);
    var below := set e | e in t.entries && e.mapIndex < n;
    if n > 0 {
      ItemsBelow(t, n - 1);
      var rest := set e | e in t.entries && e.mapIndex < n - 1;
      var here := set e | e in t.entries && e.mapIndex == n - 1;
      assert below == rest + here;
      BucketCount(t, n - 1);
    } else {
      assert below == {};
    }
  }

  lemma BucketCount(t: IntHashTable, b: nat)
    requires t.Valid() && b < t.entryNum
    ensures |t.hashMap[b].nodes| == |set e | e in t.entries && e.mapIndex == b|
  {
    var here := set e | e in t.entries && e.mapIndex == b;
    var nodes := Elements(t.hashMap[b].nodes);
    assert t.BucketOk(b);
    DistinctCount(t.hashMap[b].nodes);
    forall n | n in nodes ensures exists e :: e in here && e.listNode == n { var e := t.Owner(b, n); assert e in here; }
    forall e | e in here ensures e.listNode in nodes { var i := t.ItemNode(e); }
    SameCount(here, nodes);
  }

  /** Items and their nodes correspond one to one. */
  lemma {:induction false} SameCount(items: set<HashItem>, nodes: set<Node<HashItem?>>)
    requires forall e | e in items :: e.listNode in nodes && e.listNode.pdata == e
    requires forall n | n in nodes :: exists e :: e in items && e.listNode == n
    ensures |items| == |nodes|
  {
    if items == {} {
      assert forall n :: n !in nodes;
    } else {
      var e :| e in items;
      forall n | n in nodes - {e.listNode} ensures exists x :: x in items - {e} && x.listNode == n {
        var x :| x in items && x.listNode == n;
        assert x in items - {e};
      }
      SameCount(items - {e}, nodes - {e.listNode});
    }
  }

  // ----- the abstract table: key-value pairs in insertion order -----

  ghost predicate HasKey(ps: seq<(int, bytes)>, key: int) { exists i :: 0 <= i < |ps| && ps[i].0 == key }

  function Lookup(ps: seq<(int, bytes)>, key: int): Option<bytes> {
    if ps == [] then None else if ps[0].0 == key then Some(ps[0].1) else Lookup(ps[1..], key)
  }

  function Without(ps: seq<(int, bytes)>, key: int): seq<(int, bytes)> {
    if ps == [] then []
    else if ps[0].0 == key then Without(ps[1..], key)
    else [ps[0]] + Without(ps[1..], key)
  }

  ghost predicate DistinctKeys(ps: seq<(int, bytes)>) { forall i, j :: 0 <= i < j < |ps| ==> ps[i].0 != ps[j].0 }

  lemma {:induction false} LookupAt(ps: seq<(int, bytes)>, i: nat)
    requires DistinctKeys(ps) && i < |ps|
    ensures Lookup(ps, ps[i].0) == Some(ps[i].1)
  {
    if i > 0 {
      assert ps[0].0 != ps[i].0 && ps[1..][i - 1] == ps[i];
      LookupAt(ps[1..], i - 1);
    }
  }

  lemma {:induction false} WithoutAbsent(ps: seq<(int, bytes)>, key: int)
    requires !HasKey(ps, key)
    ensures Without(ps, key) == ps
  {
    if ps != [] {
      KeyInTail(ps, key);
      WithoutAbsent(ps[1..], key);
    }
  }

  lemma {:induction false} WithoutAt(ps: seq<(int, bytes)>, i: nat)
    requires DistinctKeys(ps) && i < |ps|
    ensures Without(ps, ps[i].0) == RemoveAt(ps, i)
  {
    if i == 0 {
      assert !HasKey(ps[1..], ps[0].0);
      WithoutAbsent(ps[1..], ps[0].0);
    } else {
      assert ps[0].0 != ps[i].0 && ps[1..][i - 1] == ps[i];
      WithoutAt(ps[1..], i - 1);
      assert RemoveAt(ps, i) == [ps[0]] + RemoveAt(ps[1..], i - 1);
    }
  }

  // The pairs behave as a finite map: insert if absent, look up, delete.

  lemma KeyInTail(ps: seq<(int, bytes)>, key: int)
    requires ps != []
    ensures HasKey(ps, key) <==> ps[0].0 == key || HasKey(ps[1..], key)
  {
    forall i | 0 <= i < |ps[1..]| ensures ps[1..][i] == ps[i + 1] {}
    if HasKey(ps, key) {
      var i :| 0 <= i < |ps| && ps[i].0 == key;
      assert i == 0 || ps[1..][i - 1].0 == key;
    }
  }

  lemma {:induction false} LookupFindsKeys(ps: seq<(int, bytes)>, key: int)
    ensures Lookup(ps, key).Some? <==> HasKey(ps, key)
  {
    if ps != [] {
      LookupFindsKeys(ps[1..], key);
      KeyInTail(ps, key);
    }
  }

  lemma {:induction false} LookupAfterAdd(ps: seq<(int, bytes)>, key: int, v: bytes, other: int)
    requires !HasKey(ps, key)
    ensures Lookup(ps + [(key, v)], other) == if other == key then Some(v) else Lookup(ps, other)
  {
    if ps != [] {
      KeyInTail(ps, key);
      LookupAfterAdd(ps[1..], key, v, other);
      assert (ps + [(key, v)])[1..] == ps[1..] + [(key, v)];
    }
  }

  lemma {:induction false} LookupAfterRemove(ps: seq<(int, bytes)>, key: int, other: int)
    ensures Lookup(Without(ps, key), other) == if other == key then None else Lookup(ps, other)
  {
    if ps != [] {
      LookupAfterRemove(ps[1..], key, other);
      assert ([ps[0]] + Without(ps[1..], key))[1..] == Without(ps[1..], key);
    }
  }

  ghost predicate Disjoint<T>(s: seq<T>, t: seq<T>) { forall n | n in s :: n !in t }

  lemma DisjointRemoved<T>(s: seq<T>, k: nat, t: seq<T>)
    requires k < |s| && Disjoint(s, t)
    ensures Disjoint(RemoveAt(s, k), t)
  {
  }
}
