/** int_hash_iter: a cursor over the insertion-order list that survives the
    removal of the item it stands on. */
module HashIters {
  import opened Bytes
  import opened Options
  import opened DoubleLists
  import opened LibBuffers
  import opened IntHashes

  // size_t arithmetic: the position goes below zero when the first item is removed.
  function Up(p: uint64): uint64 { if p == 0xffff_ffff_ffff_ffff then 0 else p + 1 }

  function Down(p: uint64): uint64 { if p == 0 then 0xffff_ffff_ffff_ffff else p - 1 }

  class HashIter {
    const table: IntHashTable
    var curNode: Node?<HashItem?>
    var currPos: uint64

    constructor (t: IntHashTable)
      ensures table == t && curNode == null && currPos == 0
    {
      table, curNode, currPos := t, null, 0;
    }

    /** Back to the head of the list. The position is not reset. */
    method Begin()
      requires table.Valid()
      modifies this`curNode
      ensures table.Valid() && table.Repr() == old(table.Repr()) && table.Pairs() == old(table.Pairs())
      ensures curNode == if table.entries == [] then null else table.iterList.nodes[0]
    {
      hide table.Valid, table.Repr, table.Pairs;
      IterFacts(table);
      curNode := table.iterList.phead;
      table.Kept();
    }

    predicate Done()
      reads this, table
    {
      table.itemNum <= currPos
    }

    method GetValue(ghost i: nat) returns (key: int, value: bytes)
      requires table.Valid() && i < |table.entries| && curNode == table.iterList.nodes[i]
      ensures table.Valid() && table.Repr() == old(table.Repr()) && table.Pairs() == old(table.Pairs())
      ensures (key, value) == table.Pairs()[i]
    {
      IterFacts(table);
      var item := curNode.pdata;
      return item.hashKey, item.value;
    }

    /** From the node at position i on, or from NULL to the head; the position wraps. */
    method Forward(ghost i: nat)
      requires table.Valid()
      requires curNode != null ==> i < |table.entries| && curNode == table.iterList.nodes[i]
      modifies this
      ensures table.Valid() && table.Repr() == old(table.Repr()) && table.Pairs() == old(table.Pairs())
      ensures currPos == if old(currPos) == 0xFFFF_FFFF_FFFF_FFFF then 0 else old(currPos) + 1
      ensures var next := if old(curNode) == null || i + 1 == |table.entries| then 0 else i + 1;
              curNode == if table.entries == [] then null else table.iterList.nodes[next]
    {
      hide table.Valid, table.Repr, table.Pairs;
      IterFacts(table);
      if curNode == null {
        curNode := table.iterList.phead;
      } else {
        curNode := curNode.pnext;
      }
      currPos := Up(currPos);
      table.Kept();
    }

    /** Removes the item the cursor stands on and steps back to the one before it,
        to NULL when there is none. */
    method Remove(ghost i: nat) returns (r: int)
      requires table.Valid()
      requires curNode != null ==> i < |table.entries| && curNode == table.iterList.nodes[i]
      modifies this, table.Repr()
      ensures table.Valid() && table.Repr() <= old(table.Repr())
      ensures r == if old(table.itemNum) < 1 then -2 else if old(curNode) == null then -3 else 1
      ensures r != 1 ==> table.Pairs() == old(table.Pairs()) && curNode == old(curNode) && currPos == old(currPos)
      ensures r == 1 ==>
                && table.Pairs() == RemoveAt(old(table.Pairs()), i)
                && curNode == (if i == 0 then null else table.iterList.nodes[i - 1])
                && currPos == if old(currPos) == 0 then 0xFFFF_FFFF_FFFF_FFFF else old(currPos) - 1
    {
      hide table.Valid, table.Repr, table.Pairs;
      Lengths(table);
      Outside();
      if table.itemNum < 1 { return -2; }
      if curNode == null { return -3; }
      var node := StepBack(i);
      table.RemoveItem(node.pdata, i);
      return 1;
    }

    /** Leaves the current node for the one before it, or NULL, and moves the position back. */
    method StepBack(ghost i: nat) returns (node: Node<HashItem?>)
      requires table.Valid() && i < |table.entries| && curNode == table.iterList.nodes[i]
      modifies this
      ensures table.Valid() && table.Repr() == old(table.Repr()) && table.Pairs() == old(table.Pairs())
      ensures node == table.iterList.nodes[i] && node.pdata == table.entries[i]
      ensures curNode == if i == 0 then null else table.iterList.nodes[i - 1]
      ensures currPos == Down(old(currPos))
    {
      hide table.Valid, table.Repr, table.Pairs;
      IterFacts(table);
      node := curNode;
      if curNode == table.iterList.phead || table.itemNum <= 1 {
        curNode := null;
      } else {
        curNode := curNode.pprev;
      }
      currPos := Down(currPos);
      table.Kept();
    }

    /** One round of the documented loop. */
    method Visit(remove: bool, ghost j: nat) returns (key: int, value: bytes)
      requires table.Valid() && j < |table.entries| && curNode == table.iterList.nodes[j]
      requires currPos < 0xffff_ffff_ffff_ffff
      modifies this, table.Repr()
      ensures table.Valid() && table.Repr() <= old(table.Repr())
      ensures (key, value) == old(table.Pairs())[j]
      ensures table.Pairs() == if remove then RemoveAt(old(table.Pairs()), j) else old(table.Pairs())
      ensures currPos == old(currPos) + if remove then 0 else 1
      ensures var next := if remove then j else j + 1;
              next < |table.entries| ==> curNode == table.iterList.nodes[next]
    {
      hide table.Valid, table.Repr, table.Pairs;
      Lengths(table);
      key, value := GetValue(j);
      if remove {
        var r := Remove(j);
        Lengths(table);
        Forward(if j == 0 then 0 else j - 1);
      } else {
        Forward(j);
      }
      Lengths(table);
    }

    lemma Outside()
      ensures this !in table.Repr()
    {
    }
  }

  lemma Lengths(t: IntHashTable)
    requires t.Valid()
    ensures t.itemNum == |t.entries| == |t.iterList.nodes|
  {
  }

  /** How the cursor's list lines up with the table's items. */
  lemma IterFacts(t: IntHashTable)
    requires t.Valid()
    ensures t.itemNum == |t.entries| == |t.iterList.nodes|
    ensures t.iterList.phead == if t.entries == [] then null else t.iterList.nodes[0]
    ensures forall i :: 0 <= i < |t.entries| ==> t.iterList.nodes[i].pdata == t.entries[i]
    ensures forall i :: 0 <= i < |t.entries| ==> t.iterList.nodes[i].pprev == t.iterList.nodes[Pred(i, |t.entries|)]
    ensures forall i :: 0 <= i < |t.entries| ==> t.iterList.nodes[i].pnext == t.iterList.nodes[Succ(i, |t.entries|)]
    ensures forall i :: 0 < i < |t.entries| ==> t.iterList.nodes[i] != t.iterList.nodes[0]
  {
    forall i | 0 <= i < |t.entries|
      ensures t.iterList.nodes[i].pdata == t.entries[i]
    {
      assert t.ItemOk(t.entries[i]);
    }
  }

  /** The documented loop: begin, then until done read the value, perhaps remove
      the item, and go forward. choice(k) says whether the k-th visited item goes.
      From a fresh iterator (position 0) every item is visited once, in the order
      added, and exactly the items not chosen stay; a starting position p makes
      the loop stop p items short of the end, whatever is removed. */
  method Traverse(it: HashIter, choice: nat -> bool) returns (visited: seq<(int, bytes)>)
    requires it.table.Valid() && it.currPos + |it.table.entries| < 0x1_0000_0000_0000_0000
    modifies it, it.table.Repr()
    ensures it.table.Valid()
    ensures var all, p := old(it.table.Pairs()), old(it.currPos);
            var n := if p < |all| then |all| - p else 0;
            && visited == all[..n]
            && it.table.Pairs() == Unchosen(all[..n], choice) + all[n..]
            && it.currPos == p + |Unchosen(all[..n], choice)|
  {
    hide Midway, it.table.Valid, it.table.Repr, it.table.Pairs, Unchosen;
    ghost var all, p := it.table.Pairs(), it.currPos;
    Lengths(it.table);
    it.Begin();
    Starting(it, all, p, choice);
    visited := Rounds(it, choice, all, p);
    Finished(it, all, p, choice, |visited|);
  }

  method Rounds(it: HashIter, choice: nat -> bool, ghost all: seq<(int, bytes)>, ghost p: nat)
    returns (visited: seq<(int, bytes)>)
    requires Midway(it, all, p, choice, 0)
    modifies it, it.table.Repr()
    ensures |visited| == (if p < |all| then |all| - p else 0) && visited == all[..|visited|]
    ensures Midway(it, all, p, choice, |visited|)
  {
    hide Midway, it.table.Valid, it.table.Repr, it.table.Pairs, Unchosen;
    visited := [];
    Remaining(it, all, p, choice, 0);
    while !it.Done()
      invariant it.table.Repr() <= old(it.table.Repr())
      invariant |visited| <= |all| && visited == all[..|visited|] && Midway(it, all, p, choice, |visited|)
      invariant it.Done() <==> |all| - |visited| <= p
      invariant |visited| > 0 ==> |all| - |visited| + 1 > p
      decreases |all| - |visited|
    {
      var key, value := Round(it, choice, |visited|, all, p);
      visited := visited + [(key, value)];
      Remaining(it, all, p, choice, |visited|);
    }
  }

  /** The loop state when v items have been visited: those not chosen are still
      there, in front of the unvisited ones, and the cursor stands between them. */
  ghost predicate Midway(it: HashIter, all: seq<(int, bytes)>, p: nat, choice: nat -> bool, v: nat)
    reads it, it.table.Repr(), it.table, it.table.hashMap, it.table.iterList, it.table.entries,
          set e | e in it.table.entries :: e.listNode, set e | e in it.table.entries :: e.iterNode
  {
    && it.table.Valid() && v <= |all| && p + |all| < 0x1_0000_0000_0000_0000
    && (var kept := Unchosen(all[..v], choice);
        && it.table.Pairs() == kept + all[v..] && it.currPos == p + |kept|
        && |it.table.iterList.nodes| == |it.table.entries|
        && (v < |all| ==> it.curNode == it.table.iterList.nodes[|kept|]))
  }

  lemma Starting(it: HashIter, all: seq<(int, bytes)>, p: nat, choice: nat -> bool)
    requires it.table.Valid() && it.table.Pairs() == all && it.currPos == p && p + |all| < 0x1_0000_0000_0000_0000
    requires all != [] ==> |it.table.iterList.nodes| > 0 && it.curNode == it.table.iterList.nodes[0]
    ensures Midway(it, all, p, choice, 0)
  {
    hide it.table.Valid, it.table.Repr, it.table.Pairs;
    Lengths(it.table);
    assert all[..0] == [] && all[0..] == all;
  }

  lemma Remaining(it: HashIter, all: seq<(int, bytes)>, p: nat, choice: nat -> bool, v: nat)
    requires Midway(it, all, p, choice, v)
    ensures it.table.itemNum <= it.currPos <==> |all| - v <= p
  {
    hide it.table.Valid, it.table.Repr;
    Lengths(it.table);
  }

  method Round(it: HashIter, choice: nat -> bool, v: nat, ghost all: seq<(int, bytes)>, ghost p: nat)
    returns (key: int, value: bytes)
    requires Midway(it, all, p, choice, v) && v < |all|
    modifies it, it.table.Repr()
    ensures Midway(it, all, p, choice, v + 1) && (key, value) == all[v]
    ensures it.table.Repr() <= old(it.table.Repr())
  {
    hide it.table.Valid, it.table.Repr, it.table.Pairs, RemoveAt, Unchosen;
    ghost var kept := Unchosen(all[..v], choice);
    RoundStep(all, v, kept, choice);
    key, value := it.Visit(choice(v), |kept|);
    Lengths(it.table);
  }

  lemma Finished(it: HashIter, all: seq<(int, bytes)>, p: nat, choice: nat -> bool, v: nat)
    requires Midway(it, all, p, choice, v)
    ensures it.table.Valid()
    ensures it.table.Pairs() == Unchosen(all[..v], choice) + all[v..]
    ensures it.currPos == p + |Unchosen(all[..v], choice)|
  {
  }

  lemma RoundStep<T>(all: seq<T>, v: nat, kept: seq<T>, choice: nat -> bool)
    requires v < |all| && kept == Unchosen(all[..v], choice)
    ensures (kept + all[v..])[|kept|] == all[v]
    ensures RemoveAt(kept + all[v..], |kept|) == kept + all[v + 1..]
    ensures kept + [all[v]] + all[v + 1..] == kept + all[v..]
    ensures Unchosen(all[..v + 1], choice) == kept + if choice(v) then [] else [all[v]]
  {
    hide RemoveAt;
    UnchosenStep(all, v, choice);
    assert all[v..] == [all[v]] + all[v + 1..];
    RemoveMiddle(kept, all[v], all[v + 1..]);
  }

  lemma UnchosenStep<T>(all: seq<T>, v: nat, choice: nat -> bool)
    requires v < |all|
    ensures Unchosen(all[..v + 1], choice) == Unchosen(all[..v], choice) + if choice(v) then [] else [all[v]]
  {
    assert all[..v + 1][..v] == all[..v];
  }

  lemma RemoveMiddle<T>(a: seq<T>, x: T, b: seq<T>)
    ensures RemoveAt(a + ([x] + b), |a|) == a + b && (a + ([x] + b))[|a|] == x && a + [x] + b == a + ([x] + b)
  {
    assert (a + ([x] + b))[..|a|] == a && (a + ([x] + b))[|a| + 1..] == b;
  }

  /** The items the choice lets stay. */
  function Unchosen<T>(ps: seq<T>, choice: nat -> bool): (kept: seq<T>)
    ensures |kept| <= |ps|
  {
    if ps == [] then []
    else
      var k := |ps| - 1;
      Unchosen(ps[..k], choice) + if choice(k) then [] else [ps[k]]
  }
}
