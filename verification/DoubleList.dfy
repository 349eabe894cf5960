/** Circular doubly linked lists. The ghost field nodes is the list from head to tail. */
module DoubleLists {

  class Node<T> {
    var pdata: T
    var pnext: Node?<T>
    var pprev: Node?<T>

    constructor (d: T)
      ensures pdata == d && pnext == null && pprev == null
    {
      pdata, pnext, pprev := d, null, null;
    }
  }

  class DoubleList<T> {
    var phead: Node?<T>
    var nodesNum: nat
    ghost var nodes: seq<Node<T>>

    ghost predicate Valid()
      reads this, nodes
    {
      && nodesNum == |nodes|
      && Distinct(nodes)
      && phead == (if nodes == [] then null else nodes[0])
      && Ring(nodes)
    }

    constructor ()
      ensures Valid() && nodes == []
    {
      phead, nodesNum, nodes := null, 0, [];
    }

    method InsertAsHead(n: Node<T>)
      requires Valid() && n !in nodes
      modifies this, nodes`pnext, nodes`pprev, n`pnext, n`pprev
      ensures Valid() && nodes == [n] + old(nodes)
    {
      LinkBeforeHead(n);
      phead := n;
      nodes := [n] + nodes;
    }

    method AppendAsTail(n: Node<T>)
      requires Valid() && n !in nodes
      modifies this, nodes`pnext, nodes`pprev, n`pnext, n`pprev
      ensures Valid() && nodes == old(nodes) + [n]
    {
      LinkBeforeHead(n);
      nodes := nodes + [n];
    }

    /** The body shared by the two insertions: n becomes the head's predecessor,
        which in a ring makes it both the first and the last. */
    method LinkBeforeHead(n: Node<T>)
      requires Valid() && n !in nodes
      modifies this`phead, this`nodesNum, nodes`pnext, nodes`pprev, n`pnext, n`pprev
      ensures nodesNum == |nodes| + 1 && nodes == old(nodes)
      ensures phead == if nodes == [] then n else nodes[0]
      ensures Ring(nodes + [n]) && Ring([n] + nodes)
    {
      hide Valid, Ring, Distinct;
      Ends();
      if phead == null {
        phead := n;
        n.pprev, n.pnext := n, n;
        nodesNum := 1;
        LoneRing(n);
        assert nodes + [n] == [n] + nodes == [n];
      } else {
        var head, tail := phead, phead.pprev;
        n.pnext := head;
        n.pprev := tail;
        head.pprev := n;
        if head.pnext == head {
          head.pnext := n;
        } else {
          tail.pnext := n;
        }
        nodesNum := nodesNum + 1;
        RingAtTail(nodes, n);
        RingAtHead(nodes, n);
      }
    }

    /** What the invariant says at the head and the tail. */
    lemma Ends()
      requires Valid()
      ensures nodesNum == |nodes| && Ring(nodes) && (phead == null <==> nodes == [])
      ensures nodes != [] ==>
                && phead == nodes[0] && nodes[0].pprev == nodes[|nodes| - 1]
                && (nodes[0].pnext == nodes[0] <==> nodes[0] == nodes[|nodes| - 1])
                && (forall i :: 0 < i < |nodes| ==> nodes[i] != nodes[0])
                && (forall i :: 0 <= i < |nodes| - 1 ==> nodes[i] != nodes[|nodes| - 1])
    {
    }

    /** What the invariant says around position k. */
    lemma Around(k: nat)
      requires Valid() && k < |nodes|
      ensures phead == nodes[0] && nodes[0].pprev == nodes[|nodes| - 1]
      ensures nodes[k] == nodes[0] <==> k == 0
      ensures nodes[k] == nodes[|nodes| - 1] <==> k == |nodes| - 1
      ensures var p, q := Pred(k, |nodes|), Succ(k, |nodes|);
              && nodes[k].pprev == nodes[p] && nodes[k].pnext == nodes[q]
              && (p != k ==> nodes[p] != nodes[k]) && (q != k ==> nodes[q] != nodes[k])
              && (p == q <==> nodes[p] == nodes[q])
    {
    }

    method InsertBefore(base: Node<T>, n: Node<T>, ghost k: nat)
      requires Valid() && n !in nodes && k < |nodes| && nodes[k] == base
      modifies this, nodes`pnext, nodes`pprev, n`pnext, n`pprev
      ensures Valid() && nodes == InsertAt(old(nodes), k, n)
    {
      hide Valid, Ring, Distinct, InsertAt;
      Around(k);
      if base == phead {
        InsertAsHead(n);
        return;
      }
      var temp := base.pprev;
      base.pprev := n;
      temp.pnext := n;
      n.pnext := base;
      n.pprev := temp;
      nodesNum := nodesNum + 1;
      InsertedBetween(k, n);
      nodes := InsertAt(nodes, k, n);
      Whole();
    }

    method AppendAfter(base: Node<T>, n: Node<T>, ghost k: nat)
      requires Valid() && n !in nodes && k < |nodes| && nodes[k] == base
      modifies this, nodes`pnext, nodes`pprev, n`pnext, n`pprev
      ensures Valid() && nodes == InsertAt(old(nodes), k + 1, n)
    {
      hide Valid, Ring, Distinct, InsertAt;
      Around(k);
      if base == phead.pprev {
        AppendAsTail(n);
        return;
      }
      var temp := base.pnext;
      base.pnext := n;
      temp.pprev := n;
      n.pnext := temp;
      n.pprev := base;
      nodesNum := nodesNum + 1;
      InsertedBetween(k + 1, n);
      nodes := InsertAt(nodes, k + 1, n);
      Whole();
    }

    twostate lemma InsertedBetween(new k: nat, x: Node<T>)
      requires old(Valid()) && nodes == old(nodes) && 0 < k < |nodes| && x !in nodes
      requires phead == old(phead) && nodesNum == old(nodesNum) + 1
      requires nodes[k - 1].pnext == x && x.pprev == nodes[k - 1] && x.pnext == nodes[k] && nodes[k].pprev == x
      requires forall n: Node<T> :: n in nodes && n != nodes[k - 1] ==> n.pnext == old(n.pnext)
      requires forall n: Node<T> :: n in nodes && n != nodes[k] ==> n.pprev == old(n.pprev)
      ensures var t := InsertAt(nodes, k, x); nodesNum == |t| && phead == t[0] && Ring(t) && Distinct(t)
    {
      hide Ring, InsertAt;
      InsertedDistinct(nodes, k, x);
      InsertedRing(nodes, k, x);
    }

    lemma Counted()
      requires Valid()
      ensures nodesNum == |nodes|
    {
    }

    lemma Whole()
      requires nodesNum == |nodes| && Distinct(nodes) && Ring(nodes)
      requires phead == if nodes == [] then null else nodes[0]
      ensures Valid()
    {
    }

    method Remove(n: Node<T>, ghost k: nat)
      requires Valid() && k < |nodes| && nodes[k] == n
      modifies this, nodes`pnext, nodes`pprev
      ensures Valid() && nodes == RemoveAt(old(nodes), k) && n !in nodes
      ensures n.pnext == null && n.pprev == null
    {
      hide Valid, Ring, Distinct, RemoveAt;
      Around(k);
      Around(0);
      Counted();
      var head, tail := phead, phead.pprev;
      if head == n {
        if tail == head {
          phead := null;
          n.pprev, n.pnext := null, null;
          nodesNum := 0;
        } else if tail == head.pnext {
          tail.pnext := tail;
          tail.pprev := tail;
          phead := tail;
          n.pprev, n.pnext := null, null;
          nodesNum := nodesNum - 1;
        } else {
          head.pnext.pprev := tail;
          tail.pnext := head.pnext;
          phead := head.pnext;
          n.pnext, n.pprev := null, null;
          nodesNum := nodesNum - 1;
        }
      } else {
        n.pnext.pprev := n.pprev;
        n.pprev.pnext := n.pnext;
        n.pprev, n.pnext := null, null;
        nodesNum := nodesNum - 1;
      }
      Unlinked(k);
      nodes := RemoveAt(nodes, k);
      Whole();
    }

    twostate lemma Unlinked(k: nat)
      requires old(Valid()) && nodes == old(nodes) && k < |nodes| && nodesNum == old(nodesNum) - 1
      requires phead == if |nodes| == 1 then null else if k == 0 then nodes[1] else nodes[0]
      requires var p, q := nodes[Pred(k, |nodes|)], nodes[Succ(k, |nodes|)];
               && (|nodes| > 1 ==> p.pnext == q && q.pprev == p)
               && (forall n: Node<T> :: n in nodes && n != p && n != nodes[k] ==> n.pnext == old(n.pnext))
               && (forall n: Node<T> :: n in nodes && n != q && n != nodes[k] ==> n.pprev == old(n.pprev))
      ensures var t := RemoveAt(nodes, k);
              && nodesNum == |t| && Ring(t) && Distinct(t) && nodes[k] !in t
              && phead == if t == [] then null else t[0]
    {
      hide Ring, RemoveAt;
      RemovedDistinct(nodes, k);
      if |nodes| > 1 { RemovedRing(nodes, k); } else { EmptyRing(RemoveAt(nodes, k)); }
    }

    /** A list none of whose nodes was touched is still a list. */
    twostate lemma Untouched()
      requires old(Valid()) && phead == old(phead) && nodesNum == old(nodesNum) && nodes == old(nodes)
      requires forall n: Node<T> :: n in nodes ==> n.pnext == old(n.pnext) && n.pprev == old(n.pprev)
      ensures Valid()
    {
    }

    method GetFromHead() returns (n: Node?<T>)
      requires Valid()
      modifies this, nodes`pnext, nodes`pprev
      ensures Valid()
      ensures if old(nodes) == [] then n == null && nodes == [] else n == old(nodes[0]) && nodes == old(nodes[1..])
    {
      n := phead;
      if n != null {
        Remove(n, 0);
      }
    }

    /** A lone node keeps its links to itself. */
    method GetFromTail() returns (n: Node?<T>)
      requires Valid()
      modifies this, nodes`pnext, nodes`pprev
      ensures Valid()
      ensures if old(nodes) == [] then n == null && nodes == []
              else n == old(nodes[|nodes| - 1]) && nodes == old(nodes[..|nodes| - 1])
    {
      if phead == null { return null; }
      if phead == phead.pnext {
        n := phead;
        phead, nodesNum, nodes := null, 0, [];
        return;
      }
      n := phead.pprev;
      Remove(n, |nodes| - 1);
    }

    method GetBefore(base: Node<T>, ghost k: nat) returns (n: Node?<T>)
      requires Valid() && k < |nodes| && nodes[k] == base
      ensures n == if k == 0 then null else nodes[k - 1]
    {
      if phead == null || phead == base { return null; }
      return base.pprev;
    }

    method GetAfter(base: Node<T>, ghost k: nat) returns (n: Node?<T>)
      requires Valid() && k < |nodes| && nodes[k] == base
      ensures n == if k == |nodes| - 1 then null else nodes[k + 1]
    {
      if phead == null || base == phead.pprev { return null; }
      return base.pnext;
    }

    method GetHead() returns (n: Node?<T>)
      requires Valid()
      ensures n == if nodes == [] then null else nodes[0]
    {
      return phead;
    }

    method GetTail() returns (n: Node?<T>)
      requires Valid()
      ensures n == if nodes == [] then null else nodes[|nodes| - 1]
    {
      if phead == null { return null; }
      return phead.pprev;
    }

    /** Steps num nodes towards the tail, or as many as there are; moved says how many. */
    method Forward(base: Node<T>, num: nat, ghost k: nat) returns (n: Node<T>, moved: nat)
      requires Valid() && k < |nodes| && nodes[k] == base
      ensures moved == (if k + num < |nodes| then num else |nodes| - 1 - k) && n == nodes[k + moved]
    {
      n := base;
      for i := 0 to num
        invariant k + i < |nodes| && n == nodes[k + i]
      {
        var next := GetAfter(n, k + i);
        if next == null { return n, i; }
        n := next;
      }
      moved := num;
    }

    /** Steps num nodes towards the head, or as many as there are. */
    method Backward(base: Node<T>, num: nat, ghost k: nat) returns (n: Node<T>, moved: nat)
      requires Valid() && k < |nodes| && nodes[k] == base
      ensures moved == (if num <= k then num else k) && n == nodes[k - moved]
    {
      n := base;
      for i := 0 to num
        invariant i <= k && n == nodes[k - i]
      {
        var prev := GetBefore(n, k - i);
        if prev == null { return n, i; }
        n := prev;
      }
      moved := num;
    }
  }

  /** Splices the nodes of src onto dst. The source object must not be used as a
      list afterwards: its head is cleared only on one of the paths, its count never. */
  method AppendList<T>(dst: DoubleList<T>, src: DoubleList<T>)
    requires dst.Valid() && src.Valid() && dst != src
    requires forall n | n in dst.nodes :: n !in src.nodes
    modifies dst, src`phead, dst.nodes`pnext, dst.nodes`pprev, src.nodes`pnext, src.nodes`pprev
    ensures dst.Valid() && dst.nodes == old(dst.nodes + src.nodes)
    ensures src.nodesNum == old(src.nodesNum)
    ensures src.phead == if old(dst.nodes) == [] then old(src.phead) else null
    ensures src.Valid() <==> old(dst.nodes) == [] || old(src.nodes) == []
  {
    if dst.phead == null {
      dst.phead := src.phead;
      dst.nodesNum := src.nodesNum;
      dst.nodes := src.nodes;
      return;
    }
    if src.phead == null {
      assert dst.nodes + src.nodes == dst.nodes;
      return;
    }
    Splice(dst, src);
    dst.nodes := dst.nodes + src.nodes;
    dst.Whole();
  }

  /** The link updates for two lists that both have nodes. */
  method Splice<T>(dst: DoubleList<T>, src: DoubleList<T>)
    requires dst.Valid() && src.Valid() && dst != src && dst.nodes != [] && src.nodes != []
    requires forall n | n in dst.nodes :: n !in src.nodes
    modifies dst`nodesNum, src`phead, dst.nodes`pnext, dst.nodes`pprev, src.nodes`pnext, src.nodes`pprev
    ensures src.phead == null && dst.nodesNum == |dst.nodes| + |src.nodes|
    ensures Ring(dst.nodes + src.nodes) && Distinct(dst.nodes + src.nodes)
  {
    hide dst.Valid, Ring, Distinct;
    ghost var a, b := dst.nodes, src.nodes;
    dst.Around(0);
    dst.Around(|a| - 1);
    src.Around(0);
    src.Around(|b| - 1);
    dst.Counted();
    src.Counted();
    var dhead, dtail, head, tail := dst.phead, dst.phead.pprev, src.phead, src.phead.pprev;
    src.phead := null;
    if dhead == dtail {
      if head == tail {
        dhead.pnext := head;
        dhead.pprev := head;
        head.pnext := dhead;
        head.pprev := dhead;
      } else {
        dhead.pnext := head;
        dhead.pprev := tail;
        head.pprev := dhead;
        tail.pnext := dhead;
      }
    } else if head == tail {
      dhead.pprev := head;
      dtail.pnext := head;
      head.pprev := dtail;
      head.pnext := dhead;
    } else {
      dhead.pprev := tail;
      dtail.pnext := head;
      head.pprev := dtail;
      tail.pnext := dhead;
    }
    dst.nodesNum := dst.nodesNum + src.nodesNum;
    Joined(dst, src);
  }

  twostate lemma Joined<T>(dst: DoubleList<T>, new src: DoubleList<T>)
    requires old(allocated(src)) && old(dst.Valid() && src.Valid())
    requires dst.nodes == old(dst.nodes) && src.nodes == old(src.nodes) && dst.nodes != [] && src.nodes != []
    requires forall n | n in dst.nodes :: n !in src.nodes
    requires var a, b := dst.nodes, src.nodes; var m, n := |a| - 1, |b| - 1;
             && a[m].pnext == b[0] && b[0].pprev == a[m] && b[n].pnext == a[0] && a[0].pprev == b[n]
             && (forall x: Node<T> :: x in a && x != a[m] ==> x.pnext == old(x.pnext))
             && (forall x: Node<T> :: x in a && x != a[0] ==> x.pprev == old(x.pprev))
             && (forall x: Node<T> :: x in b && x != b[n] ==> x.pnext == old(x.pnext))
             && (forall x: Node<T> :: x in b && x != b[0] ==> x.pprev == old(x.pprev))
    ensures Ring(dst.nodes + src.nodes) && Distinct(dst.nodes + src.nodes)
  {
    hide Ring;
    JoinedDistinct(dst.nodes, src.nodes);
    JoinedRing(dst.nodes, src.nodes);
  }

  ghost predicate Distinct<T>(s: seq<T>) {
    forall i, j :: 0 <= i < j < |s| ==> s[i] != s[j]
  }

  function Elements<T>(s: seq<T>): set<T> { set x | x in s }

  lemma {:induction false} DistinctCount<T>(s: seq<T>)
    requires Distinct(s)
    ensures |Elements(s)| == |s|
  {
    var all := Elements(s);
    if s != [] {
      var k := |s| - 1;
      assert Distinct(s[..k]) && s[k] !in s[..k];
      DistinctCount(s[..k]);
      var rest := Elements(s[..k]);
      assert s == s[..k] + [s[k]];
      assert all == rest + {s[k]};
    } else {
      assert all == {};
    }
  }

  /** The positions after and before i on a ring of n. */
  function Succ(i: nat, n: nat): (j: nat)
    requires i < n
    ensures j < n
  {
    if i + 1 < n then i + 1 else 0
  }

  function Pred(i: nat, n: nat): (j: nat)
    requires i < n
    ensures j < n
  {
    if i == 0 then n - 1 else i - 1
  }

  /** Mutual next and prev links, the last node closing the ring. */
  ghost predicate Ring<T>(s: seq<Node<T>>)
    reads s
  {
    forall i {:trigger s[i].pnext} {:trigger s[i].pprev} :: 0 <= i < |s| ==>
      s[i].pnext == s[Succ(i, |s|)] && s[i].pprev == s[Pred(i, |s|)]
  }

  function InsertAt<T>(s: seq<T>, k: nat, x: T): (t: seq<T>)
    requires k <= |s|
    ensures |t| == |s| + 1 && t[k] == x
    ensures forall i :: 0 <= i < k ==> t[i] == s[i]
    ensures forall i :: k < i < |t| ==> t[i] == s[i - 1]
  {
    s[..k] + [x] + s[k..]
  }

  function RemoveAt<T>(s: seq<T>, k: nat): (t: seq<T>)
    requires k < |s|
    ensures |t| == |s| - 1
    ensures forall i :: 0 <= i < k ==> t[i] == s[i]
    ensures forall i :: k <= i < |t| ==> t[i] == s[i + 1]
  {
    s[..k] + s[k + 1..]
  }

  /** In the ring s with x put in at k, who follows and who precedes position i. */
  lemma InsertedLink<T>(s: seq<T>, k: nat, x: T, i: nat)
    requires 0 < |s| && k <= |s| && i <= |s|
    ensures var t, n, q := InsertAt(s, k, x), |s|, if k == |s| then 0 else k;
            var j := if i < k then i else i - 1;
            && t[Succ(i, |t|)] == (if i == k then s[q] else if j == Pred(q, n) then x else s[Succ(j, n)])
            && t[Pred(i, |t|)] == (if i == k then s[Pred(q, n)] else if j == q then x else s[Pred(j, n)])
  {
  }

  /** In the ring s without position k, who follows and who precedes position i. */
  lemma RemovedLink<T>(s: seq<T>, k: nat, i: nat)
    requires 1 < |s| && k < |s| && i < |s| - 1
    ensures var t, n := RemoveAt(s, k), |s|;
            var j := if i < k then i else i + 1;
            && t[Succ(i, |t|)] == (if j == Pred(k, n) then s[Succ(k, n)] else s[Succ(j, n)])
            && t[Pred(i, |t|)] == (if j == Succ(k, n) then s[Pred(k, n)] else s[Pred(j, n)])
  {
  }

  lemma LoneRing<T>(n: Node<T>)
    requires n.pnext == n && n.pprev == n
    ensures Ring([n])
  {
  }

  lemma EmptyRing<T>(s: seq<Node<T>>)
    requires s == []
    ensures Ring(s)
  {
  }

  lemma JoinedDistinct<T>(a: seq<T>, b: seq<T>)
    requires Distinct(a) && Distinct(b) && forall x | x in a :: x !in b
    ensures Distinct(a + b)
  {
    forall i, j | 0 <= i < j < |a + b|
      ensures (a + b)[i] != (a + b)[j]
    {
      if i < |a| <= j { assert a[i] in a && b[j - |a|] in b; }
    }
  }

  /** In the joined ring, who follows and who precedes position i. */
  lemma JoinedLink<T>(a: seq<T>, b: seq<T>, i: nat)
    requires a != [] && b != [] && i < |a + b|
    ensures var t, m, n := a + b, |a|, |b|;
            && t[Succ(i, |t|)] == (if i == m - 1 then b[0] else if i == m + n - 1 then a[0]
                                   else if i < m then a[Succ(i, m)] else b[Succ(i - m, n)])
            && t[Pred(i, |t|)] == (if i == 0 then b[n - 1] else if i == m then a[m - 1]
                                   else if i < m then a[Pred(i, m)] else b[Pred(i - m, n)])
  {
  }

  twostate lemma JoinedRing<T>(a: seq<Node<T>>, new b: seq<Node<T>>)
    requires a != [] && b != [] && old(allocated(b)) && old(Ring(a) && Ring(b))
    requires var m, n := |a| - 1, |b| - 1;
             && a[m].pnext == b[0] && b[0].pprev == a[m] && b[n].pnext == a[0] && a[0].pprev == b[n]
             && (forall i :: 0 <= i < |a| && i != m ==> a[i].pnext == old(a[i].pnext))
             && (forall i :: 0 <= i < |a| && i != 0 ==> a[i].pprev == old(a[i].pprev))
             && (forall i :: 0 <= i < |b| && i != n ==> b[i].pnext == old(b[i].pnext))
             && (forall i :: 0 <= i < |b| && i != 0 ==> b[i].pprev == old(b[i].pprev))
    ensures Ring(a + b)
  {
    hide Ring;
    var t := a + b;
    forall i | 0 <= i < |t|
      ensures t[i].pnext == t[Succ(i, |t|)] && t[i].pprev == t[Pred(i, |t|)]
    {
      JoinedLink(a, b, i);
      if i < |a| { RingLink(a, i); } else { RingLink(b, i - |a|); }
    }
    IsRing(t);
  }

  /** The ring property at one position of the earlier state. */
  twostate lemma RingLink<T>(s: seq<Node<T>>, new i: nat)
    requires i < |s| && old(Ring(s))
    ensures old(s[i].pnext) == s[Succ(i, |s|)] && old(s[i].pprev) == s[Pred(i, |s|)]
  {
  }

  lemma IsRing<T>(s: seq<Node<T>>)
    requires forall i :: 0 <= i < |s| ==> s[i].pnext == s[Succ(i, |s|)] && s[i].pprev == s[Pred(i, |s|)]
    ensures Ring(s)
  {
  }

  lemma InsertedDistinct<T>(s: seq<T>, k: nat, x: T)
    requires k <= |s| && Distinct(s) && x !in s
    ensures Distinct(InsertAt(s, k, x))
  {
  }

  lemma RemovedDistinct<T>(s: seq<T>, k: nat)
    requires k < |s| && Distinct(s)
    ensures Distinct(RemoveAt(s, k)) && s[k] !in RemoveAt(s, k)
  {
  }

  /** Linking x between two neighbours of a ring makes a larger ring. */
  twostate lemma InsertedRing<T>(s: seq<Node<T>>, new k: nat, new x: Node<T>)
    requires 0 < |s| && k <= |s| && old(Ring(s))
    requires var q := if k == |s| then 0 else k; var p := Pred(q, |s|);
             && s[p].pnext == x && x.pprev == s[p] && x.pnext == s[q] && s[q].pprev == x
             && (forall i :: 0 <= i < |s| && i != p ==> s[i].pnext == old(s[i].pnext))
             && (forall i :: 0 <= i < |s| && i != q ==> s[i].pprev == old(s[i].pprev))
    ensures Ring(InsertAt(s, k, x))
  {
    hide Succ, Pred;
    var t := InsertAt(s, k, x);
    forall i | 0 <= i < |t|
      ensures t[i].pnext == t[Succ(i, |t|)] && t[i].pprev == t[Pred(i, |t|)]
    {
      InsertedLink(s, k, x, i);
    }
  }

  twostate lemma RingAtTail<T>(s: seq<Node<T>>, new x: Node<T>)
    requires 0 < |s| && old(Ring(s)) && JoinsEnds(s, x)
    ensures Ring(s + [x])
  {
    hide Ring;
    InsertedRing(s, |s|, x);
    assert InsertAt(s, |s|, x) == s + [x];
  }

  twostate lemma RingAtHead<T>(s: seq<Node<T>>, new x: Node<T>)
    requires 0 < |s| && old(Ring(s)) && JoinsEnds(s, x)
    ensures Ring([x] + s)
  {
    hide Ring;
    InsertedRing(s, 0, x);
    assert InsertAt(s, 0, x) == [x] + s;
  }

  /** x has been linked in between the tail and the head, and nothing else changed. */
  twostate predicate JoinsEnds<T>(s: seq<Node<T>>, new x: Node<T>)
    requires 0 < |s|
    reads s, x
  {
    && s[|s| - 1].pnext == x && x.pprev == s[|s| - 1] && x.pnext == s[0] && s[0].pprev == x
    && (forall i :: 0 <= i < |s| - 1 ==> s[i].pnext == old(s[i].pnext))
    && (forall i :: 0 < i < |s| ==> s[i].pprev == old(s[i].pprev))
  }

  /** Linking the neighbours of a ring's node to each other leaves a ring without it. */
  twostate lemma RemovedRing<T>(s: seq<Node<T>>, new k: nat)
    requires 1 < |s| && k < |s| && old(Ring(s))
    requires var p, q := Pred(k, |s|), Succ(k, |s|);
             && s[p].pnext == s[q] && s[q].pprev == s[p]
             && (forall i :: 0 <= i < |s| && i != p && i != k ==> s[i].pnext == old(s[i].pnext))
             && (forall i :: 0 <= i < |s| && i != q && i != k ==> s[i].pprev == old(s[i].pprev))
    ensures Ring(RemoveAt(s, k))
  {
    hide Succ, Pred;
    var t := RemoveAt(s, k);
    forall i | 0 <= i < |t|
      ensures t[i].pnext == t[Succ(i, |t|)] && t[i].pprev == t[Pred(i, |t|)]
    {
      RemovedLink(s, k, i);
      assert t[i] == s[if i < k then i else i + 1];
    }
  }
}
