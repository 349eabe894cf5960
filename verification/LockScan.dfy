/** The scanner's pass over back_list, which re-appends to the list it drains. */
module LockScan {
  import opened DoubleLists
  import opened Pools
  import opened LockBroker

  class BackConn {
    var lastTime: int

    constructor ()
      ensures lastTime == 0
    {
      lastTime := 0;
    }
  }

  type ConnList = DoubleList<BackConn>

  predicate Idle(n: Node<BackConn>, now: int, interval: int)
    reads n, n.pdata
  {
    now - n.pdata.lastTime >= interval - 1
  }

  ghost function IdleNodes(ns: seq<Node<BackConn>>, now: int, interval: int): set<Node<BackConn>>
    reads ns, set n | n in ns :: n.pdata
  {
    set n | n in ns && Idle(n, now, interval)
  }

  /** Pops every node once, although some are appended to the same list again: the idle
      ones end up in temp, the others in back, both in their old order. */
  method RotateList(back: ConnList, temp: ConnList, now: int, interval: int) returns (pops: nat)
    requires back.Valid() && temp.Valid() && back != temp && forall n | n in back.nodes :: n !in temp.nodes
    modifies back, temp, back.nodes`pnext, back.nodes`pprev, temp.nodes`pnext, temp.nodes`pprev
    ensures back.Valid() && temp.Valid() && pops == |old(back.nodes)|
    ensures var idle := old(IdleNodes(back.nodes, now, interval));
            back.nodes == Keep(old(back.nodes), idle) && temp.nodes == old(temp.nodes) + Pick(old(back.nodes), idle)
    ensures forall n | n in old(back.nodes) ::
              if now - old(n.pdata.lastTime) >= interval - 1 then n in temp.nodes && n !in back.nodes
              else n in back.nodes && n !in temp.nodes
  {
    hide back.Valid, temp.Valid, Keep, Pick, Distinct;
    ghost var all, kept := back.nodes, temp.nodes;
    ghost var idle := IdleNodes(all, now, interval);
    Apart(back);
    NonePlaced(all, idle);
    pops := 0;
    var tail := back.GetTail();
    while true
      invariant back.Valid() && temp.Valid() && pops <= |all| && (all != [] ==> pops < |all|)
      invariant back.nodes == all[pops..] + Keep(all[..pops], idle) && temp.nodes == kept + Pick(all[..pops], idle)
      invariant forall n | n in back.nodes :: n !in temp.nodes
      invariant forall i :: 0 <= i < |back.nodes| ==> back.nodes[i] in all
      invariant forall i :: 0 <= i < |temp.nodes| ==> temp.nodes[i] in kept || temp.nodes[i] in all
      decreases |all| - pops
    {
      OnePlaced(all, pops, idle);
      var n := Turn(back, temp, now, interval);
      if n == null { break; }
      pops := pops + 1;
      if n == tail { break; }
    }
    assert all[..pops] == all && all[pops..] == [];
    forall n | n in all ensures if n in idle then n in temp.nodes && n !in back.nodes
                                else n in back.nodes && n !in temp.nodes {
      Placed(all, idle, n);
      assert n !in kept;
    }
  }

  lemma Apart(l: ConnList)
    requires l.Valid()
    ensures Distinct(l.nodes)
  {
  }

  lemma NonePlaced<T>(all: seq<T>, idle: set<T>)
    ensures all[0..] + Keep(all[..0], idle) == all && Pick(all[..0], idle) == []
  {
  }

  /** The two lists after one more turn, and when the turn is the last. */
  lemma OnePlaced<T>(all: seq<T>, i: nat, idle: set<T>)
    requires Distinct(all) && i <= |all|
    ensures i < |all| ==>
              && (all[i..] + Keep(all[..i], idle))[0] == all[i]
              && (all[i..] + Keep(all[..i], idle))[1..] == all[i + 1..] + Keep(all[..i], idle)
              && Keep(all[..i + 1], idle) == Keep(all[..i], idle) + (if all[i] in idle then [] else [all[i]])
              && Pick(all[..i + 1], idle) == Pick(all[..i], idle) + (if all[i] in idle then [all[i]] else [])
              && (all[i] == all[|all| - 1] <==> i == |all| - 1)
  {
    if i < |all| {
      assert all[..i + 1] == all[..i] + [all[i]];
      LastPlaced(all[..i], all[i], idle);
    }
  }

  lemma {:induction false} LastPlaced<T>(cs: seq<T>, x: T, idle: set<T>)
    ensures Keep(cs + [x], idle) == Keep(cs, idle) + (if x in idle then [] else [x])
    ensures Pick(cs + [x], idle) == Pick(cs, idle) + (if x in idle then [x] else [])
  {
    if cs == [] {
      assert cs + [x] == [x];
    } else {
      hide Keep, Pick;
      assert (cs + [x])[0] == cs[0] && (cs + [x])[1..] == cs[1..] + [x];
      FirstPlaced(cs, idle);
      FirstPlaced(cs + [x], idle);
      LastPlaced(cs[1..], x, idle);
    }
  }

  lemma FirstPlaced<T>(cs: seq<T>, idle: set<T>)
    requires cs != []
    ensures Keep(cs, idle) == (if cs[0] in idle then [] else [cs[0]]) + Keep(cs[1..], idle)
    ensures Pick(cs, idle) == (if cs[0] in idle then [cs[0]] else []) + Pick(cs[1..], idle)
  {
  }

  /** One turn of the loop: the head moves to temp, or to the tail of the same list. */
  method Turn(back: ConnList, temp: ConnList, now: int, interval: int) returns (n: Node?<BackConn>)
    requires back.Valid() && temp.Valid() && back != temp && forall x | x in back.nodes :: x !in temp.nodes
    modifies back, temp, back.nodes`pnext, back.nodes`pprev, temp.nodes`pnext, temp.nodes`pprev
    ensures back.Valid() && temp.Valid()
    ensures if old(back.nodes) == [] then n == null && back.nodes == [] && temp.nodes == old(temp.nodes)
            else
              && n == old(back.nodes[0]) && n !in old(back.nodes[1..])
              && if old(Idle(n, now, interval)) then
                   back.nodes == old(back.nodes[1..]) && temp.nodes == old(temp.nodes) + [n]
                 else back.nodes == old(back.nodes[1..]) + [n] && temp.nodes == old(temp.nodes)
  {
    hide back.Valid, temp.Valid, Distinct;
    Apart(back);
    HeadOnce(back.nodes);
    n := back.GetFromHead();
    temp.Untouched();
    if n == null { return; }
    assert forall x | x in back.nodes :: x in old(back.nodes) && x != n && x !in temp.nodes;
    label Popped:
    if Idle(n, now, interval) {
      temp.AppendAsTail(n);
      back.Untouched@Popped();
    } else {
      back.AppendAsTail(n);
      temp.Untouched@Popped();
    }
  }

  lemma HeadOnce<T>(s: seq<T>)
    requires Distinct(s)
    ensures s != [] ==> s[0] !in s[1..]
  {
  }
}
