/** Lists of backend connections, each connection known by its index. */
module Pools {

  type Conn = nat  // a BACK_CONN

  /** How often a connection is in a list. */
  function Times(cs: seq<Conn>, c: Conn): nat { multiset(cs)[c] }

  /** The connections that are idle, and those that are not, in their order. */
  function Pick<T(==)>(cs: seq<T>, idle: set<T>): seq<T> {
    if cs == [] then [] else (if cs[0] in idle then [cs[0]] else []) + Pick(cs[1..], idle)
  }

  function Keep<T(==)>(cs: seq<T>, idle: set<T>): seq<T> {
    if cs == [] then [] else (if cs[0] in idle then [] else [cs[0]]) + Keep(cs[1..], idle)
  }

  lemma {:induction false} Placed<T>(cs: seq<T>, idle: set<T>, x: T)
    ensures x in Pick(cs, idle) <==> x in cs && x in idle
    ensures x in Keep(cs, idle) <==> x in cs && x !in idle
  {
    if cs != [] { Placed(cs[1..], idle, x); }
  }

  lemma FirstOut(cs: seq<Conn>, c: Conn)
    requires cs != []
    ensures Times(cs, c) == Times(cs[1..], c) + if cs[0] == c then 1 else 0
  {
    assert cs == [cs[0]] + cs[1..];
  }

  lemma LastIn(cs: seq<Conn>, x: Conn, c: Conn)
    ensures Times(cs + [x], c) == Times(cs, c) + if x == c then 1 else 0
  {
  }

  lemma {:induction false} Shared(cs: seq<Conn>, idle: set<Conn>, c: Conn)
    ensures Times(Keep(cs, idle), c) + Times(Pick(cs, idle), c) == Times(cs, c)
  {
    if cs != [] {
      Shared(cs[1..], idle, c);
      FirstOut(cs, c);
    }
  }

  lemma NoTimes(c: Conn)
    ensures Times([], c) == 0
  {
  }

  lemma {:induction false} Numbered(n: nat, c: Conn)
    ensures Times(seq(n, i => i), c) == if c < n then 1 else 0
  {
    if n > 0 {
      Numbered(n - 1, c);
      assert seq(n, i => i) == seq(n - 1, i => i) + [n - 1];
      LastIn(seq(n - 1, i => i), n - 1, c);
    } else {
      NoTimes(c);
    }
  }

  lemma {:induction false} Among(cs: seq<Conn>, idle: set<Conn>)
    ensures forall c | c in Pick(cs, idle) || c in Keep(cs, idle) :: c in cs
  {
    if cs != [] {
      Among(cs[1..], idle);
      assert cs == [cs[0]] + cs[1..];
    }
  }
}
