// Locks taken in ascending order: nobody waits in a circle.
module LockOrder {

  /** A running transaction: the locks it will take, in order, and how many of them it has. */
  datatype Claim<R> = Claim(plan: seq<R>, held: nat)

  predicate Ascending<R>(plan: seq<R>, rank: R -> nat)
  {
    forall i, j :: 0 <= i < j < |plan| ==> rank(plan[i]) < rank(plan[j])
  }

  predicate Proper<R>(c: Claim<R>, rank: R -> nat)
  {
    c.held <= |c.plan| && Ascending(c.plan, rank)
  }

  predicate Holds<R(==)>(c: Claim<R>, r: R)
  {
    exists i :: 0 <= i < c.held && i < |c.plan| && c.plan[i] == r
  }

  lemma {:induction false} AllHeld<R>(c: Claim<R>, r: R)
    requires c.held == |c.plan|
    ensures Holds(c, r) <==> r in c.plan
  {}

  /** No lock is held by both. */
  ghost predicate Exclusive<R(!new)>(c: Claim<R>, d: Claim<R>)
  {
    forall r :: !(Holds(c, r) && Holds(d, r))
  }

  lemma {:induction false} TakeFree<R(!new)>(c: Claim<R>, d: Claim<R>)
    requires c.held < |c.plan| && Exclusive(c, d) && !Holds(d, c.plan[c.held])
    ensures var e := c.(held := c.held + 1); Exclusive(e, d) && Exclusive(d, e)
  {
    var e := c.(held := c.held + 1);
    forall r ensures !(Holds(e, r) && Holds(d, r)) {
      if Holds(e, r) && r != c.plan[c.held] { assert Holds(c, r); }
    }
  }

  /** Transaction c wants a lock that d holds. */
  predicate Waits<R(==)>(c: Claim<R>, d: Claim<R>)
  {
    c.held < |c.plan| && Holds(d, c.plan[c.held])
  }

  lemma {:induction false} WaitsUpward<R>(c: Claim<R>, d: Claim<R>, rank: R -> nat)
    requires Proper(c, rank) && Proper(d, rank) && Waits(c, d) && d.held < |d.plan|
    ensures rank(c.plan[c.held]) < rank(d.plan[d.held])
  {
    var i :| 0 <= i < d.held && d.plan[i] == c.plan[c.held];
  }

  /** Each transaction in the list waits for the one after it. */
  predicate Chain<R(==)>(list: seq<Claim<R>>)
  {
    forall k :: 0 <= k < |list| - 1 ==> Waits(list[k], list[k + 1])
  }

  lemma {:induction false} ChainUpward<R>(list: seq<Claim<R>>, rank: R -> nat, k: nat)
    requires (forall c :: c in list ==> Proper(c, rank)) && Chain(list) && k < |list|
    requires list[|list| - 1].held < |list[|list| - 1].plan|
    ensures list[0].held < |list[0].plan| && list[k].held < |list[k].plan|
    ensures rank(list[0].plan[list[0].held]) + k <= rank(list[k].plan[list[k].held])
    decreases k
  {
    hide Waits, Proper;
    assert list[0] in list && list[k] in list;
    ChainWants(list, k);
    ChainWants(list, 0);
    if k > 0 {
      ChainUpward(list, rank, k - 1);
      assert Waits(list[k - 1], list[k - 1 + 1]);
      assert list[k - 1] in list;
      WaitsUpward(list[k - 1], list[k], rank);
    }
  }

  lemma {:induction false} ChainWants<R>(list: seq<Claim<R>>, k: nat)
    requires Chain(list) && k < |list| && list[|list| - 1].held < |list[|list| - 1].plan|
    ensures list[k].held < |list[k].plan|
  {
    if k < |list| - 1 { assert Waits(list[k], list[k + 1]); }
  }

  /** No circle of transactions, each waiting for the next and the last for the first. */
  lemma {:induction false} NoWaitCycle<R>(list: seq<Claim<R>>, rank: R -> nat)
    requires list != [] && forall c :: c in list ==> Proper(c, rank)
    ensures !(Chain(list) && Waits(list[|list| - 1], list[0]))
  {
    if Chain(list) && Waits(list[|list| - 1], list[0]) {
      var last := |list| - 1;
      ChainUpward(list, rank, last);
      assert list[last] in list && list[0] in list;
      WaitsUpward(list[last], list[0], rank);
    }
  }

  /** Among transactions with ascending plans there is no such circle. */
  lemma {:induction false} NoDeadlock<T, R>(running: map<T, Claim<R>>, rank: R -> nat, circle: seq<Claim<R>>)
    requires (forall u :: u in running ==> Proper(running[u], rank)) && circle != []
    requires forall c :: c in circle ==> c in running.Values
    ensures !(Chain(circle) && Waits(circle[|circle| - 1], circle[0]))
  {
    hide Proper, Chain, Waits;
    NoWaitCycle(circle, rank);
  }

  /** Nobody in the map stands in the way of t. */
  ghost predicate Free<T, R>(running: map<T, Claim<R>>, t: T)
    requires t in running
  {
    forall u :: u in running && u != t ==> !Waits(running[t], running[u])
  }

  predicate Wanting<R>(c: Claim<R>) { c.held < |c.plan| }

  function Wants<R>(c: Claim<R>, rank: R -> nat): nat
    requires Wanting(c)
  {
    rank(c.plan[c.held])
  }

  lemma {:induction false} HighestWant<T, R>(running: map<T, Claim<R>>, rank: R -> nat, todo: set<T>) returns (t: T)
    requires todo != {} && todo <= running.Keys
    requires forall u :: u in todo ==> Wanting(running[u])
    ensures t in todo
    ensures forall u :: u in todo ==> Wants(running[u], rank) <= Wants(running[t], rank)
    decreases |todo|
  {
    hide Wanting, Wants;
    var x :| x in todo;
    t := x;
    assert todo == (todo - {x}) + {x};
    if todo - {x} != {} {
      var y := HighestWant(running, rank, todo - {x});
      if Wants(running[y], rank) > Wants(running[x], rank) { t := y; }
    }
  }

  /** However many transactions run, one of them can go on: it has all its locks or its next one is free. */
  lemma {:induction false} SomeoneProceeds<T, R>(running: map<T, Claim<R>>, rank: R -> nat) returns (t: T)
    requires running.Keys != {} && forall u :: u in running ==> Proper(running[u], rank)
    ensures t in running && Free(running, t)
  {
    if u :| u in running && !Wanting(running[u]) {
      t := u;
    } else {
      t := HighestWant(running, rank, running.Keys);
      HighestIsFree(running, rank, t);
    }
  }

  lemma {:induction false} HighestIsFree<T, R>(running: map<T, Claim<R>>, rank: R -> nat, t: T)
    requires t in running && forall u :: u in running ==> Proper(running[u], rank) && Wanting(running[u])
    requires forall u :: u in running ==> Wants(running[u], rank) <= Wants(running[t], rank)
    ensures Free(running, t)
  {
    forall u | u in running && u != t ensures !Waits(running[t], running[u]) {
      if Waits(running[t], running[u]) { WaitsUpward(running[t], running[u], rank); }
    }
  }
}
