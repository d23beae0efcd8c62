// Priority lists of kern/plist.c: lists sorted by ascending priority, a new node going after its equals.

module Plist {

  /** A node: the object it belongs to, and its priority. */
  datatype Node = Node(id: nat, prio: nat)

  type Plist = seq<Node>

  predicate Sorted(q: Plist) { forall i, j | 0 <= i < j < |q| :: q[i].prio <= q[j].prio }

  predicate Distinct(q: Plist) { forall i, j | 0 <= i < j < |q| :: q[i].id != q[j].id }

  function Ids(q: Plist): set<nat> { set n | n in q :: n.id }

  function Last(q: Plist): Node
    requires q != []
  {
    q[|q| - 1]
  }

  /** Where plist_add puts a node: before the first one of higher priority. */
  function Slot(q: Plist, prio: nat): (k: nat)
    ensures k <= |q|
    ensures forall i | 0 <= i < k :: q[i].prio <= prio
    ensures k < |q| ==> prio < q[k].prio
  {
    if q == [] || prio < q[0].prio then 0 else 1 + Slot(q[1..], prio)
  }

  function Insert(q: Plist, n: Node): Plist { q[..Slot(q, n.prio)] + [n] + q[Slot(q, n.prio)..] }

  function Remove(q: Plist, id: nat): Plist {
    if q == [] then [] else if q[0].id == id then q[1..] else [q[0]] + Remove(q[1..], id)
  }

  /** The priority of the node of an object. */
  function PrioOf(q: Plist, id: nat): nat
    requires id in Ids(q)
  {
    if q[0].id == id then q[0].prio
    else
      assert id in Ids(q[1..]) by {
        var n :| n in q && n.id == id;
        assert n in q[1..];
      }
      PrioOf(q[1..], id)
  }

  /** plist_add: the loop over the list up to the first node of higher priority. */
  method Add(q: Plist, n: Node) returns (r: Plist)
    requires Sorted(q)
    ensures r == Insert(q, n)
  {
    var k := 0;
    while k < |q| && n.prio >= q[k].prio
      invariant k <= |q|
      invariant forall i | 0 <= i < k :: q[i].prio <= n.prio
    {
      k := k + 1;
    }
    assert Slot(q, n.prio) == k;
    r := q[..k] + [n] + q[k..];
  }

  lemma InsertMembers(q: Plist, n: Node)
    ensures forall m :: m in Insert(q, n) <==> m == n || m in q
    ensures multiset(Insert(q, n)) == multiset(q) + multiset{n}
  {
    var k := Slot(q, n.prio);
    assert q == q[..k] + q[k..];
    assert n in Insert(q, n);
  }

  lemma InsertDistinct(q: Plist, n: Node)
    requires Distinct(q) && n.id !in Ids(q)
    ensures Distinct(Insert(q, n))
  {
    forall i | 0 <= i < |q| ensures q[i].id != n.id { assert q[i] in q; }
  }

  lemma InsertIds(q: Plist, n: Node)
    ensures Ids(Insert(q, n)) == Ids(q) + {n.id}
  {
    InsertMembers(q, n);
  }

  /** Insertion keeps the order. */
  lemma InsertSorted(q: Plist, n: Node)
    requires Sorted(q)
    ensures Sorted(Insert(q, n))
  {
  }

  /** Among equals the new node comes last: it is the last of all as soon as nothing is above it. */
  lemma InsertLast(q: Plist, n: Node)
    requires Sorted(q)
    ensures Last(Insert(q, n)) == if q != [] && n.prio < Last(q).prio then Last(q) else n
  {
  }

  lemma {:induction false} RemoveMembers(q: Plist, id: nat)
    requires Distinct(q)
    ensures forall n :: n in Remove(q, id) <==> n in q && n.id != id
    ensures |Remove(q, id)| <= |q|
  {
    if q != [] {
      assert q == [q[0]] + q[1..];
      RemoveMembers(q[1..], id);
      assert forall n | n in q[1..] :: n.id != q[0].id;
    }
  }

  lemma RemoveIds(q: Plist, id: nat)
    requires Distinct(q)
    ensures Ids(Remove(q, id)) == Ids(q) - {id}
  {
    RemoveMembers(q, id);
  }

  lemma {:induction false} RemoveSorted(q: Plist, id: nat)
    requires Sorted(q) && Distinct(q)
    ensures Sorted(Remove(q, id)) && Distinct(Remove(q, id))
  {
    if q != [] && q[0].id != id {
      var t, r := q[1..], Remove(q[1..], id);
      RemoveSorted(t, id);
      forall i | 0 <= i < |r| ensures q[0].prio <= r[i].prio && q[0].id != r[i].id {
        RemoveMembers(t, id);
        assert r[i] in t;
      }
    }
  }

  lemma {:induction false} PrioOfNode(q: Plist, n: Node)
    requires Distinct(q) && n in q
    ensures n.id in Ids(q) && PrioOf(q, n.id) == n.prio
  {
    if q[0] != n {
      assert n in q[1..];
      PrioOfNode(q[1..], n);
    }
  }
}
