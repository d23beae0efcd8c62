// Priority inheritance of kern/turnstile.c: turnstiles, the threads waiting on them and the threads owning
// them, and the propagation of priorities along that graph.

module Turnstile {
  import opened Common
  import opened Plist

  datatype Policy = Fifo | Rr | Fs | Idle

  /** A scheduling policy with a priority inside its class. */
  datatype Sched = Sched(policy: Policy, priority: nat)

  /** get_global_priority of the three scheduling classes. */
  function Global(x: Sched): nat {
    match x.policy
    case Fifo => 2 + x.priority
    case Rr => 2 + x.priority
    case Fs => 1
    case Idle => 0
  }

  type ThreadId = nat
  type TurnstileId = nat

  /** A thread with its turnstile_td. waits is the turnstile the thread is queued on; the nodes of owned are
      turnstiles. */
  datatype Thread = Thread(userSched: Sched, realSched: Sched, boosted: bool, waits: Option<TurnstileId>,
                           owned: Plist, topGlobal: nat, topSched: Sched)

  /** The nodes of waiters are threads. */
  datatype Turnstile = Turnstile(waiters: Plist, top: Option<ThreadId>, owner: Option<ThreadId>)

  datatype State = State(threads: map<ThreadId, Thread>, turnstiles: map<TurnstileId, Turnstile>)

  function Max(a: nat, b: nat): nat { if a > b then a else b }

  // ---------------------------------------------------------------- operations on one object

  /** thread_pi_setscheduler. */
  function PiSetScheduler(th: Thread, x: Sched): Thread {
    if th.realSched == x then th
    else if Global(x) <= Global(th.userSched) then th.(realSched := th.userSched, boosted := false)
    else th.(realSched := x, boosted := true)
  }

  /** The first half of an iteration of the propagation loop: the thread gets its intended priority. */
  function Reprioritized(th: Thread): Thread {
    if th.topGlobal > Global(th.userSched) then
      if th.topGlobal != Global(th.realSched) then PiSetScheduler(th, th.topSched) else th
    else if Global(th.userSched) != Global(th.realSched) then PiSetScheduler(th, th.userSched)
    else th
  }

  /** The scheduling parameters of thread_setscheduler, before it propagates. */
  function SetUser(th: Thread, x: Sched): Thread {
    if th.userSched == x then th
    else if th.boosted then
      if Global(x) >= Global(th.realSched) then th.(userSched := x, realSched := x, boosted := false) else th.(userSched := x)
    else th.(userSched := x, realSched := x)
  }

  /** turnstile_update_top_waiter. */
  function WithWaiters(q: Turnstile, waiters: Plist): Turnstile {
    q.(waiters := waiters, top := if waiters == [] then None else Some(Last(waiters).id))
  }

  // ---------------------------------------------------------------- operations on the graph

  ghost predicate Wf(s: State) {
    && (forall t | t in s.threads :: s.threads[t].waits.Some? ==> s.threads[t].waits.value in s.turnstiles)
    && (forall t, n | t in s.threads && n in s.threads[t].owned :: n.id in s.turnstiles)
    && (forall q, n | q in s.turnstiles && n in s.turnstiles[q].waiters :: n.id in s.threads)
    && (forall q | q in s.turnstiles && s.turnstiles[q].owner.Some? :: s.turnstiles[q].owner.value in s.threads)
    && (forall q | q in s.turnstiles && s.turnstiles[q].top.Some? ::
          s.turnstiles[q].top.value in s.threads && s.turnstiles[q].top.value in Ids(s.turnstiles[q].waiters))
  }

  function SetThread(s: State, t: ThreadId, th: Thread): State { s.(threads := s.threads[t := th]) }

  function SetTurnstile(s: State, q: TurnstileId, k: Turnstile): State { s.(turnstiles := s.turnstiles[q := k]) }

  /** turnstile_td_update_top_priority, for a thread that owns the given turnstiles. */
  function UpdateTop(s: State, th: Thread): Thread
    requires Wf(s) && forall n | n in th.owned :: n.id in s.turnstiles
  {
    if th.owned == [] then th.(topGlobal := 0)
    else
      var k := s.turnstiles[Last(th.owned).id];
      if k.top == None then th.(topGlobal := 0)
      else th.(topGlobal := PrioOf(k.waiters, k.top.value), topSched := s.threads[k.top.value].realSched)
  }

  /** turnstile_td_own. */
  function Own(s: State, o: ThreadId, q: TurnstileId): State
    requires Wf(s) && o in s.threads && q in s.turnstiles && s.turnstiles[q].top.Some?
  {
    var node := Node(q, Global(s.threads[s.turnstiles[q].top.value].realSched));
    InsertMembers(s.threads[o].owned, node);
    var th := UpdateTop(s, s.threads[o].(owned := Insert(s.threads[o].owned, node)));
    SetTurnstile(SetThread(s, o, th), q, s.turnstiles[q].(owner := Some(o)))
  }

  /** turnstile_td_disown. */
  function Disown(s: State, o: ThreadId, q: TurnstileId): State
    requires Wf(s) && o in s.threads && q in s.turnstiles && Distinct(s.threads[o].owned)
  {
    RemoveMembers(s.threads[o].owned, q);
    var th := UpdateTop(s, s.threads[o].(owned := Remove(s.threads[o].owned, q)));
    SetTurnstile(SetThread(s, o, th), q, s.turnstiles[q].(owner := None))
  }

  /** turnstile_td_reown: the node of the turnstile is queued again, with a new priority. */
  function Reown(s: State, o: ThreadId, q: TurnstileId): State
    requires Wf(s) && o in s.threads && q in s.turnstiles && s.turnstiles[q].top.Some?
    requires Distinct(s.threads[o].owned)
  {
    var th := s.threads[o];
    RemoveMembers(th.owned, q);
    var node := Node(q, Global(s.threads[s.turnstiles[q].top.value].realSched));
    InsertMembers(Remove(th.owned, q), node);
    SetThread(s, o, UpdateTop(s, th.(owned := Insert(Remove(th.owned, q), node))))
  }

  /** turnstile_requeue_waiter on the turnstile the thread waits on. */
  function Requeued(s: State, t: ThreadId): State
    requires t in s.threads && s.threads[t].waits.Some? && s.threads[t].waits.value in s.turnstiles
  {
    var q := s.threads[t].waits.value;
    var k := s.turnstiles[q];
    SetTurnstile(s, q, WithWaiters(k, Insert(Remove(k.waiters, t), Node(t, Global(s.threads[t].realSched)))))
  }

  // ---------------------------------------------------------------- consistency

  ghost predicate TurnstileInv(s: State, q: TurnstileId)
    requires q in s.turnstiles
  {
    var k := s.turnstiles[q];
    && Sorted(k.waiters) && Distinct(k.waiters)
    && (forall n | n in k.waiters :: n.id in s.threads && s.threads[n.id].waits == Some(q))
    && k.top == (if k.waiters == [] then None else Some(Last(k.waiters).id))
    && (k.owner.Some? ==>
          k.waiters != [] && k.owner.value in s.threads && q in Ids(s.threads[k.owner.value].owned))
  }

  /** A thread knows the turnstiles it owns, and the priority of the first thread waiting on each. */
  ghost predicate ThreadInv(s: State, t: ThreadId)
    requires t in s.threads
  {
    var th := s.threads[t];
    && (th.waits.Some? ==> th.waits.value in s.turnstiles && t in Ids(s.turnstiles[th.waits.value].waiters))
    && Sorted(th.owned) && Distinct(th.owned)
    && (forall n | n in th.owned :: OwnedNode(s, t, n))
    && th.topGlobal == (if th.owned == [] then 0 else Last(th.owned).prio)
    && (th.owned != [] ==> Global(th.topSched) == th.topGlobal)
  }

  ghost predicate OwnedNode(s: State, t: ThreadId, n: Node) {
    && n.id in s.turnstiles && s.turnstiles[n.id].owner == Some(t)
    && s.turnstiles[n.id].waiters != [] && n.prio == Last(s.turnstiles[n.id].waiters).prio
  }

  ghost predicate Base(s: State) {
    && (forall q | q in s.turnstiles :: TurnstileInv(s, q))
    && (forall t | t in s.threads :: ThreadInv(s, t))
  }

  /** The thread has its intended priority. */
  ghost predicate Intended(th: Thread) { Global(th.realSched) == Max(Global(th.userSched), th.topGlobal) }

  /** The thread is at its intended position in the turnstile it waits on. */
  ghost predicate Placed(s: State, t: ThreadId)
    requires t in s.threads
  {
    s.threads[t].waits.Some? && s.threads[t].waits.value in s.turnstiles ==>
      forall n | n in s.turnstiles[s.threads[t].waits.value].waiters && n.id == t :: n.prio == Global(s.threads[t].realSched)
  }

  ghost predicate Settled(s: State, t: ThreadId)
    requires t in s.threads
  {
    Intended(s.threads[t]) && Placed(s, t)
  }

  ghost predicate ConsistentExcept(s: State, x: ThreadId) {
    Base(s) && forall t | t in s.threads && t != x :: Settled(s, t)
  }

  ghost predicate Consistent(s: State) {
    Base(s) && forall t | t in s.threads :: Settled(s, t)
  }

  /** The thread that t waits for. */
  function Next(s: State, t: ThreadId): Option<ThreadId>
    requires t in s.threads
  {
    var w := s.threads[t].waits;
    if w.Some? && w.value in s.turnstiles then s.turnstiles[w.value].owner else None
  }

  /** No thread waits for itself, through any number of owners. */
  ghost predicate Ranked(s: State, rank: map<ThreadId, nat>) {
    forall t | t in s.threads ::
      t in rank && (Next(s, t).Some? ==> Next(s, t).value in rank && rank[Next(s, t).value] < rank[t])
  }

  ghost predicate Acyclic(s: State) { exists rank :: Ranked(s, rank) }

  /** Propagation changes no user priority and no edge of the graph. */
  ghost predicate SameGraph(s: State, s': State) {
    && s'.threads.Keys == s.threads.Keys && s'.turnstiles.Keys == s.turnstiles.Keys
    && (forall t | t in s.threads :: s'.threads[t].userSched == s.threads[t].userSched && s'.threads[t].waits == s.threads[t].waits)
    && (forall q | q in s.turnstiles :: s'.turnstiles[q].owner == s.turnstiles[q].owner)
  }

  lemma BaseWf(s: State)
    requires Base(s)
    ensures Wf(s)
  {
    forall q, n | q in s.turnstiles && n in s.turnstiles[q].waiters ensures n.id in s.threads {
      assert TurnstileInv(s, q);
    }
    forall t, n | t in s.threads && n in s.threads[t].owned ensures n.id in s.turnstiles {
      assert ThreadInv(s, t) && OwnedNode(s, t, n);
    }
    forall t | t in s.threads && s.threads[t].waits.Some? ensures s.threads[t].waits.value in s.turnstiles {
      assert ThreadInv(s, t);
    }
    forall q | q in s.turnstiles
      ensures s.turnstiles[q].owner.Some? ==> s.turnstiles[q].owner.value in s.threads
      ensures s.turnstiles[q].top.Some? ==>
                s.turnstiles[q].top.value in s.threads && s.turnstiles[q].top.value in Ids(s.turnstiles[q].waiters)
    {
      assert TurnstileInv(s, q);
      if s.turnstiles[q].waiters != [] { assert Last(s.turnstiles[q].waiters) in s.turnstiles[q].waiters; }
    }
  }

  // ---------------------------------------------------------------- one thread gets its priority

  lemma ReprioritizedIntended(th: Thread)
    requires th.topGlobal > 0 ==> Global(th.topSched) == th.topGlobal
    ensures Intended(Reprioritized(th))
    ensures Reprioritized(th) == th.(realSched := Reprioritized(th).realSched, boosted := Reprioritized(th).boosted)
  {}

  /** Changing the scheduling parameters of a thread moves no node. */
  lemma SchedBase(s: State, t: ThreadId, th: Thread)
    requires Base(s) && t in s.threads
    requires th == s.threads[t].(userSched := th.userSched, realSched := th.realSched, boosted := th.boosted)
    ensures Base(SetThread(s, t, th))
    ensures forall u | u in s.threads && u != t && Settled(s, u) :: Settled(SetThread(s, t, th), u)
  {
    var s' := SetThread(s, t, th);
    forall q | q in s'.turnstiles ensures TurnstileInv(s', q) { assert TurnstileInv(s, q); }
    forall u | u in s'.threads ensures ThreadInv(s', u) {
      assert ThreadInv(s, u);
      forall n | n in s'.threads[u].owned ensures OwnedNode(s', u, n) { assert OwnedNode(s, u, n); }
    }
  }

  // ---------------------------------------------------------------- one turnstile changes

  ghost predicate AllPlaced(s: State) { forall t | t in s.threads :: Placed(s, t) }

  /** TurnstileInv but for an owned turnstile that may have lost its last waiter. */
  ghost predicate TurnstileLoose(s: State, q: TurnstileId)
    requires q in s.turnstiles
  {
    var k := s.turnstiles[q];
    && Sorted(k.waiters) && Distinct(k.waiters)
    && (forall n | n in k.waiters :: n.id in s.threads && s.threads[n.id].waits == Some(q))
    && k.top == (if k.waiters == [] then None else Some(Last(k.waiters).id))
    && (k.owner.Some? ==> k.owner.value in s.threads && q in Ids(s.threads[k.owner.value].owned))
  }

  /** ThreadInv but for what an owner knows about turnstile q. */
  ghost predicate ThreadLoose(s: State, t: ThreadId, q: TurnstileId)
    requires t in s.threads && q in s.turnstiles
  {
    var th := s.threads[t];
    && (th.waits.Some? ==> th.waits.value in s.turnstiles && t in Ids(s.turnstiles[th.waits.value].waiters))
    && Sorted(th.owned) && Distinct(th.owned)
    && (forall n | n in th.owned && n.id != q :: OwnedNode(s, t, n))
    && (q in Ids(th.owned) ==> s.turnstiles[q].owner == Some(t))
    && (q !in Ids(th.owned) ==> th.topGlobal == (if th.owned == [] then 0 else Last(th.owned).prio))
    && (q !in Ids(th.owned) && th.owned != [] ==> Global(th.topSched) == th.topGlobal)
  }

  /** The waiters of q have changed, and its owner has yet to notice. */
  ghost predicate BaseBut(s: State, q: TurnstileId) {
    && q in s.turnstiles && Wf(s)
    && TurnstileLoose(s, q)
    && (forall r | r in s.turnstiles && r != q :: TurnstileInv(s, r))
    && (forall t | t in s.threads :: ThreadLoose(s, t, q))
  }

  lemma TopIsLast(s: State, k: Turnstile)
    requires Wf(s) && Distinct(k.waiters) && k.waiters != [] && k.top == Some(Last(k.waiters).id)
    ensures k.top.value in Ids(k.waiters) && PrioOf(k.waiters, k.top.value) == Last(k.waiters).prio
  {
    assert Last(k.waiters) in k.waiters;
    PrioOfNode(k.waiters, Last(k.waiters));
  }

  /** What a thread learns when it looks at the turnstiles it owns. */
  lemma UpdateTopKnows(s: State, th: Thread)
    requires Wf(s) && AllPlaced(s)
    requires forall n | n in th.owned :: n.id in s.turnstiles && TurnstileLoose(s, n.id)
                                          && s.turnstiles[n.id].waiters != []
                                          && n.prio == Last(s.turnstiles[n.id].waiters).prio
    ensures var u := UpdateTop(s, th);
            && u == th.(topGlobal := u.topGlobal, topSched := u.topSched)
            && u.topGlobal == (if th.owned == [] then 0 else Last(th.owned).prio)
            && (th.owned != [] ==> Global(u.topSched) == u.topGlobal)
  {
    if th.owned != [] {
      var n := Last(th.owned);
      assert n in th.owned;
      var k := s.turnstiles[n.id];
      TopIsLast(s, k);
      var w := Last(k.waiters);
      assert w in k.waiters && Placed(s, w.id);
    }
  }

  lemma OthersKnow(s: State, s': State, t: ThreadId, q: TurnstileId)
    requires t in s.threads && q in s.turnstiles && ThreadLoose(s, t, q) && q !in Ids(s.threads[t].owned)
    requires t in s'.threads && s'.threads[t] == s.threads[t] && s'.turnstiles.Keys == s.turnstiles.Keys
    requires s'.turnstiles[q].waiters == s.turnstiles[q].waiters
    requires forall r | r in s.turnstiles && r != q :: s'.turnstiles[r] == s.turnstiles[r]
    ensures ThreadInv(s', t)
  {
    forall n | n in s.threads[t].owned ensures OwnedNode(s', t, n) {
      assert n.id in Ids(s.threads[t].owned);
      assert OwnedNode(s, t, n);
    }
  }

  lemma OtherTurnstiles(s: State, s': State, r: TurnstileId, o: ThreadId)
    requires r in s.turnstiles && TurnstileInv(s, r)
    requires r in s'.turnstiles && s'.turnstiles[r] == s.turnstiles[r] && s'.threads.Keys == s.threads.Keys
    requires forall u | u in s.threads :: s'.threads[u].waits == s.threads[u].waits
    requires forall u | u in s.threads && u != o :: s'.threads[u].owned == s.threads[u].owned
    requires s.turnstiles[r].owner == Some(o) && o in s.threads && r in Ids(s.threads[o].owned) ==>
               r in Ids(s'.threads[o].owned)
    ensures TurnstileInv(s', r)
  {}

  ghost predicate Fresh(s: State, o: ThreadId, q: TurnstileId) {
    BaseBut(s, q) && AllPlaced(s) && o in s.threads
  }

  /** The list of owned turnstiles with q queued again. */
  lemma OwnedNodes(s: State, o: ThreadId, q: TurnstileId, rest: Plist, prio: nat)
    requires Fresh(s, o, q) && s.turnstiles[q].waiters != [] && prio == Last(s.turnstiles[q].waiters).prio
    requires q !in Ids(rest) && forall n | n in rest :: n in s.threads[o].owned
    ensures forall n | n in Insert(rest, Node(q, prio)) ::
      && n.id in s.turnstiles && TurnstileLoose(s, n.id) && s.turnstiles[n.id].waiters != []
      && n.prio == Last(s.turnstiles[n.id].waiters).prio
      && (n.id != q ==> OwnedNode(s, o, n))
  {
    var node := Node(q, prio);
    InsertMembers(rest, node);
    assert ThreadLoose(s, o, q);
    hide Insert;
    forall n | n in rest ensures n.id != q && OwnedNode(s, o, n) && TurnstileInv(s, n.id) {
      assert n.id in Ids(rest);
    }
  }

  /** The owner's new record, whether it owned q before or not. */
  lemma OwnerKnows(s: State, o: ThreadId, q: TurnstileId, th: Thread, prio: nat)
    requires Fresh(s, o, q) && s.turnstiles[q].waiters != [] && prio == Last(s.turnstiles[q].waiters).prio
    requires q !in Ids(th.owned) && Sorted(th.owned) && Distinct(th.owned)
    requires th == s.threads[o].(owned := th.owned) && forall n | n in th.owned :: n in s.threads[o].owned
    ensures var owned := Insert(th.owned, Node(q, prio));
            && (forall n | n in owned :: n.id in s.turnstiles)
            && var u := UpdateTop(s, th.(owned := owned));
            && Owns(s, u, q, Some(o), o) && Ids(owned) == Ids(th.owned) + {q}
            && u == th.(owned := owned, topGlobal := u.topGlobal, topSched := u.topSched)
  {
    var node := Node(q, prio);
    InsertIds(th.owned, node);
    InsertSorted(th.owned, node);
    InsertDistinct(th.owned, node);
    OwnedNodes(s, o, q, th.owned, prio);
    UpdateTopKnows(s, th.(owned := Insert(th.owned, node)));
  }

  /** What an owner's record says once q has the given owner. */
  ghost predicate Owns(s: State, th: Thread, q: TurnstileId, owner: Option<ThreadId>, o: ThreadId)
    requires q in s.turnstiles
  {
    && Sorted(th.owned) && Distinct(th.owned)
    && (forall n | n in th.owned ::
          if n.id == q then owner == Some(o) && s.turnstiles[q].waiters != [] && n.prio == Last(s.turnstiles[q].waiters).prio
          else OwnedNode(s, o, n))
    && th.topGlobal == (if th.owned == [] then 0 else Last(th.owned).prio)
    && (th.owned != [] ==> Global(th.topSched) == th.topGlobal)
  }

  lemma OwnsKnows(s: State, s': State, o: ThreadId, th: Thread, q: TurnstileId, owner: Option<ThreadId>)
    requires Fresh(s, o, q) && Owns(s, th, q, owner, o)
    requires th == s.threads[o].(owned := th.owned, topGlobal := th.topGlobal, topSched := th.topSched)
    requires s' == SetTurnstile(SetThread(s, o, th), q, s.turnstiles[q].(owner := owner))
    ensures ThreadInv(s', o)
  {
    assert ThreadLoose(s, o, q);
    forall n | n in th.owned ensures OwnedNode(s', o, n) {
      assert n.id != q ==> OwnedNode(s, o, n);
    }
  }

  /** The owner of q, new or old, has a record that is right again. */
  ghost predicate Renewed(s: State, s': State, o: ThreadId, th: Thread, q: TurnstileId, owner: Option<ThreadId>) {
    && Fresh(s, o, q) && Owns(s, th, q, owner, o)
    && th == s.threads[o].(owned := th.owned, topGlobal := th.topGlobal, topSched := th.topSched)
    && s' == SetTurnstile(SetThread(s, o, th), q, s.turnstiles[q].(owner := owner))
    && (s.turnstiles[q].owner == None || s.turnstiles[q].owner == Some(o))
    && Ids(th.owned) - {q} == Ids(s.threads[o].owned) - {q}
    && (owner == None || (owner == Some(o) && q in Ids(th.owned) && s.turnstiles[q].waiters != []))
  }

  lemma SameElsewhere(a: set<nat>, b: set<nat>, q: nat, r: nat)
    requires a - {q} == b - {q} && r != q
    ensures r in a <==> r in b
  {
    assert r in a <==> r in a - {q};
    assert r in b <==> r in b - {q};
  }

  lemma RenewedSelf(s: State, s': State, o: ThreadId, th: Thread, q: TurnstileId, owner: Option<ThreadId>)
    requires o in s.threads && q in s.turnstiles && TurnstileLoose(s, q)
    requires th == s.threads[o].(owned := th.owned, topGlobal := th.topGlobal, topSched := th.topSched)
    requires s' == SetTurnstile(SetThread(s, o, th), q, s.turnstiles[q].(owner := owner))
    requires owner == None || (owner == Some(o) && q in Ids(th.owned) && s.turnstiles[q].waiters != [])
    ensures TurnstileInv(s', q)
  {}

  lemma RenewedOther(s: State, s': State, o: ThreadId, th: Thread, q: TurnstileId, owner: Option<ThreadId>,
                     r: TurnstileId)
    requires o in s.threads && q in s.turnstiles && r in s.turnstiles && r != q && TurnstileInv(s, r)
    requires th == s.threads[o].(owned := th.owned, topGlobal := th.topGlobal, topSched := th.topSched)
    requires s' == SetTurnstile(SetThread(s, o, th), q, s.turnstiles[q].(owner := owner))
    requires r in Ids(s.threads[o].owned) ==> r in Ids(th.owned)
    ensures TurnstileInv(s', r)
  {
    OtherTurnstiles(s, s', r, o);
  }

  lemma RenewedTurnstile(s: State, s': State, o: ThreadId, th: Thread, q: TurnstileId, owner: Option<ThreadId>,
                         r: TurnstileId)
    requires Renewed(s, s', o, th, q, owner) && r in s.turnstiles
    ensures TurnstileInv(s', r)
  {
    if r == q {
      RenewedSelf(s, s', o, th, q, owner);
    } else {
      SameElsewhere(Ids(th.owned), Ids(s.threads[o].owned), q, r);
      RenewedOther(s, s', o, th, q, owner, r);
    }
  }

  lemma OwnedByOne(s: State, u: ThreadId, q: TurnstileId)
    requires BaseBut(s, q) && u in s.threads && q in Ids(s.threads[u].owned)
    ensures s.turnstiles[q].owner == Some(u)
  {
    assert ThreadLoose(s, u, q);
  }

  lemma RenewedThread(s: State, s': State, o: ThreadId, th: Thread, q: TurnstileId, owner: Option<ThreadId>,
                      u: ThreadId)
    requires o in s.threads && q in s.turnstiles && u in s.threads && ThreadLoose(s, u, q)
    requires u != o && q !in Ids(s.threads[u].owned)
    requires s' == SetTurnstile(SetThread(s, o, th), q, s.turnstiles[q].(owner := owner))
    ensures ThreadInv(s', u)
  {
    OthersKnow(s, s', u, q);
  }

  lemma RenewedPlaced(s: State, s': State, o: ThreadId, th: Thread, q: TurnstileId, owner: Option<ThreadId>,
                      u: ThreadId)
    requires o in s.threads && q in s.turnstiles && u in s.threads && Placed(s, u)
    requires th == s.threads[o].(owned := th.owned, topGlobal := th.topGlobal, topSched := th.topSched)
    requires s' == SetTurnstile(SetThread(s, o, th), q, s.turnstiles[q].(owner := owner))
    ensures Placed(s', u)
  {}

  lemma NewOwner(s: State, s': State, o: ThreadId, th: Thread, q: TurnstileId, owner: Option<ThreadId>)
    requires Renewed(s, s', o, th, q, owner)
    ensures Base(s') && AllPlaced(s')
  {
    forall r | r in s'.turnstiles ensures TurnstileInv(s', r) { RenewedTurnstile(s, s', o, th, q, owner, r); }
    forall u | u in s'.threads ensures ThreadInv(s', u) && Placed(s', u) {
      if u != o {
        if q in Ids(s.threads[u].owned) { OwnedByOne(s, u, q); }
        RenewedThread(s, s', o, th, q, owner, u);
      } else {
        OwnsKnows(s, s', o, th, q, owner);
      }
      RenewedPlaced(s, s', o, th, q, owner, u);
    }
  }

  lemma TopPrio(s: State, q: TurnstileId)
    requires BaseBut(s, q) && AllPlaced(s) && s.turnstiles[q].waiters != []
    ensures s.turnstiles[q].top.Some? && s.turnstiles[q].top.value in s.threads
    ensures Global(s.threads[s.turnstiles[q].top.value].realSched) == Last(s.turnstiles[q].waiters).prio
  {
    var w := Last(s.turnstiles[q].waiters);
    assert w in s.turnstiles[q].waiters && Placed(s, w.id);
  }

  /** Only what o knows about the turnstiles it owns has changed, and the owner of q. */
  ghost predicate OwnerChange(s: State, s': State, o: ThreadId, q: TurnstileId, owner: Option<ThreadId>) {
    && o in s.threads && o in s'.threads && q in s.turnstiles && var th := s'.threads[o];
    && th == s.threads[o].(owned := th.owned, topGlobal := th.topGlobal, topSched := th.topSched)
    && s' == SetTurnstile(SetThread(s, o, th), q, s.turnstiles[q].(owner := owner))
  }

  lemma OwnBase(s: State, o: ThreadId, q: TurnstileId)
    requires Fresh(s, o, q) && s.turnstiles[q].waiters != [] && s.turnstiles[q].owner == None
    ensures s.turnstiles[q].top.Some? && Base(Own(s, o, q)) && AllPlaced(Own(s, o, q))
    ensures OwnerChange(s, Own(s, o, q), o, q, Some(o))
  {
    TopPrio(s, q);
    assert ThreadLoose(s, o, q);
    OwnerKnows(s, o, q, s.threads[o], Last(s.turnstiles[q].waiters).prio);
    NewOwner(s, Own(s, o, q), o, Own(s, o, q).threads[o], q, Some(o));
  }

  lemma ReownBase(s: State, o: ThreadId, q: TurnstileId)
    requires Fresh(s, o, q) && s.turnstiles[q].waiters != [] && s.turnstiles[q].owner == Some(o)
    ensures s.turnstiles[q].top.Some? && Distinct(s.threads[o].owned)
    ensures Base(Reown(s, o, q)) && AllPlaced(Reown(s, o, q))
    ensures OwnerChange(s, Reown(s, o, q), o, q, Some(o))
  {
    TopPrio(s, q);
    assert ThreadLoose(s, o, q);
    var owned := s.threads[o].owned;
    RemoveMembers(owned, q);
    RemoveSorted(owned, q);
    RemoveIds(owned, q);
    OwnerKnows(s, o, q, s.threads[o].(owned := Remove(owned, q)), Last(s.turnstiles[q].waiters).prio);
    assert s.turnstiles[q := s.turnstiles[q].(owner := Some(o))] == s.turnstiles;
    NewOwner(s, Reown(s, o, q), o, Reown(s, o, q).threads[o], q, Some(o));
  }

  lemma DisownBase(s: State, o: ThreadId, q: TurnstileId)
    requires Fresh(s, o, q) && s.turnstiles[q].owner == Some(o)
    ensures Distinct(s.threads[o].owned)
    ensures Base(Disown(s, o, q)) && AllPlaced(Disown(s, o, q))
    ensures OwnerChange(s, Disown(s, o, q), o, q, None)
  {
    assert ThreadLoose(s, o, q);
    var owned := s.threads[o].owned;
    RemoveMembers(owned, q);
    RemoveSorted(owned, q);
    RemoveIds(owned, q);
    var th := s.threads[o].(owned := Remove(owned, q));
    forall n | n in th.owned ensures n.id != q && OwnedNode(s, o, n) && TurnstileInv(s, n.id) {}
    UpdateTopKnows(s, th);
    NewOwner(s, Disown(s, o, q), o, Disown(s, o, q).threads[o], q, None);
  }

  // ---------------------------------------------------------------- the waiters of one turnstile change

  lemma LooseBase(s: State, q: TurnstileId)
    requires Base(s) && q in s.turnstiles
    ensures BaseBut(s, q)
  {
    BaseWf(s);
    assert TurnstileInv(s, q);
    forall t | t in s.threads ensures ThreadLoose(s, t, q) {
      assert ThreadInv(s, t);
      forall n | n in s.threads[t].owned ensures OwnedNode(s, t, n) {}
    }
  }

  /** With no owner to tell, a turnstile is in order as soon as its own list is. */
  lemma UnownedBase(s: State, q: TurnstileId)
    requires BaseBut(s, q) && s.turnstiles[q].owner == None
    ensures Base(s)
  {
    forall t | t in s.threads ensures ThreadInv(s, t) {
      assert ThreadLoose(s, t, q);
      OthersKnow(s, s, t, q);
    }
  }

  /** The waiters of q become list, and only thread t joins, leaves or moves. */
  ghost predicate Relisted(s: State, s': State, t: ThreadId, q: TurnstileId, list: Plist) {
    && Base(s) && q in s.turnstiles && t in s.threads && t in s'.threads
    && s'.turnstiles == s.turnstiles[q := WithWaiters(s.turnstiles[q], list)]
    && s'.threads == s.threads[t := s.threads[t].(waits := s'.threads[t].waits)]
    && Sorted(list) && Distinct(list) && Ids(list) - {t} == Ids(s.turnstiles[q].waiters) - {t}
    && (forall n | n in list && n.id != t :: n in s.turnstiles[q].waiters)
    && (s.threads[t].waits == None || s.threads[t].waits == Some(q))
    && s'.threads[t].waits == (if t in Ids(list) then Some(q) else None)
    && (forall n | n in list && n.id == t :: n.prio == Global(s.threads[t].realSched))
  }

  lemma RelistedThread(s: State, s': State, t: ThreadId, q: TurnstileId, list: Plist, u: ThreadId)
    requires Relisted(s, s', t, q, list) && u in s.threads
    ensures ThreadLoose(s', u, q) && (u == t || Placed(s, u) ==> Placed(s', u))
  {
    assert ThreadInv(s, u) && TurnstileInv(s, q);
    assert u != t && u in Ids(s.turnstiles[q].waiters) ==> u in Ids(list) - {t};
    forall n | n in s.threads[u].owned && n.id != q ensures OwnedNode(s', u, n) { assert OwnedNode(s, u, n); }
    assert q in Ids(s.threads[u].owned) ==> s.turnstiles[q].owner == Some(u) by {
      if q in Ids(s.threads[u].owned) {
        var n :| n in s.threads[u].owned && n.id == q;
        assert OwnedNode(s, u, n);
      }
    }
  }

  lemma RelistedTurnstile(s: State, s': State, t: ThreadId, q: TurnstileId, list: Plist)
    requires Relisted(s, s', t, q, list)
    ensures TurnstileLoose(s', q)
    ensures forall r | r in s.turnstiles && r != q :: TurnstileInv(s', r)
  {
    assert TurnstileInv(s, q);
    forall n | n in list ensures n.id in s.threads && s'.threads[n.id].waits == Some(q) {
      assert n.id == t ==> t in Ids(list);
    }
    forall r | r in s.turnstiles && r != q ensures TurnstileInv(s', r) {
      assert TurnstileInv(s, r);
      forall n | n in s.turnstiles[r].waiters ensures n.id != t { assert s.threads[n.id].waits == Some(r); }
    }
  }

  lemma RelistedWf(s: State, s': State, t: ThreadId, q: TurnstileId, list: Plist)
    requires Relisted(s, s', t, q, list)
    ensures Wf(s')
  {
    BaseWf(s);
    RelistedTurnstile(s, s', t, q, list);
    assert list != [] ==> Last(list) in list;
  }

  lemma RelistedBase(s: State, s': State, t: ThreadId, q: TurnstileId, list: Plist)
    requires Relisted(s, s', t, q, list) && forall u | u in s.threads && u != t :: Placed(s, u)
    ensures BaseBut(s', q) && AllPlaced(s')
  {
    RelistedWf(s, s', t, q, list);
    RelistedTurnstile(s, s', t, q, list);
    forall u | u in s'.threads ensures ThreadLoose(s', u, q) && Placed(s', u) { RelistedThread(s, s', t, q, list, u); }
  }

  /** turnstile_requeue_waiter gives the thread its place back; only the owner has yet to notice. */
  lemma RequeuedBase(s: State, t: ThreadId)
    requires Base(s) && t in s.threads && s.threads[t].waits.Some?
    requires forall u | u in s.threads && u != t :: Placed(s, u)
    ensures s.threads[t].waits.value in s.turnstiles
    ensures var s', q := Requeued(s, t), s.threads[t].waits.value;
            BaseBut(s', q) && AllPlaced(s') && s'.turnstiles[q].waiters != [] && s'.threads == s.threads
  {
    assert ThreadInv(s, t);
    var q := s.threads[t].waits.value;
    assert TurnstileInv(s, q);
    var old', node := s.turnstiles[q].waiters, Node(t, Global(s.threads[t].realSched));
    var rest := Remove(old', t);
    RemoveMembers(old', t);
    RemoveSorted(old', t);
    RemoveIds(old', t);
    InsertMembers(rest, node);
    InsertSorted(rest, node);
    InsertDistinct(rest, node);
    InsertIds(rest, node);
    assert s.threads[t := s.threads[t].(waits := Some(q))] == s.threads;
    RelistedBase(s, Requeued(s, t), t, q, Insert(rest, node));
    assert node in Insert(rest, node);
  }

  // ---------------------------------------------------------------- propagation

  /** The thread gets its intended priority; if it is also in its place, all is consistent. */
  lemma ReprioritizeStep(s: State, t: ThreadId)
    requires ConsistentExcept(s, t) && t in s.threads
    ensures var s' := SetThread(s, t, Reprioritized(s.threads[t]));
            && ConsistentExcept(s', t) && Intended(s'.threads[t]) && SameGraph(s, s')
            && (Placed(s', t) ==> Consistent(s'))
  {
    assert ThreadInv(s, t);
    ReprioritizedIntended(s.threads[t]);
    SchedBase(s, t, Reprioritized(s.threads[t]));
  }

  /** The thread is in its place exactly when its waiter has its priority. */
  lemma PlacedByPrio(s: State, t: ThreadId)
    requires Base(s) && t in s.threads && s.threads[t].waits.Some?
    ensures s.threads[t].waits.value in s.turnstiles && t in Ids(s.turnstiles[s.threads[t].waits.value].waiters)
    ensures Placed(s, t) <==> PrioOf(s.turnstiles[s.threads[t].waits.value].waiters, t) == Global(s.threads[t].realSched)
  {
    assert ThreadInv(s, t);
    var q := s.threads[t].waits.value;
    assert TurnstileInv(s, q);
    var w := s.turnstiles[q].waiters;
    var n :| n in w && n.id == t;
    PrioOfNode(w, n);
    forall m | m in w && m.id == t ensures m.prio == n.prio { PrioOfNode(w, m); }
  }

  lemma RequeuedGraph(s: State, t: ThreadId)
    requires Base(s) && t in s.threads && s.threads[t].waits.Some?
    requires s.threads[t].waits.value in s.turnstiles
    ensures SameGraph(s, Requeued(s, t)) && Requeued(s, t).threads == s.threads
  {}

  /** Every thread is in its place, and has its intended priority. */
  lemma SettledAll(s: State, x: Option<ThreadId>)
    requires Base(s) && AllPlaced(s) && forall u | u in s.threads && Some(u) != x :: Intended(s.threads[u])
    ensures match x case None => Consistent(s) case Some(o) => ConsistentExcept(s, o)
  {}

  lemma RequeueUnowned(s: State, t: ThreadId)
    requires ConsistentExcept(s, t) && t in s.threads && Intended(s.threads[t]) && s.threads[t].waits.Some?
    requires s.threads[t].waits.value in s.turnstiles && s.turnstiles[s.threads[t].waits.value].owner == None
    ensures Consistent(Requeued(s, t)) && SameGraph(s, Requeued(s, t))
  {
    hide Base, BaseBut, Wf;
    RequeuedBase(s, t);
    RequeuedGraph(s, t);
    UnownedBase(Requeued(s, t), s.threads[t].waits.value);
    SettledAll(Requeued(s, t), None);
  }

  /** When an owner learns about q, only that owner can be unsettled. */
  lemma OwnerUnsettled(s: State, s': State, o: ThreadId, q: TurnstileId, owner: Option<ThreadId>)
    requires OwnerChange(s, s', o, q, owner) && Base(s') && AllPlaced(s')
    requires forall u | u in s.threads && u != o :: Intended(s.threads[u])
    ensures ConsistentExcept(s', o)
    ensures owner == s.turnstiles[q].owner ==> SameGraph(s, s')
  {}

  lemma SameGraphTrans(a: State, b: State, c: State)
    requires SameGraph(a, b) && SameGraph(b, c)
    ensures SameGraph(a, c)
  {}

  lemma ReownStep(s: State, o: ThreadId, q: TurnstileId)
    requires BaseBut(s, q) && AllPlaced(s) && s.turnstiles[q].waiters != [] && s.turnstiles[q].owner == Some(o)
    requires forall u | u in s.threads && u != o :: Intended(s.threads[u])
    ensures o in s.threads && Wf(s) && s.turnstiles[q].top.Some? && Distinct(s.threads[o].owned)
    ensures ConsistentExcept(Reown(s, o, q), o) && SameGraph(s, Reown(s, o, q))
  {
    ReownBase(s, o, q);
    OwnerUnsettled(s, Reown(s, o, q), o, q, Some(o));
  }

  lemma RequeueOwned(s: State, t: ThreadId, o: ThreadId)
    requires ConsistentExcept(s, t) && t in s.threads && Intended(s.threads[t]) && s.threads[t].waits.Some?
    requires s.threads[t].waits.value in s.turnstiles && s.turnstiles[s.threads[t].waits.value].owner == Some(o)
    ensures var s', q := Requeued(s, t), s.threads[t].waits.value;
            && o in s.threads && Wf(s') && s'.turnstiles[q].top.Some? && Distinct(s'.threads[o].owned)
            && ConsistentExcept(Reown(s', o, q), o) && SameGraph(s, Reown(s', o, q))
  {
    hide Base, BaseBut, Wf;
    RequeuedBase(s, t);
    RequeuedGraph(s, t);
    var s', q := Requeued(s, t), s.threads[t].waits.value;
    ReownStep(s', o, q);
    SameGraphTrans(s, s', Reown(s', o, q));
  }

  /** Everything an iteration of the loop needs in order to be well defined. */
  ghost predicate Ready(s: State, t: ThreadId) {
    && Wf(s) && t in s.threads
    && (s.threads[t].waits.Some? ==>
          var q := s.threads[t].waits.value;
          && t in Ids(s.turnstiles[q].waiters) && Distinct(s.turnstiles[q].waiters)
          && (s.turnstiles[q].owner.Some? ==> Distinct(s.threads[s.turnstiles[q].owner.value].owned)))
  }

  lemma ExceptReady(s: State, t: ThreadId)
    requires Base(s) && t in s.threads
    ensures Ready(s, t)
  {
    BaseWf(s);
    assert ThreadInv(s, t);
    if s.threads[t].waits.Some? {
      var q := s.threads[t].waits.value;
      assert TurnstileInv(s, q);
      if s.turnstiles[q].owner.Some? { assert ThreadInv(s, s.turnstiles[q].owner.value); }
    }
  }

  lemma RequeuedWf(s: State, t: ThreadId)
    requires Ready(s, t) && s.threads[t].waits.Some?
    ensures Wf(Requeued(s, t)) && Requeued(s, t).turnstiles[s.threads[t].waits.value].top.Some?
  {
    var k := s.turnstiles[s.threads[t].waits.value];
    var node := Node(t, Global(s.threads[t].realSched));
    RemoveMembers(k.waiters, t);
    InsertMembers(Remove(k.waiters, t), node);
    assert node in Insert(Remove(k.waiters, t), node);
    assert Last(Insert(Remove(k.waiters, t), node)) in Insert(Remove(k.waiters, t), node);
  }

  /** The second half of an iteration: the thread gets its place, and its owner learns about it. */
  function Replaced(s: State, t: ThreadId): (State, Option<ThreadId>)
    requires Ready(s, t) && s.threads[t].waits.Some?
  {
    var q := s.threads[t].waits.value;
    RequeuedWf(s, t);
    var s' := Requeued(s, t);
    match s'.turnstiles[q].owner
    case None => (s', None)
    case Some(o) => (Reown(s', o, q), Some(o))
  }

  /** One iteration of the loop: the new state, and the thread to go on with. */
  function Iteration(s: State, t: ThreadId): (State, Option<ThreadId>)
    requires Ready(s, t)
  {
    var th := Reprioritized(s.threads[t]);
    var top := if th.topGlobal > Global(th.userSched) then th.topGlobal else Global(th.userSched);
    var s' := SetThread(s, t, th);
    if th.waits == None || top == PrioOf(s.turnstiles[th.waits.value].waiters, t) then (s', None)
    else
      assert Ready(s', t);
      Replaced(s', t)
  }

  /** What an iteration leaves: consistency, or the inconsistency moved to the next owner. */
  ghost predicate Moved(s: State, t: ThreadId, r: (State, Option<ThreadId>))
    requires t in s.threads
  {
    && SameGraph(s, r.0)
    && match r.1
       case None => Consistent(r.0)
       case Some(o) => o in s.threads && Next(s, t) == Some(o) && ConsistentExcept(r.0, o)
  }

  lemma ReplacedCorrect(s: State, t: ThreadId)
    requires ConsistentExcept(s, t) && t in s.threads && Intended(s.threads[t]) && s.threads[t].waits.Some?
    ensures Ready(s, t) && Moved(s, t, Replaced(s, t))
  {
    ExceptReady(s, t);
    match s.turnstiles[s.threads[t].waits.value].owner
    case None => RequeueUnowned(s, t);
    case Some(o) => RequeueOwned(s, t, o);
  }

  lemma IterationCorrect(s: State, t: ThreadId)
    requires ConsistentExcept(s, t) && t in s.threads
    ensures Ready(s, t) && Moved(s, t, Iteration(s, t))
  {
    hide Base, Wf, Consistent, Requeued, Reown;
    ExceptReady(s, t);
    ReprioritizeStep(s, t);
    var s' := SetThread(s, t, Reprioritized(s.threads[t]));
    if s'.threads[t].waits.Some? {
      PlacedByPrio(s', t);
      if !Placed(s', t) {
        ReplacedCorrect(s', t);
        SameGraphTrans(s, s', Replaced(s', t).0);
      }
    }
  }

  lemma RankedSame(s: State, s': State, rank: map<ThreadId, nat>)
    requires Ranked(s, rank) && SameGraph(s, s')
    ensures Ranked(s', rank)
  {
    forall t | t in s'.threads ensures Next(s', t) == Next(s, t) {}
  }

  // ---------------------------------------------------------------- waiting, leaving, owning

  /** turnstile_add_waiter with turnstile_waiter_init: t queues itself on q. */
  function Enqueued(s: State, t: ThreadId, q: TurnstileId): State
    requires t in s.threads && q in s.turnstiles
  {
    var k := s.turnstiles[q];
    SetTurnstile(SetThread(s, t, s.threads[t].(waits := Some(q))), q,
                 WithWaiters(k, Insert(k.waiters, Node(t, Global(s.threads[t].realSched)))))
  }

  /** turnstile_remove_waiter: t leaves the turnstile it waits on. */
  function Dequeued(s: State, t: ThreadId): State
    requires t in s.threads && s.threads[t].waits.Some? && s.threads[t].waits.value in s.turnstiles
  {
    var q := s.threads[t].waits.value;
    SetTurnstile(SetThread(s, t, s.threads[t].(waits := None)), q,
                 WithWaiters(s.turnstiles[q], Remove(s.turnstiles[q].waiters, t)))
  }

  lemma EnqueuedBase(s: State, t: ThreadId, q: TurnstileId)
    requires Base(s) && AllPlaced(s) && t in s.threads && q in s.turnstiles && s.threads[t].waits == None
    ensures BaseBut(Enqueued(s, t, q), q) && AllPlaced(Enqueued(s, t, q)) && Enqueued(s, t, q).turnstiles[q].waiters != []
  {
    assert TurnstileInv(s, q);
    var w, node := s.turnstiles[q].waiters, Node(t, Global(s.threads[t].realSched));
    assert t !in Ids(w) by { assert forall n | n in w :: s.threads[n.id].waits == Some(q); }
    InsertMembers(w, node);
    InsertSorted(w, node);
    InsertDistinct(w, node);
    InsertIds(w, node);
    RelistedBase(s, Enqueued(s, t, q), t, q, Insert(w, node));
    assert node in Insert(w, node);
  }

  lemma DequeuedBase(s: State, t: ThreadId)
    requires Base(s) && AllPlaced(s) && t in s.threads && s.threads[t].waits.Some?
    ensures s.threads[t].waits.value in s.turnstiles
    ensures BaseBut(Dequeued(s, t), s.threads[t].waits.value) && AllPlaced(Dequeued(s, t))
  {
    assert ThreadInv(s, t);
    var q := s.threads[t].waits.value;
    assert TurnstileInv(s, q);
    var w := s.turnstiles[q].waiters;
    RemoveMembers(w, t);
    RemoveSorted(w, t);
    RemoveIds(w, t);
    RelistedBase(s, Dequeued(s, t), t, q, Remove(w, t));
  }

  /** The part of turnstile_update_owner before it propagates. */
  function UpdateOwner(s: State, q: TurnstileId, o: ThreadId): State
    requires Wf(s) && q in s.turnstiles && o in s.threads && Distinct(s.threads[o].owned)
    requires s.turnstiles[q].waiters != [] ==> s.turnstiles[q].top.Some?
  {
    if s.turnstiles[q].waiters == [] then
      if s.turnstiles[q].owner == None then s else Disown(s, o, q)
    else if s.turnstiles[q].owner == None then Own(s, o, q)
    else Reown(s, o, q)
  }

  lemma UpdateOwnerReady(s: State, q: TurnstileId, o: ThreadId)
    requires BaseBut(s, q) && o in s.threads
    ensures Wf(s) && Distinct(s.threads[o].owned) && (s.turnstiles[q].waiters != [] ==> s.turnstiles[q].top.Some?)
  {
    assert ThreadLoose(s, o, q);
  }

  /** After an owner has been told about q, only that owner can be unsettled. */
  lemma NoOwnerChange(s: State, o: ThreadId, q: TurnstileId)
    requires o in s.threads && q in s.turnstiles && s.turnstiles[q].owner == None
    ensures OwnerChange(s, s, o, q, None)
  {
    assert s.turnstiles[q := s.turnstiles[q].(owner := None)] == s.turnstiles;
    assert s.threads[o := s.threads[o]] == s.threads;
  }

  lemma UpdateOwnerBase(s: State, q: TurnstileId, o: ThreadId)
    requires BaseBut(s, q) && AllPlaced(s) && o in s.threads
    requires forall u | u in s.threads :: Intended(s.threads[u])
    requires s.turnstiles[q].owner == None || s.turnstiles[q].owner == Some(o)
    ensures Wf(s) && Distinct(s.threads[o].owned) && (s.turnstiles[q].waiters != [] ==> s.turnstiles[q].top.Some?)
    ensures ConsistentExcept(UpdateOwner(s, q, o), o)
    ensures OwnerChange(s, UpdateOwner(s, q, o), o, q, if s.turnstiles[q].waiters == [] then None else Some(o))
  {
    UpdateOwnerReady(s, q, o);
    assert q in s.turnstiles;
    hide BaseBut, Wf, Base, AllPlaced, Own, Reown, Disown, Intended, ConsistentExcept, Distinct, OwnerChange;
    if s.turnstiles[q].waiters != [] {
      if s.turnstiles[q].owner == None {
        OwnBase(s, o, q);
        OwnerUnsettled(s, Own(s, o, q), o, q, Some(o));
      } else {
        ReownBase(s, o, q);
        OwnerUnsettled(s, Reown(s, o, q), o, q, Some(o));
      }
    } else if s.turnstiles[q].owner != None {
      DisownBase(s, o, q);
      OwnerUnsettled(s, Disown(s, o, q), o, q, None);
    } else {
      UnownedBase(s, q);
      SettledAll(s, Some(o));
      NoOwnerChange(s, o, q);
    }
  }

  /** What turnstile_wait_common asks of its caller: a running thread, and the owner of the turnstile. */
  ghost predicate CanWait(s: State, t: ThreadId, q: TurnstileId, owner: Option<ThreadId>) {
    && Consistent(s) && t in s.threads && s.threads[t].waits == None && q in s.turnstiles && owner != Some(t)
    && (owner.Some? ==> owner.value in s.threads)
    && (s.turnstiles[q].owner == None || s.turnstiles[q].owner == owner)
  }

  lemma SameGraphSelf(s: State)
    ensures SameGraph(s, s)
  {}

  /** The same change of owner gives the same graph. */
  lemma SameOwnerChange(s: State, a: State, b: State, o: ThreadId, q: TurnstileId, owner: Option<ThreadId>)
    requires OwnerChange(s, a, o, q, owner) && OwnerChange(s, b, o, q, owner)
    ensures SameGraph(a, b)
  {}

  lemma EnqueuedReady(s: State, t: ThreadId, q: TurnstileId)
    requires Consistent(s) && t in s.threads && q in s.turnstiles && s.threads[t].waits == None
    ensures var e := Enqueued(s, t, q); BaseBut(e, q) && AllPlaced(e) && forall u | u in e.threads :: Intended(e.threads[u])
  {
    EnqueuedBase(s, t, q);
    var e := Enqueued(s, t, q);
    assert forall u | u in e.threads :: Settled(s, u) && Intended(e.threads[u]);
  }

  lemma DequeuedReady(s: State, t: ThreadId)
    requires Consistent(s) && t in s.threads && s.threads[t].waits.Some?
    ensures s.threads[t].waits.value in s.turnstiles
    ensures var d := Dequeued(s, t);
            BaseBut(d, s.threads[t].waits.value) && AllPlaced(d) && forall u | u in d.threads :: Intended(d.threads[u])
  {
    DequeuedBase(s, t);
    DequeuedIntended(s, t);
  }

  /** The graph once t waits on q and the owner has been told, before propagation. */
  ghost function WaitStart(s: State, t: ThreadId, q: TurnstileId, owner: Option<ThreadId>): State
    requires CanWait(s, t, q, owner)
  {
    var e := Enqueued(s, t, q);
    match owner
    case None => e
    case Some(o) =>
      EnqueuedBase(s, t, q);
      UpdateOwnerReady(e, q, o);
      UpdateOwner(e, q, o)
  }

  lemma WaitStartBase(s: State, t: ThreadId, q: TurnstileId, owner: Option<ThreadId>)
    requires CanWait(s, t, q, owner)
    ensures match owner
            case None => Consistent(WaitStart(s, t, q, owner))
            case Some(o) => ConsistentExcept(WaitStart(s, t, q, owner), o)
  {
    var e := Enqueued(s, t, q);
    EnqueuedBase(s, t, q);
    assert forall u | u in e.threads :: Settled(s, u) && Intended(e.threads[u]);
    hide Base, BaseBut, AllPlaced, Consistent, Intended;
    match owner
    case None =>
      UnownedBase(e, q);
      SettledAll(e, None);
    case Some(o) =>
      UpdateOwnerBase(e, q, o);
  }

  lemma DequeuedIntended(s: State, t: ThreadId)
    requires Consistent(s) && t in s.threads && s.threads[t].waits.Some? && s.threads[t].waits.value in s.turnstiles
    ensures forall u | u in Dequeued(s, t).threads :: Intended(Dequeued(s, t).threads[u])
  {
    hide Base, Placed;
    assert forall u | u in s.threads :: Settled(s, u);
  }

  /** The graph once t has left the turnstile it waited on, and the owner, if any, has been told. */
  ghost function LeaveStart(s: State, t: ThreadId): State
    requires Consistent(s) && t in s.threads && s.threads[t].waits.Some?
  {
    DequeuedBase(s, t);
    var q, d := s.threads[t].waits.value, Dequeued(s, t);
    match d.turnstiles[q].owner
    case None => d
    case Some(o) =>
      UpdateOwnerReady(d, q, o);
      UpdateOwner(d, q, o)
  }

  lemma LeaveStartBase(s: State, t: ThreadId)
    requires Consistent(s) && t in s.threads && s.threads[t].waits.Some?
    ensures s.threads[t].waits.value in s.turnstiles
    ensures match s.turnstiles[s.threads[t].waits.value].owner
            case None => Consistent(LeaveStart(s, t))
            case Some(o) => o in s.threads && ConsistentExcept(LeaveStart(s, t), o)
  {
    DequeuedBase(s, t);
    DequeuedIntended(s, t);
    var q, d := s.threads[t].waits.value, Dequeued(s, t);
    hide Base, BaseBut, AllPlaced, Consistent, Intended;
    match d.turnstiles[q].owner
    case None =>
      UnownedBase(d, q);
      SettledAll(d, None);
    case Some(o) =>
      UpdateOwnerBase(d, q, o);
  }

  /** The first waiter of a turnstile without owner has been signalled, and takes the turnstile. */
  ghost predicate CanAcquire(s: State, t: ThreadId) {
    && Consistent(s) && t in s.threads && s.threads[t].waits.Some? && s.threads[t].waits.value in s.turnstiles
    && s.turnstiles[s.threads[t].waits.value].top == Some(t)
    && s.turnstiles[s.threads[t].waits.value].owner == None
  }

  /** turnstile_own by the thread that has just left the turnstile. */
  ghost function Acquired(s: State, t: ThreadId): State
    requires CanAcquire(s, t)
  {
    DequeuedBase(s, t);
    var q, d := s.threads[t].waits.value, Dequeued(s, t);
    UpdateOwnerReady(d, q, t);
    if d.turnstiles[q].waiters == [] then d else Own(d, t, q)
  }

  /** The new owner is at least as urgent as the threads it leaves behind. */
  lemma AcquireAbove(s: State, t: ThreadId)
    requires CanAcquire(s, t)
    ensures var w := Dequeued(s, t).turnstiles[s.threads[t].waits.value].waiters;
            w != [] ==> Last(w).prio <= Global(s.threads[t].realSched)
  {
    var q := s.threads[t].waits.value;
    assert TurnstileInv(s, q) && ThreadInv(s, t) && Settled(s, t);
    var w := s.turnstiles[q].waiters;
    RemoveMembers(w, t);
    var r := Remove(w, t);
    assert Last(w) in w;
    if r != [] { assert Last(r) in r; }
  }

  lemma OwnTop(s: State, o: ThreadId, q: TurnstileId)
    requires Fresh(s, o, q) && s.turnstiles[q].waiters != [] && s.turnstiles[q].owner == None
    requires s.turnstiles[q].top.Some?
    ensures Own(s, o, q).threads[o].topGlobal == Max(s.threads[o].topGlobal, Last(s.turnstiles[q].waiters).prio)
  {
    TopPrio(s, q);
    assert ThreadLoose(s, o, q);
    var node := Node(q, Last(s.turnstiles[q].waiters).prio);
    InsertLast(s.threads[o].owned, node);
    OwnBase(s, o, q);
    assert ThreadInv(Own(s, o, q), o);
    InsertMembers(s.threads[o].owned, node);
    assert Own(s, o, q).threads[o].owned == Insert(s.threads[o].owned, node);
  }

  lemma AcquireOwned(d: State, t: ThreadId, q: TurnstileId)
    requires Fresh(d, t, q) && d.turnstiles[q].owner == None && d.turnstiles[q].waiters != []
    requires (forall u | u in d.threads :: Intended(d.threads[u])) && Last(d.turnstiles[q].waiters).prio <= Global(d.threads[t].realSched)
    ensures d.turnstiles[q].top.Some? && Consistent(Own(d, t, q))
  {
    assert Wf(d);
    hide Base, BaseBut, AllPlaced, Own, Consistent, Wf, Intended, OwnerChange;
    OwnBase(d, t, q);
    OwnTop(d, t, q);
    OwnIntended(d, Own(d, t, q), t, q);
    SettledAll(Own(d, t, q), None);
  }

  /** An owner whose real priority covers its new top priority has its intended priority still. */
  lemma OwnIntended(d: State, s': State, t: ThreadId, q: TurnstileId)
    requires OwnerChange(d, s', t, q, Some(t)) && forall u | u in d.threads :: Intended(d.threads[u])
    requires d.threads[t].topGlobal <= s'.threads[t].topGlobal
    requires s'.threads[t].topGlobal <= Max(d.threads[t].topGlobal, Global(d.threads[t].realSched))
    ensures forall u | u in s'.threads :: Intended(s'.threads[u])
  {}

  /** Taking a turnstile needs no propagation: the assertion of turnstile_own holds, and with it the new owner
      has its intended priority already. */
  lemma AcquireConsistent(s: State, t: ThreadId)
    requires CanAcquire(s, t)
    ensures Consistent(Acquired(s, t))
  {
    DequeuedBase(s, t);
    DequeuedIntended(s, t);
    AcquireAbove(s, t);
    var q, d := s.threads[t].waits.value, Dequeued(s, t);
    UpdateOwnerReady(d, q, t);
    hide Base, AllPlaced, Consistent, BaseBut, Intended, Own, Wf;
    if d.turnstiles[q].waiters == [] {
      UnownedBase(d, q);
      SettledAll(d, None);
    } else {
      AcquireOwned(d, t, q);
    }
  }

  // ---------------------------------------------------------------- what consistency means

  ghost predicate Chain(s: State, p: seq<ThreadId>) {
    && p != [] && (forall i | 0 <= i < |p| :: p[i] in s.threads)
    && forall i | 0 <= i < |p| - 1 :: Next(s, p[i]) == Some(p[i + 1])
  }

  /** u is t, or waits, through any number of owners, on a turnstile that t owns. */
  ghost predicate WaitsFor(s: State, u: ThreadId, t: ThreadId) {
    exists p :: Chain(s, p) && p[0] == u && p[|p| - 1] == t
  }

  /** A waiting thread is at most as urgent as the first thread waiting with it. */
  lemma WaiterBelow(s: State, u: ThreadId)
    requires Base(s) && u in s.threads && Placed(s, u) && s.threads[u].waits.Some?
    ensures var q := s.threads[u].waits.value;
            q in s.turnstiles && s.turnstiles[q].waiters != []
            && Global(s.threads[u].realSched) <= Last(s.turnstiles[q].waiters).prio
  {
    assert ThreadInv(s, u);
    var q := s.threads[u].waits.value;
    assert TurnstileInv(s, q);
    var n :| n in s.turnstiles[q].waiters && n.id == u;
  }

  lemma OwnerTop(s: State, o: ThreadId, q: TurnstileId)
    requires Base(s) && q in s.turnstiles && s.turnstiles[q].owner == Some(o)
    ensures o in s.threads && s.turnstiles[q].waiters != []
    ensures Last(s.turnstiles[q].waiters).prio <= s.threads[o].topGlobal
  {
    assert TurnstileInv(s, q);
    var m :| m in s.threads[o].owned && m.id == q;
    assert ThreadInv(s, o) && OwnedNode(s, o, m);
  }

  /** An owner has at least the priority of each thread waiting on one of its turnstiles. */
  lemma OwnerAbove(s: State, u: ThreadId, o: ThreadId)
    requires Consistent(s) && u in s.threads && Next(s, u) == Some(o)
    ensures o in s.threads && Global(s.threads[u].realSched) <= Global(s.threads[o].realSched)
  {
    hide Base, Placed;
    assert Settled(s, u);
    WaiterBelow(s, u);
    OwnerTop(s, o, s.threads[u].waits.value);
    assert Settled(s, o);
  }

  lemma {:induction false} ChainAbove(s: State, p: seq<ThreadId>)
    requires Consistent(s) && Chain(s, p)
    ensures Global(s.threads[p[0]].userSched) <= Global(s.threads[p[|p| - 1]].realSched)
  {
    hide Base, Placed;
    if |p| == 1 {
      assert Settled(s, p[0]);
    } else {
      var r := p[..|p| - 1];
      assert forall i | 0 <= i < |r| - 1 :: Next(s, r[i]) == Next(s, p[i]);
      ChainAbove(s, r);
      OwnerAbove(s, p[|p| - 2], p[|p| - 1]);
    }
  }

  /** A thread above its user priority has it from the first thread waiting on one of its turnstiles. */
  lemma InheritedFrom(s: State, t: ThreadId) returns (w: ThreadId)
    requires Consistent(s) && t in s.threads && Global(s.threads[t].realSched) != Global(s.threads[t].userSched)
    ensures w in s.threads && Next(s, w) == Some(t)
    ensures Global(s.threads[w].realSched) == Global(s.threads[t].realSched)
  {
    assert ThreadInv(s, t) && Settled(s, t);
    var m := Last(s.threads[t].owned);
    assert m in s.threads[t].owned && OwnedNode(s, t, m);
    assert TurnstileInv(s, m.id);
    var n := Last(s.turnstiles[m.id].waiters);
    assert n in s.turnstiles[m.id].waiters;
    w := n.id;
    assert ThreadInv(s, w) && Settled(s, w);
  }

  function RankedAbove(s: State, t: ThreadId, rank: map<ThreadId, nat>): set<ThreadId> {
    set u | u in s.threads && t in rank && u in rank && rank[u] > rank[t]
  }

  lemma {:induction false} Attained(s: State, t: ThreadId, rank: map<ThreadId, nat>) returns (p: seq<ThreadId>)
    requires Consistent(s) && Ranked(s, rank) && t in s.threads
    ensures Chain(s, p) && p[|p| - 1] == t
    ensures Global(s.threads[p[0]].userSched) == Global(s.threads[t].realSched)
    decreases RankedAbove(s, t, rank)
  {
    hide Consistent;
    if Global(s.threads[t].realSched) == Global(s.threads[t].userSched) {
      p := [t];
    } else {
      var w := InheritedFrom(s, t);
      assert w in RankedAbove(s, t, rank) && w !in RankedAbove(s, w, rank);
      assert RankedAbove(s, w, rank) < RankedAbove(s, t, rank);
      var r := Attained(s, w, rank);
      p := r + [t];
    }
  }

  /** In a consistent state, the priority of a thread is the maximum of its user priority and those of all
      the threads transitively waiting on turnstiles it owns. */
  lemma InheritsMaximum(s: State, t: ThreadId)
    requires Consistent(s) && Acyclic(s) && t in s.threads
    ensures forall u | WaitsFor(s, u, t) :: u in s.threads && Global(s.threads[u].userSched) <= Global(s.threads[t].realSched)
    ensures exists u | u in s.threads :: WaitsFor(s, u, t) && Global(s.threads[u].userSched) == Global(s.threads[t].realSched)
  {
    forall u | WaitsFor(s, u, t)
      ensures u in s.threads && Global(s.threads[u].userSched) <= Global(s.threads[t].realSched)
    {
      var p :| Chain(s, p) && p[0] == u && p[|p| - 1] == t;
      ChainAbove(s, p);
    }
    var rank :| Ranked(s, rank);
    var p := Attained(s, t, rank);
    assert WaitsFor(s, p[0], t);
  }

  class Inheritance {
    var threads: map<ThreadId, Thread>
    var turnstiles: map<TurnstileId, Turnstile>

    ghost function St(): State
      reads this
    {
      State(threads, turnstiles)
    }

    /** turnstile_td_propagate_priority_loop, from a thread that may have neither its intended priority nor
        its place. */
    method Propagate(start: ThreadId, ghost rank: map<ThreadId, nat>)
      requires start in threads && ConsistentExcept(St(), start) && Ranked(St(), rank)
      modifies this
      ensures Consistent(St()) && SameGraph(old(St()), St())
    {
      var t := start;
      while true
        invariant t in threads && ConsistentExcept(St(), t) && Ranked(St(), rank) && SameGraph(old(St()), St())
        decreases rank[t]
      {
        ghost var s := St();
        var next := Iterate(t);
        SameGraphTrans(old(St()), s, St());
        if next == None {
          return;
        }
        RankedSame(s, St(), rank);
        t := next.value;
      }
    }

    /** The body of the loop. */
    method Iterate(t: ThreadId) returns (next: Option<ThreadId>)
      requires ConsistentExcept(St(), t) && t in threads
      modifies this
      ensures Moved(old(St()), t, (St(), next))
    {
      hide ConsistentExcept, Moved, Base, Requeued, Reown, Distinct, Ids, PrioOf;
      IterationCorrect(St(), t);
      var th := Reprioritized(threads[t]);
      var top := if th.topGlobal > Global(th.userSched) then th.topGlobal else Global(th.userSched);
      threads := threads[t := th];
      if th.waits == None || top == PrioOf(turnstiles[th.waits.value].waiters, t) {
        return None;
      }
      var q := th.waits.value;
      Requeue(t, q);
      next := turnstiles[q].owner;
      if next.Some? {
        ReownThread(next.value, q);
      }
    }

    /** turnstile_wait_common up to the sleep. */
    method Wait(t: ThreadId, q: TurnstileId, owner: Option<ThreadId>, ghost rank: map<ThreadId, nat>)
      requires CanWait(St(), t, q, owner) && Ranked(WaitStart(St(), t, q, owner), rank)
      modifies this
      ensures Consistent(St()) && SameGraph(WaitStart(old(St()), t, q, owner), St())
    {
      ghost var s := St();
      hide Base, BaseBut, AllPlaced, Intended, ConsistentExcept, OwnerChange, Ranked, SameGraph;
      WaitStartBase(s, t, q, owner);
      EnqueuedReady(s, t, q);
      var k := turnstiles[q];
      turnstiles := turnstiles[q := WithWaiters(k, Insert(k.waiters, Node(t, Global(threads[t].realSched))))];
      threads := threads[t := threads[t].(waits := Some(q))];
      assert St() == Enqueued(s, t, q);
      SameGraphSelf(St());
      if owner.Some? {
        ghost var e, goal := St(), WaitStart(s, t, q, owner);
        UpdateOwnerReady(e, q, owner.value);
        UpdateOwnerBase(e, q, owner.value);
        TellOwner(q, owner.value);
        SameOwnerChange(e, goal, St(), owner.value, q, if e.turnstiles[q].waiters == [] then None else Some(owner.value));
        ghost var told := St();
        RankedSame(goal, told, rank);
        Propagate(owner.value, rank);
        SameGraphTrans(goal, told, St());
      }
    }

    /** The end of turnstile_wait_common when the wait has timed out. */
    method TimedOut(t: ThreadId, ghost rank: map<ThreadId, nat>)
      requires Consistent(St()) && t in threads && threads[t].waits.Some? && Ranked(LeaveStart(St(), t), rank)
      modifies this
      ensures Consistent(St()) && SameGraph(LeaveStart(old(St()), t), St())
    {
      ghost var s := St();
      hide Base, BaseBut, AllPlaced, Intended, ConsistentExcept, OwnerChange, Ranked, SameGraph;
      LeaveStartBase(s, t);
      DequeuedReady(s, t);
      var q := threads[t].waits.value;
      turnstiles := turnstiles[q := WithWaiters(turnstiles[q], Remove(turnstiles[q].waiters, t))];
      threads := threads[t := threads[t].(waits := None)];
      assert St() == Dequeued(s, t);
      SameGraphSelf(St());
      var owner := turnstiles[q].owner;
      if owner.Some? {
        ghost var d, goal := St(), LeaveStart(s, t);
        UpdateOwnerReady(d, q, owner.value);
        UpdateOwnerBase(d, q, owner.value);
        TellOwner(q, owner.value);
        SameOwnerChange(d, goal, St(), owner.value, q, if d.turnstiles[q].waiters == [] then None else Some(owner.value));
        ghost var told := St();
        RankedSame(goal, told, rank);
        Propagate(owner.value, rank);
        SameGraphTrans(goal, told, St());
      }
    }

    /** thread_setscheduler, as far as priorities go. */
    method SetScheduler(t: ThreadId, x: Sched, ghost rank: map<ThreadId, nat>)
      requires Consistent(St()) && t in threads && Ranked(St(), rank)
      modifies this
      ensures Consistent(St()) && t in threads && threads[t].userSched == x
      ensures SameGraph(SetThread(old(St()), t, SetUser(old(threads[t]), x)), St())
    {
      ghost var s := St();
      SchedBase(s, t, SetUser(threads[t], x));
      threads := threads[t := SetUser(threads[t], x)];
      assert St() == SetThread(s, t, SetUser(s.threads[t], x));
      assert forall u | u in s.threads :: Settled(s, u) && Next(St(), u) == Next(s, u);
      Propagate(t, rank);
    }

    /** turnstile_disown by the owner, and the propagation that ends its unlock. */
    method Release(o: ThreadId, q: TurnstileId, ghost rank: map<ThreadId, nat>)
      requires Consistent(St()) && o in threads && q in turnstiles && turnstiles[q].owner == Some(o)
      requires Wf(St()) && Distinct(threads[o].owned) && Ranked(Disown(St(), o, q), rank)
      modifies this
      ensures Consistent(St()) && SameGraph(Disown(old(St()), o, q), St())
    {
      ghost var s := St();
      LooseBase(s, q);
      assert forall u | u in s.threads :: Settled(s, u);
      DisownBase(s, o, q);
      OwnerUnsettled(s, Disown(s, o, q), o, q, None);
      DisownTurnstile(o, q);
      Propagate(o, rank);
    }

    /** turnstile_requeue_waiter. */
    method Requeue(t: ThreadId, q: TurnstileId)
      requires Ready(St(), t) && threads[t].waits == Some(q)
      modifies this`turnstiles
      ensures St() == Requeued(old(St()), t)
      ensures Wf(St()) && turnstiles[q].top.Some?
      ensures turnstiles[q].owner.Some? ==> turnstiles[q].owner.value in threads && Distinct(threads[turnstiles[q].owner.value].owned)
    {
      RequeuedWf(St(), t);
      var k := turnstiles[q];
      turnstiles := turnstiles[q := WithWaiters(k, Insert(Remove(k.waiters, t), Node(t, Global(threads[t].realSched))))];
    }

    /** turnstile_td_disown. */
    method DisownTurnstile(o: ThreadId, q: TurnstileId)
      requires Wf(St()) && o in threads && q in turnstiles && Distinct(threads[o].owned)
      modifies this
      ensures St() == Disown(old(St()), o, q)
    {
      RemoveMembers(threads[o].owned, q);
      var owned := Remove(threads[o].owned, q);
      threads := threads[o := UpdateTop(State(threads, turnstiles), threads[o].(owned := owned))];
      turnstiles := turnstiles[q := turnstiles[q].(owner := None)];
    }

    /** turnstile_td_own. */
    method OwnTurnstile(o: ThreadId, q: TurnstileId)
      requires Wf(St()) && o in threads && q in turnstiles && turnstiles[q].top.Some?
      modifies this
      ensures St() == Own(old(St()), o, q)
    {
      var node := Node(q, Global(threads[turnstiles[q].top.value].realSched));
      InsertMembers(threads[o].owned, node);
      var owned := Insert(threads[o].owned, node);
      threads := threads[o := UpdateTop(State(threads, turnstiles), threads[o].(owned := owned))];
      turnstiles := turnstiles[q := turnstiles[q].(owner := Some(o))];
    }

    /** turnstile_update_owner before it propagates. */
    method TellOwner(q: TurnstileId, o: ThreadId)
      requires BaseBut(St(), q) && AllPlaced(St()) && o in threads && forall u | u in threads :: Intended(threads[u])
      requires turnstiles[q].owner == None || turnstiles[q].owner == Some(o)
      modifies this
      ensures ConsistentExcept(St(), o)
      ensures OwnerChange(old(St()), St(), o, q, if old(turnstiles[q].waiters) == [] then None else Some(o))
    {
      hide Base, AllPlaced, Intended, ConsistentExcept, OwnerChange;
      UpdateOwnerBase(St(), q, o);
      if turnstiles[q].waiters == [] {
        if turnstiles[q].owner.Some? {
          DisownTurnstile(o, q);
        }
      } else if turnstiles[q].owner == None {
        OwnTurnstile(o, q);
      } else {
        ReownThread(o, q);
      }
    }

    /** turnstile_td_reown. */
    method ReownThread(o: ThreadId, q: TurnstileId)
      requires Wf(St()) && o in threads && q in turnstiles && turnstiles[q].top.Some? && Distinct(threads[o].owned)
      modifies this
      ensures St() == Reown(old(St()), o, q)
    {
      RemoveMembers(threads[o].owned, q);
      var node := Node(q, Global(threads[turnstiles[q].top.value].realSched));
      InsertMembers(Remove(threads[o].owned, q), node);
      var owned := Insert(Remove(threads[o].owned, q), node);
      threads := threads[o := UpdateTop(State(threads, turnstiles), threads[o].(owned := owned))];
    }
  }
}
