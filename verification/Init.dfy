/**
 * Initialization operations: the topological sort of their dependency graph,
 * and their execution in the resulting order.
 *
 * Operations are numbered. The parents of an operation are the operations
 * that depend on it. The sort starts from the operations without parents and
 * puts each operation at the head of the list of pending operations, so that
 * the list ends up with dependencies first.
 */
module Init {
  import opened Common

  const EAGAIN: int := 2
  const PARENTS_LIMIT: nat := 256

  datatype Dep = Dep(op: nat, required: bool)

  /** The dependencies of each operation. */
  type Graph = seq<seq<Dep>>

  datatype State = Unlinked | Pending | Complete

  datatype Outcome = Panicked | Halted | Done

  ghost predicate WellFormed(g: Graph) {
    forall op: nat, i: nat :: op < |g| && i < |g[op]| ==> g[op][i].op < |g|
  }

  ghost predicate DependsOn(g: Graph, op: nat, d: nat) {
    op < |g| && exists i: nat :: i < |g[op]| && g[op][i].op == d
  }

  /** A chain of dependencies. */
  ghost predicate Path(g: Graph, p: seq<nat>) {
    forall i :: 0 <= i < |p| - 1 ==> DependsOn(g, p[i], p[i + 1])
  }

  ghost predicate Cyclic(g: Graph) {
    exists p: seq<nat> :: |p| >= 2 && p[0] == p[|p| - 1] && Path(g, p)
  }

  // ---- Counting parents ----

  /** How many times a list of dependencies names an operation. */
  function Occurs(s: seq<Dep>, d: nat): nat {
    if s == [] then 0 else Occurs(s[..|s| - 1], d) + (if s[|s| - 1].op == d then 1 else 0)
  }

  /** How many dependencies on d the operations outside a set have. */
  function Waiting(g: Graph, done: set<nat>, d: nat): nat {
    if g == [] then 0
    else Waiting(g[..|g| - 1], done, d) + (if |g| - 1 in done then 0 else Occurs(g[|g| - 1], d))
  }

  lemma OccursNext(s: seq<Dep>, i: nat, d: nat)
    requires i < |s|
    ensures Occurs(s[..i + 1], d) == Occurs(s[..i], d) + (if s[i].op == d then 1 else 0)
  {
    assert s[..i + 1][..i] == s[..i];
  }

  lemma {:induction false} OccursMonotone(s: seq<Dep>, i: nat, d: nat)
    requires i <= |s|
    ensures Occurs(s[..i], d) <= Occurs(s, d)
    decreases |s| - i
  {
    if i < |s| {
      OccursNext(s, i, d);
      OccursMonotone(s, i + 1, d);
    } else {
      assert s[..i] == s;
    }
  }

  lemma {:induction false} OccursSome(s: seq<Dep>, d: nat)
    ensures Occurs(s, d) > 0 <==> exists i: nat :: i < |s| && s[i].op == d
  {
    if s != [] {
      var n := |s| - 1;
      OccursSome(s[..n], d);
      if i: nat :| i < n && s[..n][i].op == d {
        assert s[i].op == d;
      }
      if i: nat :| i < |s| && s[i].op == d {
        if i < n {
          assert s[..n][i].op == d;
        }
      }
    }
  }

  lemma {:induction false} WaitingSome(g: Graph, done: set<nat>, d: nat)
    ensures Waiting(g, done, d) > 0 <==> exists op: nat :: op !in done && DependsOn(g, op, d)
  {
    if g != [] {
      var n := |g| - 1;
      WaitingSome(g[..n], done, d);
      OccursSome(g[n], d);
      if op: nat :| op !in done && DependsOn(g[..n], op, d) {
        assert DependsOn(g, op, d);
      }
      if n !in done && Occurs(g[n], d) > 0 {
        assert DependsOn(g, n, d);
      }
      if op: nat :| op !in done && DependsOn(g, op, d) {
        if op < n {
          assert DependsOn(g[..n], op, d);
        }
      }
    }
  }

  lemma {:induction false} WaitingDone(g: Graph, done: set<nat>, op: nat, d: nat)
    requires op !in done
    ensures Waiting(g, done + {op}, d)
            == Waiting(g, done, d) - (if op < |g| then Occurs(g[op], d) else 0)
  {
    if g != [] {
      WaitingDone(g[..|g| - 1], done, op, d);
    }
  }

  lemma {:induction false} WaitingAt(g: Graph, done: set<nat>, op: nat, d: nat)
    requires op < |g| && op !in done
    ensures Occurs(g[op], d) <= Waiting(g, done, d)
  {
    WaitingDone(g, done, op, d);
  }

  // ---- Orders and cycles ----

  /** In the order of the sort, parents come before what they depend on. */
  ghost predicate ParentsFirst(g: Graph, out: seq<nat>) {
    forall i: nat, op: nat :: i < |out| && DependsOn(g, op, out[i]) ==> op in out[..i]
  }

  function ToSet(s: seq<nat>): set<nat> {
    set x | x in s
  }

  /** The order cannot hold an operation that is on a cycle. */
  lemma {:induction false} PathClimbs(g: Graph, out: seq<nat>, p: seq<nat>, i: nat) returns (j: nat)
    requires NoDup(out) && ParentsFirst(g, out) && Path(g, p) && p != []
    requires i < |out| && out[i] == p[|p| - 1]
    ensures j < |out| && out[j] == p[0] && j <= i && (|p| >= 2 ==> j < i)
    decreases |p|
  {
    if |p| == 1 {
      j := i;
    } else {
      var n := |p| - 1;
      assert DependsOn(g, p[n - 1], p[n]);
      assert p[n - 1] in out[..i];
      var k: nat :| k < i && out[..i][k] == p[n - 1];
      j := PathClimbs(g, out, p[..n], k);
    }
  }

  lemma SortedAcyclic(g: Graph, out: seq<nat>)
    requires NoDup(out) && ParentsFirst(g, out)
    requires WellFormed(g) && forall x: nat :: x < |g| ==> x in out
    ensures !Cyclic(g)
  {
    if p: seq<nat> :| |p| >= 2 && p[0] == p[|p| - 1] && Path(g, p) {
      assert DependsOn(g, p[0], p[1]);
      assert p[0] < |g| && p[0] in out;
      var i: nat :| i < |out| && out[i] == p[|p| - 1];
      var j := PathClimbs(g, out, p, i);
      assert false;
    }
  }

  lemma {:induction false} Pigeonhole(s: seq<nat>, n: nat)
    requires NoDup(s) && forall i :: 0 <= i < |s| ==> s[i] < n
    ensures |s| <= n
  {
    assert |s| > 0 ==> s[0] < n;
    if n > 0 && n - 1 in s {
      var k :| 0 <= k < |s| && s[k] == n - 1;
      var t := s[..k] + s[k + 1..];
      forall i | 0 <= i < |t| ensures t[i] < n - 1 {
        assert t[i] == s[if i < k then i else i + 1];
      }
      Pigeonhole(t, n - 1);
    } else if n > 0 {
      forall i | 0 <= i < |s| ensures s[i] < n - 1 {
        assert s[i] in s;
      }
      Pigeonhole(s, n - 1);
    }
  }

  ghost predicate HasParent(g: Graph, left: set<nat>, d: nat) {
    exists op: nat :: op in left && DependsOn(g, op, d)
  }

  lemma ParentOf(g: Graph, left: set<nat>, d: nat) returns (op: nat)
    requires HasParent(g, left, d)
    ensures op in left && DependsOn(g, op, d)
  {
    op :| op in left && DependsOn(g, op, d);
  }

  /** Operations that all have a parent among themselves form chains of any length. */
  lemma {:induction false} ChainUp(g: Graph, left: set<nat>, n: nat) returns (p: seq<nat>)
    requires left != {}
    requires forall x :: x in left ==> HasParent(g, left, x)
    ensures |p| == n + 1 && Path(g, p) && forall i :: 0 <= i < |p| ==> p[i] in left
  {
    hide HasParent, DependsOn;
    if n == 0 {
      var x :| x in left;
      p := [x];
    } else {
      var q := ChainUp(g, left, n - 1);
      assert q[0] in left;
      var op := ParentOf(g, left, q[0]);
      p := [op] + q;
    }
  }

  /** Operations that all have a parent among themselves hold a cycle. */
  lemma LeftoverCycle(g: Graph, left: set<nat>)
    requires left != {}
    requires forall x :: x in left ==> x < |g|
    requires forall x :: x in left ==> HasParent(g, left, x)
    ensures Cyclic(g)
  {
    hide HasParent, DependsOn;
    var p := ChainUp(g, left, |g|);
    if NoDup(p) {
      Pigeonhole(p, |g|);
    }
    var i, j :| 0 <= i < j < |p| && p[i] == p[j];
    var c := p[i..j + 1];
    forall k | 0 <= k < |c| - 1 ensures DependsOn(g, c[k], c[k + 1]) {
      assert c[k] == p[i + k] && c[k + 1] == p[i + k + 1];
    }
    assert |c| >= 2 && c[0] == c[|c| - 1] && Path(g, c);
  }

  // ---- The sort ----

  function NrParents(g: Graph, d: nat): nat {
    Waiting(g, {}, d)
  }

  class Ops {
    const deps: Graph
    /** The value each operation's function returns. */
    const fns: seq<int>
    var nrParents: seq<nat>
    var states: seq<State>
    var errors: seq<int>
    /** The list of pending operations. */
    var pending: seq<nat>
    /** The functions called, in order. */
    var calls: seq<nat>
    /** The operations completed, in order. */
    var completed: seq<nat>

    ghost predicate Linked() {
      WellFormed(deps) && |fns| == |deps|
    }

    constructor (g: Graph, f: seq<int>)
      requires WellFormed(g) && |f| == |g|
      ensures deps == g && fns == f && Linked() && Fresh()
    {
      deps, fns := g, f;
      nrParents := Repeat(0, |g|);
      states := Repeat(Unlinked, |g|);
      errors := Repeat(EAGAIN, |g|);
      pending, calls, completed := [], [], [];
    }

    ghost predicate Fresh()
      reads this
    {
      && nrParents == Repeat(0, |deps|)
      && states == Repeat(Unlinked, |deps|)
      && errors == Repeat(EAGAIN, |deps|)
      && pending == [] && calls == [] && completed == []
    }

    /**
     * Adds an operation's dependencies to the counts; false when a count
     * wraps, which the code asserts against.
     */
    method InitOp(op: nat) returns (ok: bool)
      requires Linked() && op < |deps| && |nrParents| == |deps|
      requires forall d: nat :: d < |deps| ==> nrParents[d] < PARENTS_LIMIT
      modifies `nrParents
      ensures |nrParents| == |deps|
      ensures ok ==> forall d: nat :: d < |deps| ==>
                nrParents[d] == old(nrParents)[d] + Occurs(deps[op], d) < PARENTS_LIMIT
      ensures !ok ==> exists d: nat :: d < |deps| && old(nrParents)[d] + Occurs(deps[op], d) >= PARENTS_LIMIT
    {
      var i := 0;
      assert deps[op][..0] == [];
      while i < |deps[op]|
        invariant 0 <= i <= |deps[op]| && |nrParents| == |deps|
        invariant forall d: nat :: d < |deps| ==>
                    nrParents[d] == old(nrParents)[d] + Occurs(deps[op][..i], d) < PARENTS_LIMIT
      {
        var dep := deps[op][i];
        forall d: nat ensures Occurs(deps[op][..i + 1], d)
                              == Occurs(deps[op][..i], d) + (if dep.op == d then 1 else 0)
        {
          OccursNext(deps[op], i, d);
        }
        nrParents := nrParents[dep.op := (nrParents[dep.op] + 1) % PARENTS_LIMIT];
        if nrParents[dep.op] == 0 {
          OccursMonotone(deps[op], i + 1, dep.op);
          return false;
        }
        i := i + 1;
      }
      assert deps[op][..i] == deps[op];
      ok := true;
    }

    /** Counts the parents of all operations. */
    method Bootstrap() returns (ok: bool)
      requires Linked() && Fresh()
      modifies `nrParents
      ensures |nrParents| == |deps|
      ensures ok <==> forall d: nat :: d < |deps| ==> NrParents(deps, d) < PARENTS_LIMIT
      ensures ok ==> forall d: nat :: d < |deps| ==> nrParents[d] == NrParents(deps, d)
    {
      var op := 0;
      assert deps[..0] == [];
      while op < |deps|
        invariant 0 <= op <= |deps| && |nrParents| == |deps|
        invariant forall d: nat :: d < |deps| ==> nrParents[d] == NrParents(deps[..op], d) < PARENTS_LIMIT
      {
        ghost var before := nrParents;
        forall d: nat ensures NrParents(deps[..op + 1], d) == NrParents(deps[..op], d) + Occurs(deps[op], d) {
          NrParentsNext(deps, op, d);
        }
        ok := InitOp(op);
        if !ok {
          ghost var d: nat :| d < |deps| && before[d] + Occurs(deps[op], d) >= PARENTS_LIMIT;
          NrParentsMonotone(deps, op + 1, d);
          return;
        }
        op := op + 1;
      }
      assert deps[..op] == deps;
      ok := true;
    }

    /**
     * The state of the sort: out holds the operations sorted so far, latest
     * last, and stack those about to be.
     */
    ghost predicate Sorting(out: seq<nat>, stack: seq<nat>)
      reads this
    {
      && Linked() && |nrParents| == |states| == |errors| == |deps|
      && NoDup(out + stack)
      && (forall x :: x in out + stack ==> x < |deps|)
      && (forall d: nat :: d < |deps| ==> nrParents[d] == Waiting(deps, ToSet(out), d))
      && (forall d: nat :: d < |deps| ==> (nrParents[d] == 0 <==> d in out + stack))
      && (forall x: nat :: x < |deps| ==> states[x] == if x in out then Pending else Unlinked)
      && ParentsFirst(deps, out)
      && pending == Reverse(out)
    }

    method ScanRoots() returns (stack: seq<nat>)
      requires Linked() && |nrParents| == |states| == |errors| == |deps| && pending == []
      requires forall d: nat :: d < |deps| ==> nrParents[d] == NrParents(deps, d)
      requires forall x: nat :: x < |deps| ==> states[x] == Unlinked
      ensures Sorting([], stack)
    {
      stack := [];
      var op := 0;
      while op < |deps|
        invariant 0 <= op <= |deps|
        invariant NoDup(stack)
        invariant forall x: nat :: x in stack <==> x < op && nrParents[x] == 0
      {
        if nrParents[op] == 0 {
          stack := [op] + stack;
        }
        op := op + 1;
      }
      assert [] + stack == stack;
      assert ToSet([]) == {};
    }

    /** Releases the dependencies of an operation just sorted. */
    method Visit(op: nat, stack: seq<nat>, ghost out: seq<nat>) returns (r: seq<nat>)
      requires Linked() && op < |deps| && |nrParents| == |deps| && op !in out
      requires NoDup(out + [op] + stack)
      requires forall x :: x in out + [op] + stack ==> x < |deps|
      requires forall d: nat :: d < |deps| ==> nrParents[d] == Waiting(deps, ToSet(out), d)
      requires forall d: nat :: d < |deps| ==> (nrParents[d] == 0 <==> d in out + [op] + stack)
      modifies `nrParents
      ensures |nrParents| == |deps|
      ensures NoDup(out + [op] + r)
      ensures forall x :: x in out + [op] + r ==> x < |deps|
      ensures forall d: nat :: d < |deps| ==> nrParents[d] == Waiting(deps, ToSet(out + [op]), d)
      ensures forall d: nat :: d < |deps| ==> (nrParents[d] == 0 <==> d in out + [op] + r)
    {
      r := stack;
      var i := 0;
      assert deps[op][..0] == [];
      while i < |deps[op]|
        invariant 0 <= i <= |deps[op]| && |nrParents| == |deps|
        invariant NoDup(out + [op] + r)
        invariant forall x :: x in out + [op] + r ==> x < |deps|
        invariant forall d: nat :: d < |deps| ==>
                    nrParents[d] == Waiting(deps, ToSet(out), d) - Occurs(deps[op][..i], d)
        invariant forall d: nat :: d < |deps| ==> (nrParents[d] == 0 <==> d in out + [op] + r)
      {
        var d := deps[op][i].op;
        WaitingAt(deps, ToSet(out), op, d);
        OccursMonotone(deps[op], i + 1, d);
        forall x: nat ensures Occurs(deps[op][..i + 1], x)
                              == Occurs(deps[op][..i], x) + (if d == x then 1 else 0)
        {
          OccursNext(deps[op], i, x);
        }
        assert nrParents[d] != 0;
        nrParents := nrParents[d := nrParents[d] - 1];
        if nrParents[d] == 0 {
          PushedNoDup(out + [op], r, d);
          r := [d] + r;
        }
        i := i + 1;
      }
      assert deps[op][..i] == deps[op];
      assert ToSet(out + [op]) == ToSet(out) + {op};
      forall d: nat | d < |deps| ensures nrParents[d] == Waiting(deps, ToSet(out + [op]), d) {
        WaitingDone(deps, ToSet(out), op, d);
      }
    }

    method AddPending(op: nat)
      requires op < |states| && states[op] == Unlinked
      modifies `states, `pending
      ensures states == old(states)[op := Pending] && pending == [op] + old(pending)
    {
      assert states[op] != Pending;
      states := states[op := Pending];
      pending := [op] + pending;
    }

    /** Sorts the operations; false when the processor is to be halted. */
    method ScanOps() returns (ok: bool)
      requires Linked() && |nrParents| == |states| == |errors| == |deps| && pending == []
      requires forall d: nat :: d < |deps| ==> nrParents[d] == NrParents(deps, d)
      requires forall x: nat :: x < |deps| ==> states[x] == Unlinked
      modifies `nrParents, `states, `pending
      ensures ok <==> !Cyclic(deps)
      ensures ok ==> Ordered(deps, pending) && |states| == |deps|
                     && forall x: nat :: x < |deps| ==> states[x] == Pending
    {
      var stack := ScanRoots();
      ghost var out := [];
      while stack != []
        invariant Sorting(out, stack)
        invariant |out| <= |deps|
        decreases |deps| - |out|
      {
        var op := stack[0];
        NextSorted(out, stack);
        stack := stack[1..];
        AddPending(op);
        stack := Visit(op, stack, out);
        out := out + [op];
      }
      assert out + [] == out;
      SortedAll(deps, out);
      ok := |pending| == |deps|;
    }

    lemma NextSorted(out: seq<nat>, stack: seq<nat>)
      requires Sorting(out, stack) && stack != []
      ensures stack[0] < |deps| && states[stack[0]] == Unlinked && stack[0] !in out
      ensures out + [stack[0]] + stack[1..] == out + stack
      ensures ParentsFirst(deps, out + [stack[0]])
      ensures Reverse(out + [stack[0]]) == [stack[0]] + Reverse(out)
      ensures |out| < |deps|
    {
      hide ParentsFirst, Waiting, Reverse;
      var op := stack[0];
      assert (out + stack)[|out|] == op;
      assert op in out + stack;
      SplitNoDup(out, stack);
      SortedNext(deps, out, op);
      ReverseNext(out, op);
      PrefixBelow(out, stack, |deps|);
    }

    /** Whether all dependencies completed and the required ones succeeded. */
    method CheckReady(op: nat) returns (ready: bool)
      requires Linked() && |states| == |errors| == |deps| && op < |deps|
      ensures ready <==>
                && (forall i: nat :: i < |deps[op]| ==> states[deps[op][i].op] == Complete)
                && Ready(deps, errors, op)
    {
      var i := 0;
      while i < |deps[op]|
        invariant 0 <= i <= |deps[op]|
        invariant forall k: nat :: k < i ==>
                    && states[deps[op][k].op] == Complete
                    && (deps[op][k].required ==> errors[deps[op][k].op] == 0)
      {
        var dep := deps[op][i];
        if states[dep.op] != Complete || (dep.required && errors[dep.op] != 0) {
          return false;
        }
        i := i + 1;
      }
      ready := true;
    }

    method RunOp(op: nat)
      requires Linked() && |states| == |errors| == |deps| && op < |deps|
      requires states[op] == Pending
      requires forall i: nat :: i < |deps[op]| ==> states[deps[op][i].op] == Complete
      modifies `states, `errors, `calls, `completed
      ensures states == old(states)[op := Complete] && completed == old(completed) + [op]
      ensures if old(Ready(deps, errors, op)) then errors == old(errors)[op := fns[op]] && calls == old(calls) + [op]
              else errors == old(errors) && calls == old(calls)
    {
      var ready := CheckReady(op);
      if ready {
        calls := calls + [op];
        errors := errors[op := fns[op]];
      }
      states := states[op := Complete];
      completed := completed + [op];
    }

    /** The execution so far: a prefix of the order completed, with its errors and calls settled. */
    ghost predicate Running(order: seq<nat>)
      reads this
    {
      && Linked() && |states| == |errors| == |deps|
      && Ordered(deps, order) && |completed| <= |order|
      && completed == order[..|completed|] && pending == order[|completed|..]
      && (forall x: nat :: x < |deps| ==> states[x] == if x in completed then Complete else Pending)
      && (forall x: nat :: x < |deps| ==>
            errors[x] == if x in completed && Ready(deps, errors, x) then fns[x] else EAGAIN)
      && calls == OnlyReady(deps, errors, completed)
    }

    /** Runs the pending operations. */
    method RunOps()
      requires Linked() && |states| == |errors| == |deps|
      requires Ordered(deps, pending) && errors == Repeat(EAGAIN, |deps|)
      requires calls == [] && completed == []
      requires forall x: nat :: x < |deps| ==> states[x] == Pending
      modifies `states, `errors, `calls, `completed, `pending
      ensures completed == old(pending) && pending == []
      ensures |states| == |deps| && forall x: nat :: x < |deps| ==> states[x] == Complete
      ensures Settled(deps, fns, errors)
      ensures calls == OnlyReady(deps, errors, completed)
    {
      ghost var order := pending;
      assert order[..0] == [];
      while pending != []
        invariant Running(order)
        decreases |pending|
      {
        var op := pending[0];
        ghost var k := |completed|;
        NextRun(order);
        ghost var before := errors;
        ghost var done := completed;
        pending := pending[1..];
        RunOp(op);
        assert completed == order[..k + 1];
        StillReady(deps, before, errors, order, k);
        assert completed[..k] == done;
      }
      assert order[..|order|] == order;
    }

    lemma NextRun(order: seq<nat>)
      requires Running(order) && pending != []
      ensures pending[0] == order[|completed|] && pending[0] < |deps| && states[pending[0]] == Pending
      ensures pending[0] !in completed
      ensures forall i: nat :: i < |deps[pending[0]]| ==> states[deps[pending[0]][i].op] == Complete
      ensures errors[pending[0]] == EAGAIN
    {
      var op, k := pending[0], |completed|;
      assert order[k] == op && op in order;
      forall i: nat | i < |deps[op]| ensures states[deps[op][i].op] == Complete {
        assert DependsOn(deps, order[k], deps[op][i].op);
      }
    }

    /**
     * Sets up all operations. The outcome depends only on the graph: the
     * kernel panics when a parent count wraps, halts when there is a cycle.
     */
    method Setup() returns (outcome: Outcome)
      requires Linked() && Fresh()
      modifies this
      ensures outcome == Panicked <==> exists d: nat :: d < |deps| && NrParents(deps, d) >= PARENTS_LIMIT
      ensures outcome != Panicked ==> (outcome == Halted <==> Cyclic(deps))
      ensures outcome != Done ==> calls == []
      ensures outcome == Done ==>
                && Ordered(deps, completed)
                && Settled(deps, fns, errors)
                && calls == OnlyReady(deps, errors, completed)
                && |states| == |deps| && (forall x: nat :: x < |deps| ==> states[x] == Complete)
    {
      var ok := Bootstrap();
      if !ok {
        return Panicked;
      }
      ok := ScanOps();
      if !ok {
        return Halted;
      }
      RunOps();
      outcome := Done;
    }
  }

  /** A list of operations where each comes once, after its dependencies. */
  ghost predicate Ordered(g: Graph, order: seq<nat>) {
    && NoDup(order)
    && (forall x: nat :: x < |g| <==> x in order)
    && (forall i: nat, d: nat :: i < |order| && DependsOn(g, order[i], d) ==> d in order[..i])
  }

  lemma SortedOrdered(g: Graph, out: seq<nat>)
    requires WellFormed(g) && NoDup(out) && ParentsFirst(g, out)
    requires forall x: nat :: x < |g| <==> x in out
    ensures Ordered(g, Reverse(out))
  {
    var r, n := Reverse(out), |out|;
    forall x: nat ensures x in out <==> x in r {
      if i: nat :| i < n && out[i] == x {
        assert r[n - 1 - i] == x;
      }
      if i: nat :| i < n && r[i] == x {
        assert out[n - 1 - i] == x;
      }
    }
    forall i: nat, d: nat | i < n && DependsOn(g, r[i], d) ensures d in r[..i] {
      assert d < |g| && d in out;
      var k: nat :| k < n && out[k] == d;
      assert r[i] in out[..k];
      var m: nat :| m < k && out[..k][m] == r[i];
      assert out[m] == out[n - 1 - i];
      assert r[n - 1 - k] == d && r[..i][n - 1 - k] == d;
    }
  }

  /** A sort that stopped with an empty stack sorted all operations, unless there is a cycle. */
  lemma SortedAll(g: Graph, out: seq<nat>)
    requires WellFormed(g) && NoDup(out) && ParentsFirst(g, out)
    requires forall x :: x in out ==> x < |g|
    requires forall d: nat :: d < |g| ==> (Waiting(g, ToSet(out), d) == 0 <==> d in out)
    ensures |out| <= |g|
    ensures |out| == |g| <==> !Cyclic(g)
    ensures |out| == |g| ==> Ordered(g, Reverse(out)) && forall x: nat :: x < |g| ==> x in out
  {
    hide WellFormed, ParentsFirst, Waiting, Cyclic, Ordered, Reverse, HasParent, DependsOn;
    forall i | 0 <= i < |out| ensures out[i] < |g| {
      assert out[i] in out;
    }
    Pigeonhole(out, |g|);
    if |out| == |g| {
      FullCover(out, |g|);
      SortedAcyclic(g, out);
      SortedOrdered(g, out);
    } else {
      Covered(out, |g|);
      var left := set x: nat | x < |g| && x !in out;
      forall x | x in left ensures HasParent(g, left, x) {
        WaitingParent(g, out, left, x);
      }
      var y: nat :| y < |g| && y !in out;
      assert y in left;
      LeftoverCycle(g, left);
    }
  }

  lemma FullCover(s: seq<nat>, n: nat)
    requires NoDup(s) && |s| == n && forall i :: 0 <= i < |s| ==> s[i] < n
    ensures forall x: nat :: x < n ==> x in s
  {
    forall x: nat | x < n ensures x in s {
      if x !in s {
        Pigeonhole(s + [x], n);
      }
    }
  }

  lemma WaitingParent(g: Graph, out: seq<nat>, left: set<nat>, x: nat)
    requires Waiting(g, ToSet(out), x) > 0
    requires forall y: nat :: y in left <==> y < |g| && y !in out
    ensures HasParent(g, left, x)
  {
    WaitingSome(g, ToSet(out), x);
    var op: nat :| op !in ToSet(out) && DependsOn(g, op, x);
    assert op in left;
  }

  lemma {:induction false} Covered(s: seq<nat>, n: nat)
    requires |s| < n
    ensures exists x: nat :: x < n && x !in s
  {
    if forall x: nat :: x < n ==> x in s {
      CoverSize(s, n);
    }
  }

  lemma {:induction false} CoverSize(s: seq<nat>, n: nat)
    requires forall x: nat :: x < n ==> x in s
    ensures n <= |s|
  {
    if n > 0 {
      assert n - 1 in s;
      var k :| 0 <= k < |s| && s[k] == n - 1;
      var t := s[..k] + s[k + 1..];
      forall x: nat | x < n - 1 ensures x in t {
        assert x in s;
        var i :| 0 <= i < |s| && s[i] == x;
        assert t[if i < k then i else i - 1] == x;
      }
      CoverSize(t, n - 1);
    }
  }

  /** A sorted operation without waiting parents extends the order. */
  lemma SortedNext(g: Graph, out: seq<nat>, op: nat)
    requires ParentsFirst(g, out) && Waiting(g, ToSet(out), op) == 0
    ensures ParentsFirst(g, out + [op])
  {
    var r := out + [op];
    forall i: nat, x: nat | i < |r| && DependsOn(g, x, r[i]) ensures x in r[..i] {
      if i < |out| {
        assert r[..i] == out[..i];
      } else {
        WaitingSome(g, ToSet(out), op);
        assert r[..i] == out;
        assert x in ToSet(out);
      }
    }
  }

  // ---- Execution ----

  /** Whether an operation's required dependencies all succeeded. */
  ghost predicate Ready(g: Graph, errors: seq<int>, op: nat) {
    op < |g| && forall i: nat :: i < |g[op]| && g[op][i].required ==>
      g[op][i].op < |errors| && errors[g[op][i].op] == 0
  }

  /**
   * The errors after all operations completed: that of the function when it
   * was called, the initial one otherwise.
   */
  ghost predicate Settled(g: Graph, fns: seq<int>, errors: seq<int>) {
    && |fns| == |errors| == |g|
    && forall op: nat :: op < |g| ==> errors[op] == if Ready(g, errors, op) then fns[op] else EAGAIN
  }

  ghost predicate Requires(g: Graph, op: nat, d: nat) {
    op < |g| && exists i: nat :: i < |g[op]| && g[op][i].required && g[op][i].op == d
  }

  /** A chain of required dependencies. */
  ghost predicate RequiredPath(g: Graph, p: seq<nat>) {
    forall i :: 0 <= i < |p| - 1 ==> Requires(g, p[i], p[i + 1])
  }

  /** A called function has all its transitive required dependencies succeed. */
  lemma {:induction false} SuccessBelow(g: Graph, fns: seq<int>, errors: seq<int>, p: seq<nat>)
    requires WellFormed(g) && Settled(g, fns, errors)
    requires |p| >= 2 && RequiredPath(g, p) && Ready(g, errors, p[0])
    ensures p[|p| - 1] < |g| && Ready(g, errors, p[|p| - 1]) && fns[p[|p| - 1]] == 0
  {
    assert Requires(g, p[0], p[1]);
    assert errors[p[1]] == 0;
    if |p| > 2 {
      forall i | 0 <= i < |p[1..]| - 1 ensures Requires(g, p[1..][i], p[1..][i + 1]) {
        assert Requires(g, p[i + 1], p[i + 2]);
      }
      SuccessBelow(g, fns, errors, p[1..]);
    }
  }

  /**
   * A function that was not called has a transitive required dependency whose
   * function was called and failed.
   */
  lemma {:induction false} FailureBelow(g: Graph, fns: seq<int>, errors: seq<int>, order: seq<nat>, k: nat)
      returns (p: seq<nat>)
    requires WellFormed(g) && Settled(g, fns, errors) && Ordered(g, order)
    requires k < |order| && order[k] < |g| && !Ready(g, errors, order[k])
    ensures |p| >= 2 && RequiredPath(g, p) && p[0] == order[k]
    ensures p[|p| - 1] < |g| && Ready(g, errors, p[|p| - 1]) && fns[p[|p| - 1]] != 0
    decreases k
  {
    var op := order[k];
    var i: nat :| i < |g[op]| && g[op][i].required && errors[g[op][i].op] != 0;
    var d := g[op][i].op;
    assert Requires(g, op, d) && DependsOn(g, op, d);
    if Ready(g, errors, d) {
      p := [op, d];
    } else {
      assert d in order[..k];
      var m: nat :| m < k && order[..k][m] == d;
      var q := FailureBelow(g, fns, errors, order, m);
      p := [op] + q;
    }
  }

  /**
   * An operation's function is called if and only if the functions of all its
   * transitive required dependencies succeed.
   */
  lemma CalledIff(g: Graph, fns: seq<int>, errors: seq<int>, order: seq<nat>, op: nat)
    requires WellFormed(g) && Settled(g, fns, errors) && Ordered(g, order) && op < |g|
    ensures Ready(g, errors, op) <==>
              forall p: seq<nat> :: |p| >= 2 && RequiredPath(g, p) && p[0] == op
                ==> p[|p| - 1] < |fns| && fns[p[|p| - 1]] == 0
  {
    if Ready(g, errors, op) {
      forall p: seq<nat> | |p| >= 2 && RequiredPath(g, p) && p[0] == op
        ensures p[|p| - 1] < |fns| && fns[p[|p| - 1]] == 0
      {
        SuccessBelow(g, fns, errors, p);
      }
    } else {
      assert op in order;
      var k: nat :| k < |order| && order[k] == op;
      var p := FailureBelow(g, fns, errors, order, k);
      assert fns[p[|p| - 1]] != 0;
    }
  }

  /** The operations of a list that are ready, in order. */
  ghost function OnlyReady(g: Graph, errors: seq<int>, s: seq<nat>): seq<nat> {
    if s == [] then []
    else OnlyReady(g, errors, s[..|s| - 1]) + (if Ready(g, errors, s[|s| - 1]) then [s[|s| - 1]] else [])
  }

  function Reverse(s: seq<nat>): (r: seq<nat>)
    ensures |r| == |s| && forall i :: 0 <= i < |s| ==> r[i] == s[|s| - 1 - i]
  {
    if s == [] then [] else [s[|s| - 1]] + Reverse(s[..|s| - 1])
  }

  lemma ReverseNext(s: seq<nat>, x: nat)
    ensures Reverse(s + [x]) == [x] + Reverse(s)
  {
    assert (s + [x])[..|s|] == s;
  }

  lemma SplitNoDup(a: seq<nat>, s: seq<nat>)
    requires NoDup(a + s) && s != []
    ensures s[0] !in a && NoDup(a + [s[0]])
    ensures a + [s[0]] + s[1..] == a + s
  {
    var u := a + s;
    assert u[|a|] == s[0];
    forall i | 0 <= i < |a| ensures a[i] != s[0] {
      assert u[i] == a[i];
    }
    forall i, j | 0 <= i < j < |a| ensures a[i] != a[j] {
      assert u[i] == a[i] && u[j] == a[j];
    }
  }

  lemma PrefixBelow(a: seq<nat>, s: seq<nat>, n: nat)
    requires NoDup(a + s) && s != [] && forall x :: x in a + s ==> x < n
    ensures |a| < n
  {
    SplitNoDup(a, s);
    forall i | 0 <= i < |a + [s[0]]| ensures (a + [s[0]])[i] < n {
      assert (a + s)[i] in a + s;
    }
    Pigeonhole(a + [s[0]], n);
  }

  lemma PushedNoDup(a: seq<nat>, s: seq<nat>, d: nat)
    requires NoDup(a + s) && d !in a + s
    ensures NoDup(a + ([d] + s))
    ensures forall x :: x in a + ([d] + s) <==> x == d || x in a + s
  {
    var u, v := a + s, a + ([d] + s);
    forall i | 0 <= i < |v| && i != |a| ensures v[i] == u[if i < |a| then i else i - 1] {}
    forall x | x in u ensures x in v {
      var i :| 0 <= i < |u| && u[i] == x;
      assert v[if i < |a| then i else i + 1] == x;
    }
    assert v[|a|] == d;
  }

  lemma NrParentsNext(g: Graph, op: nat, d: nat)
    requires op < |g|
    ensures NrParents(g[..op + 1], d) == NrParents(g[..op], d) + Occurs(g[op], d)
  {
    assert g[..op + 1][..op] == g[..op];
  }

  lemma {:induction false} NrParentsMonotone(g: Graph, op: nat, d: nat)
    requires op <= |g|
    ensures NrParents(g[..op], d) <= NrParents(g, d)
    decreases |g| - op
  {
    if op < |g| {
      NrParentsNext(g, op, d);
      NrParentsMonotone(g, op + 1, d);
    } else {
      assert g[..op] == g;
    }
  }

  /** Running an operation does not change whether those before it, or itself, are ready. */
  lemma StillReady(g: Graph, before: seq<int>, after: seq<int>, order: seq<nat>, k: nat)
    requires WellFormed(g) && Ordered(g, order) && k < |order| && |before| == |after| == |g|
    requires forall x: nat :: x < |g| && x != order[k] ==> after[x] == before[x]
    ensures forall i: nat :: i <= k ==> (Ready(g, after, order[i]) <==> Ready(g, before, order[i]))
    ensures OnlyReady(g, after, order[..k]) == OnlyReady(g, before, order[..k])
  {
    forall i: nat | i <= k ensures Ready(g, after, order[i]) <==> Ready(g, before, order[i]) {
      var op := order[i];
      assert op in order;
      forall j: nat | j < |g[op]| ensures g[op][j].op != order[k] {
        assert DependsOn(g, order[i], g[op][j].op);
        assert g[op][j].op in order[..i];
      }
    }
    OnlyReadySame(g, before, after, order[..k]);
  }

  lemma {:induction false} OnlyReadySame(g: Graph, before: seq<int>, after: seq<int>, s: seq<nat>)
    requires forall i :: 0 <= i < |s| ==> (Ready(g, after, s[i]) <==> Ready(g, before, s[i]))
    ensures OnlyReady(g, after, s) == OnlyReady(g, before, s)
  {
    if s != [] {
      OnlyReadySame(g, before, after, s[..|s| - 1]);
    }
  }
}
