// The queued spin locks of kern/spinlock.c and kern/spinlock_i.h: an MCS lock whose owner is not in the queue
// and whose first waiter spins on the lock word. A step is one atomic access to shared data by one execution
// context; a compare-and-swap loop is the one step in which it succeeds.

module Spinlock {
  import opened Common

  /** An execution context: a processor, in thread or in interrupt context. Each has one qnode. */
  datatype Context = Context(cpu: nat, intr: bool)

  type LockId = nat

  /** The lock word: the lock bit, and the QID of the last waiter when the contended bit is set. */
  datatype Word = Word(locked: bool, tail: Option<Context>)

  /** Where a context is in a lock operation. */
  datatype Pc =
    | Idle
    | Enqueue(lock: LockId)
    | MarkLocked(lock: LockId, prev: Context)
    | LinkNext(lock: LockId, prev: Context)
    | WaitTurn(lock: LockId)
    | WaitWord(lock: LockId)
    | Downgrade(lock: LockId)
    | SetLocked(lock: LockId)
    | WaitNext(lock: LockId)
    | ClearNext(lock: LockId, next: Context)

  /** A context, the locks it holds, and its qnode. */
  datatype Agent = Agent(pc: Pc, held: set<LockId>, next: Option<Context>, locked: bool)

  /** queues and owners are history: the waiters of each lock in the order of their enqueuing, and the context
      that has taken the lock, from the moment nobody else can. */
  datatype State = State(words: map<LockId, Word>, agents: map<Context, Agent>,
                         queues: map<LockId, seq<Context>>, owners: map<LockId, Option<Context>>)

  // ---------------------------------------------------------------- the lock word as 32 bits

  const CPU_MAX := 0x2000_0000  // 29 bits

  /** spinlock_qid_build. */
  function Qid(a: Context): nat { a.cpu * 2 + (if a.intr then 1 else 0) }

  function Value(w: Word): nat {
    (if w.locked then 1 else 0) + (if w.tail.Some? then Qid(w.tail.value) * 4 + 2 else 0)
  }

  /** spinlock_qid_ctx and spinlock_qid_cpu on the QID of a lock value. */
  function Unpack(v: nat): Word {
    var q := v / 4;
    Word(v % 2 == 1, if v / 2 % 2 == 1 then Some(Context(q / 2, q % 2 == 1)) else None)
  }

  /** The word fits 32 bits and loses nothing, and it is 0 exactly when the lock is free with no waiter. */
  lemma WordPacked(w: Word)
    requires w.tail.Some? ==> w.tail.value.cpu < CPU_MAX
    ensures Value(w) < 0x1_0000_0000 && Unpack(Value(w)) == w
    ensures Value(w) == 0 <==> w == Word(false, None)
    ensures Value(w) == 1 <==> w == Word(true, None)
  {
    if w.tail.Some? {
      var q := Qid(w.tail.value);
      assert Value(w) / 4 == q && q / 2 == w.tail.value.cpu;
    }
  }

  // ---------------------------------------------------------------- steps

  datatype Step =
    | TryFast(a: Context, l: LockId)
    | Slow(a: Context, l: LockId)
    | Go(a: Context)
    | Unlock(a: Context, l: LockId)

  ghost predicate Wf(s: State) {
    && s.queues.Keys == s.words.Keys && s.owners.Keys == s.words.Keys
    && forall a | a in s.agents :: PcWf(s, s.agents[a].pc)
  }

  ghost predicate PcWf(s: State, pc: Pc) {
    && (pc.Idle? || pc.lock in s.words)
    && (pc.LinkNext? ==> pc.prev in s.agents)
    && (pc.ClearNext? ==> pc.next in s.agents)
  }

  ghost predicate Enabled(s: State, step: Step)
    requires Wf(s)
  {
    step.a in s.agents && var me := s.agents[step.a];
    match step
    case TryFast(a, l) => l in s.words && me.pc == Idle
    case Slow(a, l) => l in s.words && me.pc == Idle
    case Unlock(a, l) => l in s.words && me.pc == Idle && l in me.held
    case Go(a) =>
      match me.pc
      case Idle => false
      case WaitTurn(l) => !me.locked
      case WaitWord(l) => !s.words[l].locked
      case WaitNext(l) => me.next.Some?
      case _ => true
  }

  function SetAgent(s: State, a: Context, g: Agent): State { s.(agents := s.agents[a := g]) }

  function SetPc(s: State, a: Context, pc: Pc): State
    requires a in s.agents
  {
    SetAgent(s, a, s.agents[a].(pc := pc))
  }

  /** spinlock_lock_fast. When it fails, the word may change before the slow path starts. */
  function DoTryFast(s: State, a: Context, l: LockId): State
    requires a in s.agents && l in s.words
  {
    if s.words[l] != Word(false, None) then s
    else
      SetAgent(s, a, s.agents[a].(held := s.agents[a].held + {l}))
        .(words := s.words[l := Word(true, None)], owners := s.owners[l := Some(a)])
  }

  /** The start of spinlock_lock_slow: the qnode is initialised. */
  function DoSlow(s: State, a: Context, l: LockId): State
    requires a in s.agents
  {
    SetAgent(s, a, s.agents[a].(pc := Enqueue(l), next := None))
  }

  /** spinlock_enqueue. */
  function DoEnqueue(s: State, a: Context, l: LockId): State
    requires a in s.agents && l in s.words && l in s.queues
  {
    var w := s.words[l];
    SetPc(s, a, if w.tail.Some? then MarkLocked(l, w.tail.value) else WaitWord(l))
      .(words := s.words[l := w.(tail := Some(a))], queues := s.queues[l := s.queues[l] + [a]])
  }

  /** spinlock_downgrade, and the return of the operation when it succeeds. */
  function DoDowngrade(s: State, a: Context, l: LockId): State
    requires a in s.agents && l in s.words
  {
    if s.words[l] == Word(false, Some(a)) then
      SetAgent(s, a, s.agents[a].(pc := Idle, held := s.agents[a].held + {l}))
        .(words := s.words[l := Word(true, None)], queues := s.queues[l := []])
    else SetPc(s, a, SetLocked(l))
  }

  /** The hand-off to the next waiter, and the return of the operation. */
  function DoClearNext(s: State, a: Context, l: LockId, n: Context): State
    requires a in s.agents && n in s.agents && l in s.queues && s.queues[l] != []
  {
    var t := SetAgent(s, n, s.agents[n].(locked := false));
    SetAgent(t, a, t.agents[a].(pc := Idle, held := t.agents[a].held + {l}))
      .(queues := s.queues[l := s.queues[l][1..]])
  }

  /** The next step of a lock operation in progress. */
  function DoGo(s: State, a: Context): State
    requires Wf(s) && Enabled(s, Go(a))
  {
    var me := s.agents[a];
    match me.pc
    case Idle => s
    case Enqueue(l) => DoEnqueue(s, a, l)
    case MarkLocked(l, p) => SetAgent(s, a, me.(pc := LinkNext(l, p), locked := true))
    case LinkNext(l, p) =>
      var t := SetAgent(s, p, s.agents[p].(next := Some(a)));
      SetPc(t, a, WaitTurn(l))
    case WaitTurn(l) => SetPc(s, a, WaitWord(l))
    case WaitWord(l) => SetPc(s, a, Downgrade(l)).(owners := s.owners[l := Some(a)])
    case Downgrade(l) => DoDowngrade(s, a, l)
    case SetLocked(l) => SetPc(s, a, WaitNext(l)).(words := s.words[l := s.words[l].(locked := true)])
    case WaitNext(l) => SetPc(s, a, ClearNext(l, me.next.value))
    case ClearNext(l, n) => if s.queues[l] == [] then s else DoClearNext(s, a, l, n)
  }

  /** spinlock_unlock_common: one atomic operation that waits for nothing. */
  function DoUnlock(s: State, a: Context, l: LockId): State
    requires a in s.agents && l in s.words
  {
    SetAgent(s, a, s.agents[a].(held := s.agents[a].held - {l}))
      .(words := s.words[l := s.words[l].(locked := false)], owners := s.owners[l := None])
  }

  function Apply(s: State, step: Step): State
    requires Wf(s) && Enabled(s, step)
  {
    match step
    case TryFast(a, l) => DoTryFast(s, a, l)
    case Slow(a, l) => DoSlow(s, a, l)
    case Go(a) => DoGo(s, a)
    case Unlock(a, l) => DoUnlock(s, a, l)
  }

  ghost predicate Initial(s: State) {
    && s.queues.Keys == s.words.Keys && s.owners.Keys == s.words.Keys
    && (forall l | l in s.words :: s.words[l] == Word(false, None) && s.queues[l] == [] && s.owners[l] == None)
    && (forall a | a in s.agents :: s.agents[a].pc == Idle && s.agents[a].held == {})
  }

  // ---------------------------------------------------------------- invariant

  /** In the queue of a lock. */
  predicate InQueue(pc: Pc) { !pc.Idle? && !pc.Enqueue? }

  /** Past the wait on the lock word: the lock is taken. */
  predicate Claimed(pc: Pc) { pc.Downgrade? || pc.SetLocked? || pc.WaitNext? || pc.ClearNext? }

  ghost predicate AgentInv(s: State, a: Context)
    requires a in s.agents && Wf(s)
  {
    var me := s.agents[a];
    && (InQueue(me.pc) ==> a in s.queues[me.pc.lock])
    && (me.pc.Enqueue? ==> me.next == None)
    && (forall l | l in me.held :: l in s.words && s.owners[l] == Some(a))
    && (Claimed(me.pc) ==> s.owners[me.pc.lock] == Some(a) && me.pc.lock !in me.held)
  }

  /** The i-th context in the queue of l. */
  ghost predicate WaiterInv(s: State, l: LockId, i: nat)
    requires Wf(s) && l in s.words && i < |s.queues[l]|
  {
    var q := s.queues[l];
    q[i] in s.agents && var me := s.agents[q[i]];
    && InQueue(me.pc) && me.pc.lock == l
    && (if i == 0 then
          && !me.pc.MarkLocked? && !me.pc.LinkNext? && (me.pc.WaitTurn? ==> !me.locked)
          && (me.pc.SetLocked? || me.pc.WaitNext? || me.pc.ClearNext? ==> |q| > 1)
          && (me.pc.ClearNext? ==> me.next == Some(me.pc.next))
        else
          && (me.pc == MarkLocked(l, q[i - 1]) || me.pc == LinkNext(l, q[i - 1]) || me.pc == WaitTurn(l))
          && (me.pc.MarkLocked? || me.locked))
  }

  /** A waiter points to the next one exactly when that one has linked itself. */
  ghost predicate LinkInv(s: State, l: LockId, i: nat)
    requires Wf(s) && l in s.words && i < |s.queues[l]|
  {
    var q := s.queues[l];
    && q[i] in s.agents
    && (i + 1 < |q| ==> q[i + 1] in s.agents)
    && s.agents[q[i]].next
       == if i + 1 < |q| && s.agents[q[i + 1]].pc == WaitTurn(l) then Some(q[i + 1]) else None
  }

  ghost predicate OwnerInv(s: State, l: LockId)
    requires Wf(s) && l in s.words
  {
    match s.owners[l]
    case None => !s.words[l].locked
    case Some(b) =>
      b in s.agents && var me := s.agents[b];
      || (l in me.held && s.words[l].locked)
      || (l !in me.held && Claimed(me.pc) && me.pc.lock == l
          && (s.words[l].locked <==> me.pc.WaitNext? || me.pc.ClearNext?))
  }

  ghost predicate LockInv(s: State, l: LockId)
    requires Wf(s) && l in s.words
  {
    var q := s.queues[l];
    && NoDup(q)
    && s.words[l].tail == (if q == [] then None else Some(q[|q| - 1]))
    && (forall i | 0 <= i < |q| :: WaiterInv(s, l, i) && LinkInv(s, l, i))
    && OwnerInv(s, l)
  }

  ghost predicate Inv(s: State) {
    && Wf(s)
    && (forall a | a in s.agents :: AgentInv(s, a))
    && (forall l | l in s.words :: LockInv(s, l))
  }

  // ---------------------------------------------------------------- preservation

  lemma InitialInv(s: State)
    requires Initial(s)
    ensures Inv(s)
  {}

  /** The contexts of another lock's queue, and that lock, are as they were. */
  ghost predicate OtherLock(s: State, s': State, l: LockId, m: LockId)
    requires Wf(s) && Wf(s')
  {
    && m != l && m in s.words && s'.words.Keys == s.words.Keys
    && s'.words[m] == s.words[m] && s'.queues[m] == s.queues[m] && s'.owners[m] == s.owners[m]
    && (forall i | 0 <= i < |s.queues[m]| ::
          s.queues[m][i] in s.agents && s.queues[m][i] in s'.agents
          && s'.agents[s.queues[m][i]].pc == s.agents[s.queues[m][i]].pc
          && s'.agents[s.queues[m][i]].next == s.agents[s.queues[m][i]].next
          && s'.agents[s.queues[m][i]].locked == s.agents[s.queues[m][i]].locked)
    && (s.owners[m].Some? ==>
          var b := s.owners[m].value;
          b in s.agents && b in s'.agents && (m in s'.agents[b].held <==> m in s.agents[b].held)
          && (Claimed(s.agents[b].pc) && s.agents[b].pc.lock == m ==> s'.agents[b].pc == s.agents[b].pc))
  }

  lemma OtherLockInv(s: State, s': State, l: LockId, m: LockId)
    requires Wf(s) && Wf(s') && OtherLock(s, s', l, m) && LockInv(s, m)
    ensures LockInv(s', m)
  {
    forall i | 0 <= i < |s.queues[m]| ensures WaiterInv(s', m, i) && LinkInv(s', m, i) {
      assert WaiterInv(s, m, i) && LinkInv(s, m, i);
    }
  }

  /** A step of a on lock l, which may also write to the qnode of b. */
  ghost predicate StepOn(s: State, s': State, a: Context, b: Context, l: LockId) {
    && Wf(s) && l in s.words && a in s.agents && b in s.agents
    && s'.words.Keys == s.words.Keys && s'.queues.Keys == s.words.Keys && s'.owners.Keys == s.words.Keys
    && s'.words == s.words[l := s'.words[l]] && s'.queues == s.queues[l := s'.queues[l]]
    && s'.owners == s.owners[l := s'.owners[l]]
    && s'.agents.Keys == s.agents.Keys
    && (forall c | c in s.agents && c != a && c != b :: s'.agents[c] == s.agents[c])
    && (InQueue(s.agents[a].pc) ==> s.agents[a].pc.lock == l)
    && (InQueue(s.agents[b].pc) ==> s.agents[b].pc.lock == l)
    && s'.agents[a].held - {l} == s.agents[a].held - {l}
    && (b != a ==> s'.agents[b].held == s.agents[b].held && s'.agents[b].pc == s.agents[b].pc)
    && PcWf(s, s'.agents[a].pc)
  }

  lemma StepWf(s: State, s': State, a: Context, b: Context, l: LockId)
    requires StepOn(s, s', a, b, l)
    ensures Wf(s')
  {
    forall c | c in s'.agents ensures PcWf(s', s'.agents[c].pc) {
      assert PcWf(s, s'.agents[c].pc) by { assert c != a ==> PcWf(s, s.agents[c].pc); }
    }
  }

  lemma HeldKept(x: set<LockId>, y: set<LockId>, l: LockId, m: LockId)
    requires x - {l} == y - {l} && m != l
    ensures m in x <==> m in y
  {
    assert m in x <==> m in x - {l};
    assert m in y <==> m in y - {l};
  }

  lemma OthersKept(s: State, s': State, a: Context, b: Context, l: LockId, m: LockId)
    requires Wf(s) && StepOn(s, s', a, b, l) && m in s.words && m != l && LockInv(s, m)
    ensures Wf(s') && LockInv(s', m)
  {
    StepWf(s, s', a, b, l);
    forall i | 0 <= i < |s.queues[m]|
      ensures s.queues[m][i] != a && s.queues[m][i] != b && s.queues[m][i] in s.agents
    {
      assert WaiterInv(s, m, i);
    }
    HeldKept(s'.agents[a].held, s.agents[a].held, l, m);
    OtherLockInv(s, s', l, m);
  }

  lemma AgentKept(s: State, s': State, a: Context, b: Context, l: LockId, c: Context)
    requires Wf(s) && StepOn(s, s', a, b, l) && Wf(s') && c in s.agents && c != a && AgentInv(s, c)
    requires forall d | d in s.queues[l] && d != a :: d in s'.queues[l]
    requires s'.owners[l] == s.owners[l] || s.owners[l] == None || s.owners[l] == Some(a)
    requires b != a ==> !s.agents[b].pc.Enqueue?
    ensures AgentInv(s', c)
  {}

  /** What remains to be shown of a step of a on l. */
  lemma StepKept(s: State, s': State, a: Context, b: Context, l: LockId)
    requires Inv(s) && StepOn(s, s', a, b, l) && Wf(s')
    requires AgentInv(s', a) && LockInv(s', l)
    requires forall c | c in s.queues[l] && c != a :: c in s'.queues[l]
    requires s'.owners[l] == s.owners[l] || s.owners[l] == None || s.owners[l] == Some(a)
    requires b != a ==> !s.agents[b].pc.Enqueue?
    ensures Inv(s')
  {
    forall m | m in s'.words ensures LockInv(s', m) {
      if m != l { OthersKept(s, s', a, b, l, m); }
    }
    forall c | c in s'.agents ensures AgentInv(s', c) {
      if c != a { AgentKept(s, s', a, b, l, c); }
    }
  }

  /** The queue of l, across a step that leaves its qnodes alone. */
  lemma QueueKept(s: State, s': State, l: LockId)
    requires Wf(s) && Wf(s') && l in s.words && LockInv(s, l) && l in s'.words
    requires s'.queues[l] == s.queues[l]
    requires forall c | c in s.queues[l] && c in s.agents ::
      c in s'.agents && s'.agents[c].pc == s.agents[c].pc && s'.agents[c].next == s.agents[c].next
      && s'.agents[c].locked == s.agents[c].locked
    ensures forall i | 0 <= i < |s'.queues[l]| :: WaiterInv(s', l, i) && LinkInv(s', l, i)
  {
    forall i | 0 <= i < |s.queues[l]| ensures WaiterInv(s', l, i) && LinkInv(s', l, i) {
      assert WaiterInv(s, l, i) && LinkInv(s, l, i);
    }
  }

  lemma TryFastInv(s: State, a: Context, l: LockId)
    requires Inv(s) && Enabled(s, TryFast(a, l))
    ensures Inv(DoTryFast(s, a, l))
  {
    var s' := DoTryFast(s, a, l);
    if s' != s {
      assert LockInv(s, l) && AgentInv(s, a);
      StepWf(s, s', a, a, l);
      hide WaiterInv, LinkInv, PcWf;
      StepKept(s, s', a, a, l);
    }
  }

  lemma UnlockLock(s: State, a: Context, l: LockId)
    requires Wf(s) && Enabled(s, Unlock(a, l)) && LockInv(s, l) && AgentInv(s, a)
    ensures var s' := DoUnlock(s, a, l); StepOn(s, s', a, a, l) && Wf(s') && LockInv(s', l) && AgentInv(s', a)
  {
    var s' := DoUnlock(s, a, l);
    StepWf(s, s', a, a, l);
    QueueKept(s, s', l);
  }

  lemma UnlockInv(s: State, a: Context, l: LockId)
    requires Inv(s) && Enabled(s, Unlock(a, l))
    ensures Inv(DoUnlock(s, a, l))
  {
    assert AgentInv(s, a);
    UnlockLock(s, a, l);
    StepKept(s, DoUnlock(s, a, l), a, a, l);
  }

  lemma NotQueued(s: State, a: Context, l: LockId)
    requires Wf(s) && l in s.words && LockInv(s, l) && a in s.queues[l]
    ensures a in s.agents && InQueue(s.agents[a].pc) && s.agents[a].pc.lock == l
  {
    var i :| 0 <= i < |s.queues[l]| && s.queues[l][i] == a;
    assert WaiterInv(s, l, i);
  }

  lemma SlowInv(s: State, a: Context, l: LockId)
    requires Inv(s) && Enabled(s, Slow(a, l))
    ensures Inv(DoSlow(s, a, l))
  {
    var s' := DoSlow(s, a, l);
    assert LockInv(s, l) && AgentInv(s, a);
    StepWf(s, s', a, a, l);
    assert a !in s.queues[l] by { if a in s.queues[l] { NotQueued(s, a, l); } }
    QueueKept(s, s', l);
    StepKept(s, s', a, a, l);
  }

  /** The owner of a lock, across a step of a that neither takes nor drops it. */
  lemma OwnerKept(s: State, s': State, a: Context, b: Context, l: LockId)
    requires StepOn(s, s', a, b, l) && Wf(s') && OwnerInv(s, l)
    requires s'.owners[l] == s.owners[l] && s'.words[l].locked == s.words[l].locked
    requires s'.agents[a].held == s.agents[a].held
    requires s.owners[l] == Some(a) && Claimed(s.agents[a].pc) && l !in s.agents[a].held ==>
               Claimed(s'.agents[a].pc) && s'.agents[a].pc.lock == l
               && (s'.agents[a].pc.WaitNext? || s'.agents[a].pc.ClearNext?)
                  == (s.agents[a].pc.WaitNext? || s.agents[a].pc.ClearNext?)
    ensures OwnerInv(s', l)
  {}

  /** A new last waiter. */
  lemma EnqueueWaiters(s: State, a: Context, i: nat)
    requires Wf(s) && a in s.agents && s.agents[a].pc.Enqueue? && AgentInv(s, a)
    requires LockInv(s, s.agents[a].pc.lock) && i <= |s.queues[s.agents[a].pc.lock]|
    requires Wf(DoEnqueue(s, a, s.agents[a].pc.lock))
    ensures var l := s.agents[a].pc.lock; var s' := DoEnqueue(s, a, l);
            WaiterInv(s', l, i) && LinkInv(s', l, i) && (i < |s.queues[l]| ==> s.queues[l][i] != a)
  {
    var l := s.agents[a].pc.lock;
    var q := s.queues[l];
    assert i < |q| ==> WaiterInv(s, l, i) && LinkInv(s, l, i);
    assert i + 1 < |q| ==> WaiterInv(s, l, i + 1);
    assert q != [] ==> WaiterInv(s, l, |q| - 1);
  }

  lemma EnqueueStep(s: State, a: Context)
    requires Wf(s) && a in s.agents && s.agents[a].pc.Enqueue? && AgentInv(s, a)
    requires LockInv(s, s.agents[a].pc.lock)
    ensures var l := s.agents[a].pc.lock; var s' := DoEnqueue(s, a, l);
            StepOn(s, s', a, a, l) && Wf(s') && OwnerInv(s', l) && AgentInv(s', a)
  {
    var l := s.agents[a].pc.lock;
    var s', q := DoEnqueue(s, a, l), s.queues[l];
    assert q != [] ==> WaiterInv(s, l, |q| - 1);
    StepWf(s, s', a, a, l);
    OwnerKept(s, s', a, a, l);
  }

  lemma EnqueueLock(s: State, a: Context)
    requires Wf(s) && a in s.agents && s.agents[a].pc.Enqueue? && AgentInv(s, a)
    requires LockInv(s, s.agents[a].pc.lock) && Wf(DoEnqueue(s, a, s.agents[a].pc.lock))
    requires OwnerInv(DoEnqueue(s, a, s.agents[a].pc.lock), s.agents[a].pc.lock)
    ensures LockInv(DoEnqueue(s, a, s.agents[a].pc.lock), s.agents[a].pc.lock)
  {
    var l := s.agents[a].pc.lock;
    var s', q := DoEnqueue(s, a, l), s.queues[l];
    assert s'.queues[l] == q + [a];
    forall i | 0 <= i < |s'.queues[l]| ensures WaiterInv(s', l, i) && LinkInv(s', l, i) && (i < |q| ==> q[i] != a) {
      EnqueueWaiters(s, a, i);
    }
  }

  lemma EnqueueInv(s: State, a: Context)
    requires Inv(s) && a in s.agents && s.agents[a].pc.Enqueue?
    ensures Inv(DoEnqueue(s, a, s.agents[a].pc.lock))
  {
    var l := s.agents[a].pc.lock;
    assert AgentInv(s, a) && LockInv(s, l);
    EnqueueStep(s, a);
    EnqueueLock(s, a);
    StepKept(s, DoEnqueue(s, a, l), a, a, l);
  }

  // ---------------------------------------------------------------- steps of queued contexts

  /** Where the context is in the queue: one that has yet to link itself or to be let in is behind another,
      any other one is first. */
  lemma Position(s: State, a: Context) returns (k: nat)
    requires Wf(s) && a in s.agents && InQueue(s.agents[a].pc) && AgentInv(s, a)
    requires LockInv(s, s.agents[a].pc.lock)
    ensures var l := s.agents[a].pc.lock;
            k < |s.queues[l]| && s.queues[l][k] == a && WaiterInv(s, l, k) && LinkInv(s, l, k)
    ensures k == 0 <==> !s.agents[a].pc.MarkLocked? && !s.agents[a].pc.LinkNext?
                        && (s.agents[a].pc.WaitTurn? ==> !s.agents[a].locked)
  {
    var l := s.agents[a].pc.lock;
    k :| 0 <= k < |s.queues[l]| && s.queues[l][k] == a;
    assert WaiterInv(s, l, k) && LinkInv(s, l, k);
  }

  /** A step of a that changes only its own pc and locked flag: the queue of l. */
  lemma OwnQnode(s: State, s': State, a: Context, l: LockId, k: nat)
    requires Wf(s) && Wf(s') && l in s.words && l in s'.words && LockInv(s, l) && a in s.agents
    requires k < |s.queues[l]| && s.queues[l][k] == a
    requires s'.queues[l] == s.queues[l] && s'.agents.Keys == s.agents.Keys
    requires forall c | c in s.agents && c != a :: s'.agents[c] == s.agents[c]
    requires s'.agents[a].next == s.agents[a].next && s'.agents[a].pc != WaitTurn(l)
    requires s.agents[a].pc == WaitTurn(l) ==> k == 0
    requires WaiterInv(s', l, k)
    ensures forall i | 0 <= i < |s'.queues[l]| :: WaiterInv(s', l, i) && LinkInv(s', l, i)
  {
    forall i | 0 <= i < |s.queues[l]| ensures WaiterInv(s', l, i) && LinkInv(s', l, i) {
      assert WaiterInv(s, l, i) && LinkInv(s, l, i);
      assert i + 1 < |s.queues[l]| ==> WaiterInv(s, l, i + 1);
    }
  }

  /** What a step of a on l does to the rest of the state, in one place. */
  ghost predicate LocalStep(s: State, s': State, a: Context, b: Context, l: LockId) {
    StepOn(s, s', a, b, l) && Wf(s') && LockInv(s', l) && AgentInv(s', a)
  }

  lemma MarkLockedStep(s: State, a: Context)
    requires Wf(s) && Enabled(s, Go(a)) && s.agents[a].pc.MarkLocked?
    requires AgentInv(s, a) && LockInv(s, s.agents[a].pc.lock)
    ensures LocalStep(s, DoGo(s, a), a, a, s.agents[a].pc.lock)
  {
    var l, s' := s.agents[a].pc.lock, DoGo(s, a);
    var k := Position(s, a);
    assert WaiterInv(s, l, k - 1);
    StepWf(s, s', a, a, l);
    OwnQnode(s, s', a, l, k);
    OwnerKept(s, s', a, a, l);
  }

  lemma MarkLockedInv(s: State, a: Context)
    requires Inv(s) && Enabled(s, Go(a)) && s.agents[a].pc.MarkLocked?
    ensures Inv(DoGo(s, a))
  {
    assert AgentInv(s, a) && LockInv(s, s.agents[a].pc.lock);
    MarkLockedStep(s, a);
    StepKept(s, DoGo(s, a), a, a, s.agents[a].pc.lock);
  }

  lemma WaitTurnStep(s: State, a: Context)
    requires Wf(s) && Enabled(s, Go(a)) && s.agents[a].pc.WaitTurn?
    requires AgentInv(s, a) && LockInv(s, s.agents[a].pc.lock)
    ensures LocalStep(s, DoGo(s, a), a, a, s.agents[a].pc.lock)
  {
    var l, s' := s.agents[a].pc.lock, DoGo(s, a);
    var k := Position(s, a);
    StepWf(s, s', a, a, l);
    OwnQnode(s, s', a, l, k);
    OwnerKept(s, s', a, a, l);
  }

  lemma WaitTurnInv(s: State, a: Context)
    requires Inv(s) && Enabled(s, Go(a)) && s.agents[a].pc.WaitTurn?
    ensures Inv(DoGo(s, a))
  {
    assert AgentInv(s, a) && LockInv(s, s.agents[a].pc.lock);
    WaitTurnStep(s, a);
    StepKept(s, DoGo(s, a), a, a, s.agents[a].pc.lock);
  }

  /** While a waits for the lock bit, the owner is one that holds the lock. */
  lemma Unowned(s: State, a: Context)
    requires Inv(s) && Enabled(s, Go(a)) && s.agents[a].pc.WaitWord?
    ensures s.owners[s.agents[a].pc.lock] == None
  {
    var l := s.agents[a].pc.lock;
    assert AgentInv(s, a) && LockInv(s, l);
    var k := Position(s, a);
    if s.owners[l].Some? {
      var o := s.owners[l].value;
      assert OwnerInv(s, l) && AgentInv(s, o);
      var j := Position(s, o);
    }
  }

  lemma WaitWordStep(s: State, a: Context)
    requires Wf(s) && Enabled(s, Go(a)) && s.agents[a].pc.WaitWord?
    requires AgentInv(s, a) && LockInv(s, s.agents[a].pc.lock) && s.owners[s.agents[a].pc.lock] == None
    ensures LocalStep(s, DoGo(s, a), a, a, s.agents[a].pc.lock)
  {
    var l, s' := s.agents[a].pc.lock, DoGo(s, a);
    var k := Position(s, a);
    StepWf(s, s', a, a, l);
    OwnQnode(s, s', a, l, k);
  }

  /** The first waiter sees the lock bit clear: from here on the lock is its own. */
  lemma WaitWordInv(s: State, a: Context)
    requires Inv(s) && Enabled(s, Go(a)) && s.agents[a].pc.WaitWord?
    ensures Inv(DoGo(s, a))
  {
    assert AgentInv(s, a) && LockInv(s, s.agents[a].pc.lock);
    Unowned(s, a);
    WaitWordStep(s, a);
    StepKept(s, DoGo(s, a), a, a, s.agents[a].pc.lock);
  }

  lemma SetLockedStep(s: State, a: Context)
    requires Wf(s) && Enabled(s, Go(a)) && s.agents[a].pc.SetLocked?
    requires AgentInv(s, a) && LockInv(s, s.agents[a].pc.lock)
    ensures LocalStep(s, DoGo(s, a), a, a, s.agents[a].pc.lock)
  {
    var l, s' := s.agents[a].pc.lock, DoGo(s, a);
    var k := Position(s, a);
    StepWf(s, s', a, a, l);
    OwnQnode(s, s', a, l, k);
  }

  lemma SetLockedInv(s: State, a: Context)
    requires Inv(s) && Enabled(s, Go(a)) && s.agents[a].pc.SetLocked?
    ensures Inv(DoGo(s, a))
  {
    assert AgentInv(s, a) && LockInv(s, s.agents[a].pc.lock);
    SetLockedStep(s, a);
    StepKept(s, DoGo(s, a), a, a, s.agents[a].pc.lock);
  }

  lemma WaitNextInv(s: State, a: Context)
    requires Inv(s) && Enabled(s, Go(a)) && s.agents[a].pc.WaitNext?
    ensures Inv(DoGo(s, a))
  {
    var l, s' := s.agents[a].pc.lock, DoGo(s, a);
    assert AgentInv(s, a) && LockInv(s, l);
    var k := Position(s, a);
    StepWf(s, s', a, a, l);
    OwnQnode(s, s', a, l, k);
    OwnerKept(s, s', a, a, l);
    StepKept(s, s', a, a, l);
  }

  lemma LinkNextWaiters(s: State, a: Context, k: nat, i: nat)
    requires Wf(s) && Enabled(s, Go(a)) && s.agents[a].pc.LinkNext? && Wf(DoGo(s, a))
    requires var l := s.agents[a].pc.lock;
             LockInv(s, l) && 0 < k < |s.queues[l]| && s.queues[l][k] == a && WaiterInv(s, l, k) && i < |s.queues[l]|
    ensures WaiterInv(DoGo(s, a), s.agents[a].pc.lock, i) && LinkInv(DoGo(s, a), s.agents[a].pc.lock, i)
  {
    var l := s.agents[a].pc.lock;
    assert WaiterInv(s, l, i) && LinkInv(s, l, i);
    assert i + 1 < |s.queues[l]| ==> WaiterInv(s, l, i + 1);
  }

  lemma LinkNextStep(s: State, a: Context)
    requires Wf(s) && Enabled(s, Go(a)) && s.agents[a].pc.LinkNext?
    requires AgentInv(s, a) && LockInv(s, s.agents[a].pc.lock)
    ensures LocalStep(s, DoGo(s, a), a, s.agents[a].pc.prev, s.agents[a].pc.lock)
    ensures s.agents[a].pc.prev != a && InQueue(s.agents[s.agents[a].pc.prev].pc)
  {
    var l, s', b := s.agents[a].pc.lock, DoGo(s, a), s.agents[a].pc.prev;
    var k := Position(s, a);
    assert WaiterInv(s, l, k - 1);
    StepWf(s, s', a, b, l);
    forall i | 0 <= i < |s.queues[l]| ensures WaiterInv(s', l, i) && LinkInv(s', l, i) { LinkNextWaiters(s, a, k, i); }
    OwnerKept(s, s', a, b, l);
  }

  lemma LinkNextInv(s: State, a: Context)
    requires Inv(s) && Enabled(s, Go(a)) && s.agents[a].pc.LinkNext?
    ensures Inv(DoGo(s, a))
  {
    assert AgentInv(s, a) && LockInv(s, s.agents[a].pc.lock);
    LinkNextStep(s, a);
    StepKept(s, DoGo(s, a), a, s.agents[a].pc.prev, s.agents[a].pc.lock);
  }

  /** A downgrade fails exactly when another context waits behind. */
  lemma DowngradeFails(s: State, a: Context)
    requires Wf(s) && Enabled(s, Go(a)) && s.agents[a].pc.Downgrade?
    requires AgentInv(s, a) && LockInv(s, s.agents[a].pc.lock)
    ensures var l := s.agents[a].pc.lock;
            && s.words[l].tail.Some? && s.queues[l] != [] && s.queues[l][0] == a
            && (s.words[l] != Word(false, Some(a)) <==> |s.queues[l]| > 1)
  {
    var k := Position(s, a);
    assert OwnerInv(s, s.agents[a].pc.lock);
  }

  lemma DowngradeStep(s: State, a: Context)
    requires Wf(s) && Enabled(s, Go(a)) && s.agents[a].pc.Downgrade?
    requires AgentInv(s, a) && LockInv(s, s.agents[a].pc.lock)
    ensures LocalStep(s, DoGo(s, a), a, a, s.agents[a].pc.lock)
    ensures forall c | c in s.queues[s.agents[a].pc.lock] && c != a :: c in DoGo(s, a).queues[s.agents[a].pc.lock]
  {
    var l, s' := s.agents[a].pc.lock, DoGo(s, a);
    DowngradeFails(s, a);
    StepWf(s, s', a, a, l);
    if s.words[l] == Word(false, Some(a)) {
      assert s.queues[l] == [a];
    } else {
      assert WaiterInv(s, l, 0);
      OwnQnode(s, s', a, l, 0);
      OwnerKept(s, s', a, a, l);
    }
  }

  lemma DowngradeInv(s: State, a: Context)
    requires Inv(s) && Enabled(s, Go(a)) && s.agents[a].pc.Downgrade?
    ensures Inv(DoGo(s, a))
  {
    assert AgentInv(s, a) && LockInv(s, s.agents[a].pc.lock);
    DowngradeStep(s, a);
    StepKept(s, DoGo(s, a), a, a, s.agents[a].pc.lock);
  }

  lemma ClearNextWaiters(s: State, a: Context, i: nat)
    requires Wf(s) && Enabled(s, Go(a)) && s.agents[a].pc.ClearNext? && Wf(DoGo(s, a))
    requires var l := s.agents[a].pc.lock;
             LockInv(s, l) && 0 < i < |s.queues[l]| && s.queues[l][0] == a && s.agents[a].pc.next == s.queues[l][1]
    requires s.agents[s.agents[a].pc.next].pc == WaitTurn(s.agents[a].pc.lock)
    ensures var l, s' := s.agents[a].pc.lock, DoGo(s, a);
            |s'.queues[l]| == |s.queues[l]| - 1 && WaiterInv(s', l, i - 1) && LinkInv(s', l, i - 1)
  {
    var l := s.agents[a].pc.lock;
    assert WaiterInv(s, l, i) && LinkInv(s, l, i);
    assert i + 1 < |s.queues[l]| ==> WaiterInv(s, l, i + 1);
    assert DoGo(s, a).queues[l] == s.queues[l][1..];
  }

  lemma ClearNextFirst(s: State, a: Context)
    requires Wf(s) && Enabled(s, Go(a)) && s.agents[a].pc.ClearNext?
    requires AgentInv(s, a) && LockInv(s, s.agents[a].pc.lock)
    ensures var l, n := s.agents[a].pc.lock, s.agents[a].pc.next;
            var q := s.queues[l];
            && StepOn(s, DoGo(s, a), a, n, l) && Wf(DoGo(s, a))
            && |q| > 1 && q[0] == a && DoGo(s, a).queues[l] == q[1..] && q[1] == n
            && n != a && s.agents[n].pc == WaitTurn(l)
  {
    var l, s', n := s.agents[a].pc.lock, DoGo(s, a), s.agents[a].pc.next;
    var k := Position(s, a);
    assert WaiterInv(s, l, 1);
    StepWf(s, s', a, n, l);
  }

  lemma ClearNextLock(s: State, a: Context)
    requires Wf(s) && Enabled(s, Go(a)) && s.agents[a].pc.ClearNext?
    requires AgentInv(s, a) && LockInv(s, s.agents[a].pc.lock)
    ensures Wf(DoGo(s, a)) && LockInv(DoGo(s, a), s.agents[a].pc.lock)
  {
    var l, s' := s.agents[a].pc.lock, DoGo(s, a);
    ClearNextFirst(s, a);
    forall i | 0 <= i < |s'.queues[l]| ensures WaiterInv(s', l, i) && LinkInv(s', l, i) {
      ClearNextWaiters(s, a, i + 1);
    }
    hide WaiterInv, LinkInv, PcWf, AgentInv;
  }

  lemma ClearNextStep(s: State, a: Context)
    requires Wf(s) && Enabled(s, Go(a)) && s.agents[a].pc.ClearNext?
    requires AgentInv(s, a) && LockInv(s, s.agents[a].pc.lock)
    ensures LocalStep(s, DoGo(s, a), a, s.agents[a].pc.next, s.agents[a].pc.lock)
    ensures var q := s.queues[s.agents[a].pc.lock];
            && q != [] && q[0] == a && DoGo(s, a).queues[s.agents[a].pc.lock] == q[1..]
            && s.agents[a].pc.next != a && !s.agents[s.agents[a].pc.next].pc.Enqueue?
  {
    hide LockInv;
    ClearNextFirst(s, a);
    ClearNextLock(s, a);
  }

  lemma ClearNextInv(s: State, a: Context)
    requires Inv(s) && Enabled(s, Go(a)) && s.agents[a].pc.ClearNext?
    ensures Inv(DoGo(s, a))
  {
    assert AgentInv(s, a) && LockInv(s, s.agents[a].pc.lock);
    ClearNextStep(s, a);
    StepKept(s, DoGo(s, a), a, s.agents[a].pc.next, s.agents[a].pc.lock);
  }

  // ---------------------------------------------------------------- runs

  lemma GoInv(s: State, a: Context)
    requires Inv(s) && Enabled(s, Go(a))
    ensures Inv(DoGo(s, a))
  {
    match s.agents[a].pc
    case Enqueue(l) => EnqueueInv(s, a);
    case MarkLocked(l, p) => MarkLockedInv(s, a);
    case LinkNext(l, p) => LinkNextInv(s, a);
    case WaitTurn(l) => WaitTurnInv(s, a);
    case WaitWord(l) => WaitWordInv(s, a);
    case Downgrade(l) => DowngradeInv(s, a);
    case SetLocked(l) => SetLockedInv(s, a);
    case WaitNext(l) => WaitNextInv(s, a);
    case ClearNext(l, n) => ClearNextInv(s, a);
  }

  lemma StepInv(s: State, step: Step)
    requires Inv(s) && Enabled(s, step)
    ensures Inv(Apply(s, step))
  {
    match step
    case TryFast(a, l) => TryFastInv(s, a, l);
    case Slow(a, l) => SlowInv(s, a, l);
    case Unlock(a, l) => UnlockInv(s, a, l);
    case Go(a) => GoInv(s, a);
  }

  ghost predicate Run(s: State, steps: seq<Step>, to: State)
    decreases |steps|
  {
    if steps == [] then s == to
    else Wf(s) && Enabled(s, steps[0]) && Run(Apply(s, steps[0]), steps[1..], to)
  }

  lemma {:induction false} RunInv(s: State, steps: seq<Step>, to: State)
    requires Inv(s) && Run(s, steps, to)
    ensures Inv(to)
    decreases |steps|
  {
    if steps != [] {
      StepInv(s, steps[0]);
      RunInv(Apply(s, steps[0]), steps[1..], to);
    }
  }

  ghost predicate Holds(s: State, a: Context, l: LockId) { a in s.agents && l in s.agents[a].held }

  /** In every interleaving at most one context holds a lock, and the lock bit is set while it does. */
  lemma MutualExclusion(s: State, steps: seq<Step>, to: State, a: Context, b: Context, l: LockId)
    requires Initial(s) && Run(s, steps, to) && Holds(to, a, l) && Holds(to, b, l)
    ensures a == b && l in to.words && to.words[l].locked
  {
    InitialInv(s);
    RunInv(s, steps, to);
    assert AgentInv(to, a) && AgentInv(to, b);
    assert OwnerInv(to, l);
  }

  /** The ways a step of a can move the queue of l: not at all, a new last waiter, the first waiter taking
      the lock, or the fast path with nobody waiting. */
  ghost predicate InOrder(s: State, s': State, a: Context, l: LockId) {
    l in s.queues && l in s'.queues && var q, q' := s.queues[l], s'.queues[l];
    var taken := !Holds(s, a, l) && Holds(s', a, l);
    && (forall b | b != a :: Holds(s', b, l) == Holds(s, b, l))
    && (|| (!taken && q' == q)
        || (!taken && a !in q && q' == q + [a])
        || (taken && q != [] && a == q[0] && q' == q[1..])
        || (taken && q == [] && q' == []))
  }

  lemma FastInOrder(s: State, step: Step, l: LockId)
    requires Wf(s) && Enabled(s, step) && !step.Go? && l in s.words
    requires LockInv(s, step.l) && AgentInv(s, step.a)
    ensures InOrder(s, Apply(s, step), step.a, l)
  {}

  lemma EnqueueInOrder(s: State, a: Context, l: LockId)
    requires Wf(s) && Enabled(s, Go(a)) && s.agents[a].pc.Enqueue? && l in s.words && LockInv(s, l)
    ensures InOrder(s, DoGo(s, a), a, l)
  {
    if a in s.queues[l] { NotQueued(s, a, l); }
  }

  lemma QueuedInOrder(s: State, a: Context, l: LockId)
    requires Wf(s) && Enabled(s, Go(a)) && InQueue(s.agents[a].pc) && l in s.words
    requires AgentInv(s, a) && LockInv(s, s.agents[a].pc.lock)
    ensures InOrder(s, DoGo(s, a), a, l)
  {
    if s.agents[a].pc.Downgrade? {
      DowngradeFails(s, a);
    } else if s.agents[a].pc.ClearNext? {
      ClearNextStep(s, a);
    }
  }

  /** Contexts get a lock in the order in which they queued for it. */
  lemma FirstComeFirstServed(s: State, steps: seq<Step>, to: State, step: Step, l: LockId)
    requires Initial(s) && Run(s, steps, to) && Wf(to) && Enabled(to, step) && l in to.words
    ensures InOrder(to, Apply(to, step), step.a, l)
  {
    InitialInv(s);
    RunInv(s, steps, to);
    if !step.Go? {
      FastInOrder(to, step, l);
    } else if InQueue(to.agents[step.a].pc) {
      assert AgentInv(to, step.a);
      QueuedInOrder(to, step.a, l);
    } else {
      EnqueueInOrder(to, step.a, l);
    }
  }

  /** Does the lock operation b is in need the qnode of a? */
  ghost predicate Needs(s: State, b: Context, a: Context)
    requires b in s.agents
  {
    var g := s.agents[b];
    (g.pc.MarkLocked? && g.pc.prev == a) || (g.pc.LinkNext? && g.pc.prev == a)
    || (g.pc.ClearNext? && g.pc.next == a) || (InQueue(g.pc) && g.next == Some(a))
  }

  /** When a context is in no queue, no lock word and no operation refers to its qnode: one qnode per
      context is enough, however many locks it holds. */
  lemma QnodeFree(s: State, steps: seq<Step>, to: State, a: Context)
    requires Initial(s) && Run(s, steps, to) && a in to.agents && !InQueue(to.agents[a].pc)
    ensures forall l | l in to.words :: to.words[l].tail != Some(a)
    ensures forall b | b in to.agents :: !Needs(to, b, a)
  {
    RunInv(s, steps, to);
    forall l | l in to.words ensures to.words[l].tail != Some(a) && a !in to.queues[l] {
      assert LockInv(to, l);
      if a in to.queues[l] { NotQueued(to, a, l); }
    }
    forall b | b in to.agents ensures !Needs(to, b, a) { NeedsQueued(to, b, a); }
  }

  lemma NeedsQueued(s: State, b: Context, a: Context)
    requires Inv(s) && b in s.agents
    ensures Needs(s, b, a) ==> InQueue(s.agents[b].pc) && a in s.queues[s.agents[b].pc.lock]
  {
    if Needs(s, b, a) {
      assert AgentInv(s, b) && LockInv(s, s.agents[b].pc.lock);
      var k := Position(s, b);
      if k > 0 { assert WaiterInv(s, s.agents[b].pc.lock, k - 1); }
    }
  }

  lemma FirstCanGo(s: State, l: LockId)
    requires Inv(s) && l in s.words && s.queues[l] != []
    requires forall a | a in s.agents :: !Holds(s, a, l)
    ensures Enabled(s, Go(s.queues[l][0])) || (|s.queues[l]| > 1 && Enabled(s, Go(s.queues[l][1])))
  {
    assert LockInv(s, l);
    var a := s.queues[l][0];
    assert WaiterInv(s, l, 0) && LinkInv(s, l, 0) && OwnerInv(s, l);
    if s.agents[a].pc == WaitWord(l) {
      if s.owners[l].Some? {
        var o := s.owners[l].value;
        assert AgentInv(s, o);
        var j := Position(s, o);
      }
    } else if s.agents[a].pc == WaitNext(l) {
      assert WaiterInv(s, l, 1);
    }
  }

  /** A lock with waiters and no holder is not stuck: a waiter can take a step. */
  lemma NotStuck(s: State, steps: seq<Step>, to: State, l: LockId)
    requires Initial(s) && Run(s, steps, to) && Wf(to) && l in to.words && to.queues[l] != []
    requires forall a | a in to.agents :: !Holds(to, a, l)
    ensures exists a | a in to.queues[l] :: Enabled(to, Go(a))
  {
    InitialInv(s);
    RunInv(s, steps, to);
    FirstCanGo(to, l);
    assert to.queues[l][0] in to.queues[l];
  }
}
