// The plain mutexes of kern/mutex/mutex_plain.c over the sleep queues of kern/sleepq.c: one mutex, its sleep
// queue, and any number of threads. A step is one atomic access to the mutex word, or one stretch of code run
// with the lock of the sleep queue bucket.

module Mutex {
  import opened Common

  type ThreadId = nat
  type QueueId = nat

  /** MUTEX_UNLOCKED, MUTEX_LOCKED and MUTEX_CONTENDED. */
  datatype Word = Unlocked | Locked | Contended

  /** Where a thread is: in the slow path it is about to lend its sleep queue (Slow), about to swap the word
      (Swapping), about to wait (Failed), waiting (Asleep), about to return with the mutex (Got) or without it (Late).
      An unlocker that has seen a contended word is Signalling. */
  datatype Pc = Idle | Slow | Swapping | Failed | Asleep | Got | Late | Holding | Signalling

  /** queue is the sleep queue of the thread while it is not lent. stamp and awoken are history: when the thread last
      started waiting, and whether a signal made it come back from there. */
  datatype Thread = Thread(pc: Pc, timed: bool, queue: Option<QueueId>, pending: bool, stamp: nat, awoken: bool)

  /** waiters is the list of waiters, the newest first, and marker the oldest one that is not signalled. queues is the
      sleep queue in use, if any, followed by its free ones. lock is the holder of the bucket lock. unsignalled is history:
      the number of waiters that are not signalled. */
  datatype State = State(word: Word, lock: Option<ThreadId>, threads: map<ThreadId, Thread>, waiters: seq<ThreadId>,
                         marker: Option<ThreadId>, queues: seq<QueueId>, clock: nat, unsignalled: int)

  datatype Step =
    | TryLock(t: ThreadId)
    | Lock(t: ThreadId, timed: bool)
    | Lend(t: ThreadId)
    | Swap(t: ThreadId)
    | Wait(t: ThreadId)
    | Resume(t: ThreadId)
    | TimeOut(t: ThreadId)
    | Take(t: ThreadId)
    | Leave(t: ThreadId)
    | Unlock(t: ThreadId)
    | Signal(t: ThreadId)

  predicate WithLock(pc: Pc) { pc in {Swapping, Failed, Got, Late} }

  /** The sleep queue of the thread is lent. */
  predicate Inside(pc: Pc) { WithLock(pc) || pc == Asleep }

  predicate Owner(pc: Pc) { pc == Holding || pc == Got }

  predicate Enabled(s: State, step: Step) {
    step.t in s.threads && var me := s.threads[step.t];
    match step
    case TryLock(_) => me.pc == Idle
    case Lock(_, _) => me.pc == Idle
    case Lend(_) => me.pc == Slow && s.lock == None && me.queue.Some?
    case Swap(_) => me.pc == Swapping
    case Wait(_) => me.pc == Failed
    case Resume(_) => me.pc == Asleep && me.pending && s.lock == None
    case TimeOut(_) => me.pc == Asleep && me.timed && !me.pending && s.lock == None
    case Take(_) => me.pc == Got && s.queues != []
    case Leave(_) => me.pc == Late && s.queues != []
    case Unlock(_) => me.pc == Holding
    case Signal(_) => me.pc == Signalling && s.lock == None
  }

  function SetThread(s: State, t: ThreadId, x: Thread): State { s.(threads := s.threads[t := x]) }

  function SetPc(s: State, t: ThreadId, pc: Pc): State
    requires t in s.threads
  {
    SetThread(s, t, s.threads[t].(pc := pc))
  }

  function Remove(w: seq<ThreadId>, t: ThreadId): seq<ThreadId> {
    if w == [] then [] else if w[0] == t then w[1..] else [w[0]] + Remove(w[1..], t)
  }

  /** sleepq_shift_oldest_waiter: the waiter that came just after t. */
  function Newer(w: seq<ThreadId>, t: ThreadId): Option<ThreadId> {
    if |w| < 2 then None else if w[1] == t then Some(w[0]) else if w[0] == t then None else Newer(w[1..], t)
  }

  /** mutex_plain_lock_fast. */
  function DoLock(s: State, t: ThreadId, otherwise: Thread): State
    requires t in s.threads
  {
    if s.word == Unlocked then SetPc(s, t, Holding).(word := Locked) else SetThread(s, t, otherwise)
  }

  /** sleepq_lend. */
  function DoLend(s: State, t: ThreadId): State
    requires t in s.threads && s.threads[t].queue.Some?
  {
    var q := s.threads[t].queue.value;
    SetThread(s, t, s.threads[t].(pc := Swapping, queue := None, awoken := false))
      .(lock := Some(t), queues := if s.queues == [] then [q] else [s.queues[0], q] + s.queues[1..])
  }

  /** sleepq_return. */
  function DoReturn(s: State, t: ThreadId, pc: Pc): State
    requires t in s.threads && s.queues != []
  {
    var q := if |s.queues| > 1 then s.queues[1] else s.queues[0];
    SetThread(s, t, s.threads[t].(pc := pc, queue := Some(q)))
      .(lock := None, queues := if |s.queues| > 1 then [s.queues[0]] + s.queues[2..] else [])
  }

  /** sleepq_wait_common up to the sleep. */
  function DoWait(s: State, t: ThreadId): State
    requires t in s.threads
  {
    SetThread(s, t, s.threads[t].(pc := Asleep, pending := false, stamp := s.clock))
      .(lock := None, waiters := [t] + s.waiters, marker := if s.marker == None then Some(t) else s.marker,
        clock := s.clock + 1, unsignalled := s.unsignalled + 1)
  }

  /** sleepq_wait_common after the sleep. */
  function DoAwake(s: State, t: ThreadId, pc: Pc): State
    requires t in s.threads
  {
    SetThread(s, t, s.threads[t].(pc := pc, pending := false, awoken := s.threads[t].pending))
      .(lock := Some(t), waiters := Remove(s.waiters, t),
        marker := if s.marker == Some(t) then Newer(s.waiters, t) else s.marker,
        unsignalled := if s.threads[t].pending then s.unsignalled else s.unsignalled - 1)
  }

  /** mutex_plain_unlock_slow. */
  function DoSignal(s: State, t: ThreadId): State
    requires t in s.threads
  {
    if s.queues == [] || s.marker == None || s.marker.value !in s.threads then SetPc(s, t, Idle)
    else
      var w := s.marker.value;
      SetPc(SetThread(s, w, s.threads[w].(pending := true)).(marker := Newer(s.waiters, w), unsignalled := s.unsignalled - 1), t, Idle)
  }

  function Apply(s: State, step: Step): State
    requires Enabled(s, step)
  {
    match step
    case TryLock(t) => DoLock(s, t, s.threads[t])
    case Lock(t, timed) => DoLock(s, t, s.threads[t].(pc := Slow, timed := timed))
    case Lend(t) => DoLend(s, t)
    case Swap(t) => SetPc(s, t, if s.word == Unlocked then Got else Failed).(word := Contended)
    case Wait(t) => DoWait(s, t)
    case Resume(t) => DoAwake(s, t, Swapping)
    case TimeOut(t) => DoAwake(s, t, Late)
    case Take(t) => DoReturn(if s.waiters == [] then s.(word := Locked) else s, t, Holding)
    case Leave(t) => DoReturn(if s.waiters == [] && s.word == Contended then s.(word := Locked) else s, t, Idle)
    case Unlock(t) => SetPc(s, t, if s.word == Contended then Signalling else Idle).(word := Unlocked)
    case Signal(t) => DoSignal(s, t)
  }

  // ---------------------------------------------------------------- invariants

  ghost predicate SomeAt(s: State, pc: Pc) { exists t | t in s.threads :: s.threads[t].pc == pc }

  ghost predicate SomePending(s: State) { exists t | t in s.waiters && t in s.threads :: s.threads[t].pending }

  ghost predicate LockInv(s: State) {
    && (s.lock.Some? ==> s.lock.value in s.threads)
    && forall t | t in s.threads :: WithLock(s.threads[t].pc) <==> s.lock == Some(t)
  }

  /** The word is set exactly while there is an owner, and there is at most one. */
  ghost predicate OwnerInv(s: State) {
    && (s.word != Unlocked <==> exists t | t in s.threads :: Owner(s.threads[t].pc))
    && (forall t, u | t in s.threads && u in s.threads && Owner(s.threads[t].pc) && Owner(s.threads[u].pc) :: t == u)
    && (forall t | t in s.threads && s.threads[t].pc == Got :: s.word == Contended)
  }

  /** Somebody will wake a waiter up. */
  ghost predicate Promise(s: State) { s.word == Contended || SomeAt(s, Signalling) }

  /** A signalled waiter is about to swap the word. */
  ghost predicate Retrying(s: State) { exists t | t in s.threads :: s.threads[t].pc == Swapping && s.threads[t].awoken }

  ghost predicate WakeInv(s: State) {
    && (s.marker.Some? ==> Promise(s) || SomePending(s) || Retrying(s))
    && (SomeAt(s, Failed) ==> Promise(s))
  }

  /** The waiters are the sleeping threads. */
  ghost predicate ListInv(s: State) {
    && NoDup(s.waiters)
    && (forall t | t in s.waiters :: t in s.threads && s.threads[t].pc == Asleep)
    && (forall t | t in s.threads && s.threads[t].pc == Asleep :: t in s.waiters)
    && (forall t | t in s.threads && s.threads[t].pending :: s.threads[t].pc == Asleep)
  }

  /** The newest waiters come first. */
  ghost predicate StampInv(s: State) {
    && (forall t | t in s.waiters :: t in s.threads && s.threads[t].stamp < s.clock)
    && (forall i, j | 0 <= i < j < |s.waiters| :: s.threads[s.waiters[i]].stamp > s.threads[s.waiters[j]].stamp)
  }

  /** The waiters up to the marker are not signalled, and the ones after it are. */
  ghost predicate MarkerInv(s: State) {
    && 0 <= s.unsignalled <= |s.waiters|
    && s.marker == (if s.unsignalled == 0 then None else Some(s.waiters[s.unsignalled - 1]))
    && forall i | 0 <= i < |s.waiters| :: s.waiters[i] in s.threads && (s.threads[s.waiters[i]].pending <==> i >= s.unsignalled)
  }

  ghost function Insiders(s: State): set<ThreadId> { set t | t in s.threads && Inside(s.threads[t].pc) }

  ghost predicate QueuesInv(s: State) {
    && |s.queues| == |Insiders(s)|
    && (forall t | t in s.threads :: s.threads[t].queue.Some? <==> !Inside(s.threads[t].pc))
    && QueuesApart(s)
  }

  /** No two threads have the same sleep queue, and none has one that is lent. */
  ghost predicate QueuesApart(s: State) {
    && NoDup(s.queues)
    && (forall t | t in s.threads && s.threads[t].queue.Some? :: s.threads[t].queue.value !in s.queues)
    && (forall t, u | t in s.threads && u in s.threads && t != u && s.threads[t].queue.Some? ::
          s.threads[u].queue != s.threads[t].queue)
  }

  ghost predicate Inv(s: State) {
    LockInv(s) && OwnerInv(s) && WakeInv(s) && ListInv(s) && StampInv(s) && MarkerInv(s) && QueuesInv(s)
  }

  ghost predicate Initial(s: State) {
    && s.word == Unlocked && s.lock == None && s.waiters == [] && s.marker == None && s.queues == [] && s.unsignalled == 0
    && (forall t | t in s.threads :: s.threads[t].pc == Idle && s.threads[t].queue.Some? && !s.threads[t].pending)
    && (forall t, u | t in s.threads && u in s.threads && t != u :: s.threads[u].queue != s.threads[t].queue)
  }

  lemma InitialInv(s: State)
    requires Initial(s)
    ensures Inv(s)
  {
    assert Insiders(s) == {};
  }

  lemma LockStep(s: State, step: Step)
    requires LockInv(s) && Enabled(s, step)
    ensures LockInv(Apply(s, step))
  {
    hide Remove, Newer;
    var t, s' := step.t, Apply(s, step);
    if step.Signal? {
      SignalLock(s, t);
    } else {
      assert WithLock(s.threads[t].pc) <==> s.lock == Some(t);
      assert s'.threads == s.threads[t := s'.threads[t]];
      assert WithLock(s'.threads[t].pc) <==> s'.lock == Some(t);
    }
  }

  lemma SignalLock(s: State, t: ThreadId)
    requires LockInv(s) && t in s.threads && s.threads[t].pc == Signalling
    ensures LockInv(DoSignal(s, t))
  {}

  /** A step of a thread that was not an owner, and is not one, and leaves the word set or not. */
  lemma OwnerSame(s: State, s': State, t: ThreadId)
    requires OwnerInv(s) && t in s.threads && s'.threads.Keys == s.threads.Keys
    requires forall u | u in s.threads && u != t :: s'.threads[u].pc == s.threads[u].pc
    requires Owner(s'.threads[t].pc) == Owner(s.threads[t].pc) && (s'.word == Unlocked <==> s.word == Unlocked)
    requires s'.threads[t].pc == Got ==> s.threads[t].pc == Got
    requires (s'.word == s.word || s'.word == Contended || forall u | u in s.threads && u != t :: s.threads[u].pc != Got)
    requires s'.threads[t].pc != Got || s'.word == Contended
    ensures OwnerInv(s')
  {
    if s.word != Unlocked {
      var u :| u in s.threads && Owner(s.threads[u].pc);
      assert Owner(s'.threads[u].pc);
    }
  }

  /** A thread becomes the owner. */
  lemma OwnerGained(s: State, s': State, t: ThreadId)
    requires OwnerInv(s) && t in s.threads && s.word == Unlocked && s'.word != Unlocked && s'.threads.Keys == s.threads.Keys
    requires forall u | u in s.threads && u != t :: s'.threads[u].pc == s.threads[u].pc
    requires Owner(s'.threads[t].pc) && (s'.threads[t].pc == Got ==> s'.word == Contended)
    ensures OwnerInv(s')
  {
    assert Owner(s'.threads[t].pc);
  }

  /** The owner leaves. */
  lemma OwnerLost(s: State, s': State, t: ThreadId)
    requires OwnerInv(s) && t in s.threads && Owner(s.threads[t].pc) && s'.word == Unlocked && s'.threads.Keys == s.threads.Keys
    requires forall u | u in s.threads && u != t :: s'.threads[u].pc == s.threads[u].pc
    requires !Owner(s'.threads[t].pc)
    ensures OwnerInv(s')
  {}

  lemma SignalPcs(s: State, t: ThreadId)
    requires ListInv(s) && t in s.threads && s.threads[t].pc == Signalling
    ensures forall u | u in s.threads && u != t :: DoSignal(s, t).threads[u].pc == s.threads[u].pc
    ensures DoSignal(s, t).threads.Keys == s.threads.Keys && DoSignal(s, t).threads[t].pc == Idle
  {}

  lemma OwnerStep(s: State, step: Step)
    requires OwnerInv(s) && LockInv(s) && ListInv(s) && Enabled(s, step)
    ensures OwnerInv(Apply(s, step))
  {
    hide OwnerInv, ListInv;
    OwnerFacts(s);
    var t, s' := step.t, Apply(s, step);
    match step
    case TryLock(_) => if s.word == Unlocked { OwnerGained(s, s', t); } else { OwnerSame(s, s', t); }
    case Lock(_, _) => if s.word == Unlocked { OwnerGained(s, s', t); } else { OwnerSame(s, s', t); }
    case Swap(_) => if s.word == Unlocked { OwnerGained(s, s', t); } else { OwnerSame(s, s', t); }
    case Unlock(_) => OwnerLost(s, s', t);
    case Signal(_) =>
      SignalPcs(s, t);
      OwnerSame(s, s', t);
    case _ => OwnerSame(s, s', t);
  }

  lemma OwnerFacts(s: State)
    requires OwnerInv(s)
    ensures forall t, u | t in s.threads && u in s.threads && s.threads[t].pc == Got && s.threads[u].pc == Got :: t == u
    ensures forall t | t in s.threads && Owner(s.threads[t].pc) :: s.word != Unlocked
    ensures forall t | t in s.threads && s.threads[t].pc == Got :: s.word == Contended
  {}

  // ---------------------------------------------------------------- the list of waiters

  /** Removing the waiter at index k. */
  lemma {:induction false} RemoveAt(w: seq<ThreadId>, k: nat)
    requires NoDup(w) && k < |w|
    ensures Remove(w, w[k]) == w[..k] + w[k + 1..]
    ensures Newer(w, w[k]) == if k == 0 then None else Some(w[k - 1])
  {
    if k > 0 {
      RemoveAt(w[1..], k - 1);
      assert w[1..][k - 1] == w[k];
      assert [w[0]] + (w[1..][..k - 1] + w[1..][k..]) == w[..k] + w[k + 1..];
    }
  }

  /** The list without the waiter at index k. */
  lemma Removed(w: seq<ThreadId>, k: nat)
    requires NoDup(w) && k < |w|
    ensures var r := w[..k] + w[k + 1..];
            && |r| == |w| - 1 && NoDup(r) && (forall i | 0 <= i < |r| :: r[i] == w[if i < k then i else i + 1])
            && forall u :: u in r <==> u in w && u != w[k]
  {
    var r := w[..k] + w[k + 1..];
    forall u ensures u in r <==> u in w && u != w[k] {
      if u in w && u != w[k] {
        var j :| 0 <= j < |w| && w[j] == u;
        assert u == r[if j < k then j else j - 1];
      }
      if u in r {
        var i :| 0 <= i < |r| && r[i] == u;
        assert u == w[if i < k then i else i + 1];
      }
    }
  }

  lemma WaitList(s: State, t: ThreadId)
    requires ListInv(s) && t in s.threads && s.threads[t].pc == Failed
    ensures ListInv(DoWait(s, t)) && t !in s.waiters
  {
    assert t !in s.waiters;
  }

  lemma WaitStamps(s: State, t: ThreadId)
    requires StampInv(s) && t in s.threads && t !in s.waiters
    ensures StampInv(DoWait(s, t))
  {}

  lemma WaitMarker(s: State, t: ThreadId)
    requires MarkerInv(s) && t in s.threads && t !in s.waiters
    ensures MarkerInv(DoWait(s, t))
  {}

  lemma AwakeList(s: State, t: ThreadId, pc: Pc, k: nat)
    requires ListInv(s) && t in s.threads && s.threads[t].pc == Asleep && pc != Asleep && k < |s.waiters| && s.waiters[k] == t
    ensures ListInv(DoAwake(s, t, pc))
  {
    RemoveAt(s.waiters, k);
    Removed(s.waiters, k);
  }

  /** What taking a waiter out leaves, by position. */
  lemma Taken(w: seq<ThreadId>, k: nat)
    requires NoDup(w) && k < |w|
    ensures var r := Remove(w, w[k]); |r| == |w| - 1 && forall i | 0 <= i < |r| :: r[i] == w[if i < k then i else i + 1]
    ensures Newer(w, w[k]) == if k == 0 then None else Some(w[k - 1])
    ensures forall i | 0 <= i < |w| && i != k :: w[i] != w[k]
  {
    RemoveAt(w, k);
  }

  lemma AwakeStamps(s: State, t: ThreadId, pc: Pc, k: nat)
    requires StampInv(s) && NoDup(s.waiters) && t in s.threads && k < |s.waiters| && s.waiters[k] == t
    ensures StampInv(DoAwake(s, t, pc))
  {
    hide Remove, Newer, NoDup;
    Taken(s.waiters, k);
    var s' := DoAwake(s, t, pc);
    forall u | u in s'.waiters ensures u in s'.threads && s'.threads[u].stamp < s'.clock {
      var i :| 0 <= i < |s'.waiters| && s'.waiters[i] == u;
      assert s.waiters[if i < k then i else i + 1] == u;
    }
    forall i, j | 0 <= i < j < |s'.waiters|
      ensures s'.threads[s'.waiters[i]].stamp > s'.threads[s'.waiters[j]].stamp
    {
      assert s'.waiters[i] == s.waiters[if i < k then i else i + 1];
      assert s'.waiters[j] == s.waiters[if j < k then j else j + 1];
    }
  }

  lemma AwakeMarker(s: State, t: ThreadId, pc: Pc, k: nat)
    requires MarkerInv(s) && NoDup(s.waiters) && t in s.threads && k < |s.waiters| && s.waiters[k] == t
    ensures MarkerInv(DoAwake(s, t, pc))
  {
    hide Remove, Newer, NoDup;
    Taken(s.waiters, k);
    var s' := DoAwake(s, t, pc);
    assert s.threads[s.waiters[k]].pending <==> k >= s.unsignalled;
    var u := s'.unsignalled;
    assert u > 0 ==> s'.waiters[u - 1] == s.waiters[if u - 1 < k then u - 1 else u];
    assert s.marker == Some(t) <==> k + 1 == s.unsignalled;
    forall i | 0 <= i < |s'.waiters|
      ensures s'.waiters[i] in s'.threads && (s'.threads[s'.waiters[i]].pending <==> i >= s'.unsignalled)
    {
      var j := if i < k then i else i + 1;
      assert s'.waiters[i] == s.waiters[j] && s.waiters[j] != t;
    }
  }

  /** The waiter that a signal wakes up. */
  ghost predicate Signals(s: State, w: ThreadId, k: nat) {
    k < |s.waiters| && s.waiters[k] == w && w in s.threads && s.threads[w].pc == Asleep && NoDup(s.waiters)
  }

  function Signalled(s: State, w: ThreadId): State
    requires w in s.threads
  {
    SetThread(s, w, s.threads[w].(pending := true)).(marker := Newer(s.waiters, w), unsignalled := s.unsignalled - 1)
  }

  lemma SignalledList(s: State, w: ThreadId, k: nat)
    requires ListInv(s) && Signals(s, w, k)
    ensures ListInv(Signalled(s, w))
  {}

  lemma SignalledStamps(s: State, w: ThreadId, k: nat)
    requires StampInv(s) && Signals(s, w, k)
    ensures StampInv(Signalled(s, w))
  {}

  lemma SignalledMarker(s: State, w: ThreadId, k: nat)
    requires MarkerInv(s) && Signals(s, w, k) && k == s.unsignalled - 1
    ensures MarkerInv(Signalled(s, w))
  {
    RemoveAt(s.waiters, k);
  }

  lemma SignalLists(s: State, t: ThreadId)
    requires Lists(s) && t in s.threads && s.threads[t].pc == Signalling
    ensures Lists(DoSignal(s, t))
  {
    var s' := s;
    if s.queues != [] && s.marker.Some? && s.marker.value in s.threads {
      var w, k := s.marker.value, s.unsignalled - 1;
      assert s.waiters[k] in s.waiters && Signals(s, w, k);
      SignalledList(s, w, k);
      SignalledStamps(s, w, k);
      SignalledMarker(s, w, k);
      s' := Signalled(s, w);
      assert w != t;
    }
    hide ListInv, StampInv, MarkerInv;
    MoveLists(s', SetPc(s', t, Idle), t);
  }

  ghost predicate Lists(s: State) { ListInv(s) && StampInv(s) && MarkerInv(s) }

  lemma AwakeLists(s: State, t: ThreadId, pc: Pc)
    requires Lists(s) && t in s.threads && s.threads[t].pc == Asleep && pc != Asleep
    ensures Lists(DoAwake(s, t, pc))
  {
    var k :| 0 <= k < |s.waiters| && s.waiters[k] == t;
    AwakeList(s, t, pc, k);
    AwakeStamps(s, t, pc, k);
    AwakeMarker(s, t, pc, k);
  }

  /** A thread that is not waiting moves. */
  lemma MoveLists(s: State, s': State, t: ThreadId)
    requires Lists(s) && t in s.threads && s.threads[t].pc != Asleep
    requires t in s'.threads && s'.threads == s.threads[t := s'.threads[t]] && s'.threads[t].pc != Asleep
    requires s'.threads[t].pending == s.threads[t].pending && s'.waiters == s.waiters && s'.marker == s.marker
    requires s'.clock == s.clock && s'.unsignalled == s.unsignalled
    ensures Lists(s')
  {
    assert t !in s.waiters;
  }

  lemma ListStep(s: State, step: Step)
    requires Lists(s) && Enabled(s, step)
    ensures Lists(Apply(s, step))
  {
    hide ListInv, StampInv, MarkerInv;
    match step
    case Wait(t) =>
      WaitList(s, t);
      WaitStamps(s, t);
      WaitMarker(s, t);
    case Resume(t) => AwakeLists(s, t, Swapping);
    case TimeOut(t) => AwakeLists(s, t, Late);
    case Signal(t) => SignalLists(s, t);
    case _ => MoveLists(s, Apply(s, step), step.t);
  }

  // ---------------------------------------------------------------- sleep queues

  lemma InsidersSame(s: State, s': State)
    requires s'.threads.Keys == s.threads.Keys
    requires forall t | t in s.threads :: Inside(s'.threads[t].pc) == Inside(s.threads[t].pc)
    ensures Insiders(s') == Insiders(s)
  {}

  /** A step that lends and returns no queue. */
  lemma QueuesSame(s: State, s': State)
    requires QueuesInv(s) && s'.threads.Keys == s.threads.Keys && s'.queues == s.queues
    requires forall t | t in s.threads :: Inside(s'.threads[t].pc) == Inside(s.threads[t].pc) && s'.threads[t].queue == s.threads[t].queue
    ensures QueuesInv(s')
  {
    InsidersSame(s, s');
  }

  lemma LendQueues(s: State, t: ThreadId)
    requires QueuesInv(s) && t in s.threads && s.threads[t].pc == Slow && s.threads[t].queue.Some?
    ensures QueuesInv(DoLend(s, t))
  {
    assert Insiders(DoLend(s, t)) == Insiders(s) + {t};
    var q := s.threads[t].queue.value;
    assert forall x | x in DoLend(s, t).queues :: x == q || x in s.queues;
  }

  lemma ReturnQueues(s: State, t: ThreadId, pc: Pc)
    requires QueuesInv(s) && t in s.threads && Inside(s.threads[t].pc) && s.queues != [] && !Inside(pc)
    ensures QueuesInv(DoReturn(s, t, pc))
  {
    assert Insiders(s) == Insiders(DoReturn(s, t, pc)) + {t};
    assert forall x | x in DoReturn(s, t, pc).queues :: x in s.queues;
    assert DoReturn(s, t, pc).threads[t].queue.value in s.queues;
  }

  lemma QueuesStep(s: State, step: Step)
    requires QueuesInv(s) && ListInv(s) && Enabled(s, step)
    ensures QueuesInv(Apply(s, step))
  {
    hide QueuesInv, ListInv;
    match step
    case Lend(t) => LendQueues(s, t);
    case Take(t) => ReturnStep(s, t, Holding);
    case Leave(t) => ReturnStep(s, t, Idle);
    case Signal(t) => SignalQueues(s, t);
    case _ => QueuesSame(s, Apply(s, step));
  }

  lemma SignalQueues(s: State, t: ThreadId)
    requires QueuesInv(s) && ListInv(s) && t in s.threads && s.threads[t].pc == Signalling
    ensures QueuesInv(DoSignal(s, t))
  {
    hide QueuesInv, ListInv;
    SignalPcs(s, t);
    SignalKeeps(s, t);
    QueuesSame(s, DoSignal(s, t));
  }

  lemma ReturnStep(s: State, t: ThreadId, pc: Pc)
    requires QueuesInv(s) && t in s.threads && Inside(s.threads[t].pc) && s.queues != [] && !Inside(pc)
    ensures QueuesInv(DoReturn(s, t, pc)) && QueuesInv(DoReturn(s.(word := Locked), t, pc))
  {
    hide QueuesInv;
    QueuesSame(s, s.(word := Locked));
    ReturnQueues(s, t, pc);
    ReturnQueues(s.(word := Locked), t, pc);
  }

  lemma SignalKeeps(s: State, t: ThreadId)
    requires t in s.threads
    ensures DoSignal(s, t).queues == s.queues && DoSignal(s, t).threads.Keys == s.threads.Keys
    ensures forall u | u in s.threads :: DoSignal(s, t).threads[u].queue == s.threads[u].queue
  {}

  /** The assertions of sleepq_lend and sleepq_return hold: a thread that enters the slow path has a queue to lend, and
      one that leaves it finds one to take back. */
  lemma QueueReady(s: State, t: ThreadId)
    requires Inv(s) && t in s.threads
    ensures s.threads[t].pc == Slow ==> s.threads[t].queue.Some?
    ensures Inside(s.threads[t].pc) ==> s.queues != []
    ensures QueuesApart(s)
  {
    if Inside(s.threads[t].pc) {
      assert t in Insiders(s);
    }
  }

  lemma WaitersInside(s: State)
    requires ListInv(s)
    ensures forall i | 0 <= i < |s.waiters| ::
      s.waiters[i] in Insiders(s) && s.waiters[i] in s.threads && s.threads[s.waiters[i]].pc == Asleep
  {
    assert forall i | 0 <= i < |s.waiters| :: s.waiters[i] in s.waiters;
  }

  lemma NoneIn(w: seq<ThreadId>, a: set<ThreadId>)
    requires forall i | 0 <= i < |w| :: w[i] in a
    ensures w != [] ==> |a| > 0
  {
    if w != [] { assert w[0] in a; }
  }

  /** The queue in use is only given back once nobody waits on it. */
  lemma LastQueue(s: State, t: ThreadId)
    requires Inv(s) && t in s.threads && WithLock(s.threads[t].pc) && |s.queues| == 1
    ensures s.waiters == [] && s.marker == None
  {
    OneElement(Insiders(s));
    var x :| Insiders(s) == {x};
    assert t in Insiders(s);
    WaitersInside(s);
    NoneIn(s.waiters, Insiders(s) - {t});
  }

  lemma OneElement(a: set<ThreadId>)
    requires |a| == 1
    ensures exists x :: a == {x}
  {
    var x :| x in a;
    assert |a - {x}| == 0;
    assert a == {x};
  }

  // ---------------------------------------------------------------- wake-ups

  lemma NoWaiters(s: State)
    requires QueuesInv(s) && ListInv(s) && MarkerInv(s) && s.queues == []
    ensures s.marker == None
  {
    WaitersInside(s);
    NoneIn(s.waiters, Insiders(s));
  }

  /** A thread moves, and what was promised to waiters still is. */
  lemma WakeSame(s: State, s': State, t: ThreadId)
    requires WakeInv(s) && t in s.threads && t in s'.threads && s'.threads == s.threads[t := s'.threads[t]]
    requires s'.waiters == s.waiters && s'.marker == s.marker && s'.threads[t].pending == s.threads[t].pending
    requires s.word == Contended ==> s'.word == Contended
    requires s.threads[t].pc != Signalling && s.threads[t].pc != Swapping && s'.threads[t].pc != Failed
    ensures WakeInv(s')
  {
    if x :| x in s.threads && s.threads[x].pc == Signalling { assert s'.threads[x].pc == Signalling; }
    if x :| x in s.threads && s.threads[x].pc == Swapping && s.threads[x].awoken { assert s'.threads[x].pc == Swapping; }
    if x :| x in s.waiters && x in s.threads && s.threads[x].pending { assert s'.threads[x].pending; }
  }

  /** With the bucket lock free, or held by a thread that is not about to wait, no thread is about to wait. */
  lemma NoneFailed(s: State)
    requires LockInv(s) && (s.lock.Some? ==> s.lock.value in s.threads && s.threads[s.lock.value].pc != Failed)
    ensures !SomeAt(s, Failed)
  {}

  lemma UnlockWake(s: State, t: ThreadId)
    requires WakeInv(s) && t in s.threads && s.threads[t].pc == Holding
    ensures WakeInv(Apply(s, Unlock(t)))
  {
    var s' := Apply(s, Unlock(t));
    if s.word == Contended {
      assert s'.threads[t].pc == Signalling;
    } else {
      if x :| x in s.threads && s.threads[x].pc == Signalling { assert s'.threads[x].pc == Signalling; }
      if x :| x in s.threads && s.threads[x].pc == Swapping && s.threads[x].awoken { assert s'.threads[x].pc == Swapping; }
      if x :| x in s.waiters && x in s.threads && s.threads[x].pending { assert s'.threads[x].pending; }
    }
  }

  lemma WaitWake(s: State, t: ThreadId)
    requires WakeInv(s) && t in s.threads && s.threads[t].pc == Failed
    ensures WakeInv(DoWait(s, t))
  {
    assert SomeAt(s, Failed);
    if x :| x in s.threads && s.threads[x].pc == Signalling { assert DoWait(s, t).threads[x].pc == Signalling; }
  }

  lemma ResumeWake(s: State, t: ThreadId)
    requires LockInv(s) && t in s.threads && s.lock == None && s.threads[t].pc == Asleep && s.threads[t].pending
    ensures WakeInv(DoAwake(s, t, Swapping))
  {
    assert DoAwake(s, t, Swapping).threads[t].pc == Swapping;
  }

  lemma PendingKept(s: State, t: ThreadId, pc: Pc)
    requires SomePending(s) && ListInv(s) && t in s.threads && s.threads[t].pc == Asleep && !s.threads[t].pending
    ensures SomePending(DoAwake(s, t, pc))
  {
    var k :| 0 <= k < |s.waiters| && s.waiters[k] == t;
    RemoveAt(s.waiters, k);
    Removed(s.waiters, k);
    var x :| x in s.waiters && x in s.threads && s.threads[x].pending;
    assert x in DoAwake(s, t, pc).waiters && DoAwake(s, t, pc).threads[x].pending;
  }

  lemma PromiseKept(s: State, s': State, t: ThreadId)
    requires Promise(s) && t in s.threads && s.threads[t].pc != Signalling && s'.word == s.word
    requires t in s'.threads && s'.threads == s.threads[t := s'.threads[t]]
    ensures Promise(s')
  {
    if x :| x in s.threads && s.threads[x].pc == Signalling { assert s'.threads[x].pc == Signalling; }
  }

  lemma TimeOutWake(s: State, t: ThreadId)
    requires WakeInv(s) && LockInv(s) && Lists(s) && t in s.threads && s.lock == None && s.threads[t].pc == Asleep
    requires !s.threads[t].pending
    ensures WakeInv(DoAwake(s, t, Late))
  {
    var s' := DoAwake(s, t, Late);
    if Promise(s) { PromiseKept(s, s', t); }
    if SomePending(s) { PendingKept(s, t, Late); }
    NoneWithLock(s);
    NewerMarker(s, t);
    hide Lists, Promise, SomePending, Remove, Newer;
  }

  lemma NoneWithLock(s: State)
    requires LockInv(s) && s.lock == None
    ensures !SomeAt(s, Swapping) && !SomeAt(s, Failed)
  {}

  lemma NewerMarker(s: State, t: ThreadId)
    requires Lists(s) && t in s.threads && s.threads[t].pc == Asleep
    ensures DoAwake(s, t, Late).marker.Some? ==> s.marker.Some?
  {}

  lemma ReturnWake(s: State, word: Word, t: ThreadId, pc: Pc)
    requires WakeInv(s) && LockInv(s) && MarkerInv(s) && t in s.threads && s.threads[t].pc in {Got, Late} && s.queues != []
    requires pc in {Holding, Idle} && (word == s.word || s.waiters == [])
    ensures WakeInv(DoReturn(s.(word := word), t, pc))
  {
    var s' := DoReturn(s.(word := word), t, pc);
    NoneFailed(s);
    assert forall x | x in s.threads :: s.threads[x].pc != Swapping;
    if s.waiters != [] && Promise(s) { PromiseKept(s, s', t); }
    if x :| x in s.waiters && x in s.threads && s.threads[x].pending { assert s'.threads[x].pending; }
  }

  lemma SignalWake(s: State, t: ThreadId)
    requires LockInv(s) && Lists(s) && QueuesInv(s) && t in s.threads && s.lock == None && s.threads[t].pc == Signalling
    ensures WakeInv(DoSignal(s, t))
  {
    var s' := DoSignal(s, t);
    NoneFailed(s);
    if s.queues == [] {
      NoWaiters(s);
    } else if s.marker.Some? {
      var w := s.marker.value;
      assert s.waiters[s.unsignalled - 1] in s.waiters;
      assert w in s'.waiters && s'.threads[w].pending;
    }
  }

  lemma WakeStep(s: State, step: Step)
    requires Inv(s) && Enabled(s, step)
    ensures WakeInv(Apply(s, step))
  {
    hide WakeInv, LockInv, OwnerInv, ListInv, StampInv, MarkerInv, QueuesInv;
    match step
    case Swap(t) => SwapWake(s, t);
    case Wait(t) => WaitWake(s, t);
    case Resume(t) => ResumeWake(s, t);
    case TimeOut(t) => TimeOutWake(s, t);
    case Take(t) =>
      if s.waiters == [] { ReturnWake(s, Locked, t, Holding); } else { ReturnWake(s, s.word, t, Holding); }
    case Leave(t) =>
      if s.waiters == [] && s.word == Contended { ReturnWake(s, Locked, t, Idle); } else { ReturnWake(s, s.word, t, Idle); }
    case Unlock(t) => UnlockWake(s, t);
    case Signal(t) => SignalWake(s, t);
    case _ => WakeSame(s, Apply(s, step), step.t);
  }

  lemma SwapWake(s: State, t: ThreadId)
    requires t in s.threads && s.threads[t].pc == Swapping
    ensures WakeInv(Apply(s, Swap(t)))
  {}

  // ---------------------------------------------------------------- runs

  lemma StepInv(s: State, step: Step)
    requires Inv(s) && Enabled(s, step)
    ensures Inv(Apply(s, step))
  {
    hide WakeInv, LockInv, OwnerInv, ListInv, StampInv, MarkerInv, QueuesInv;
    LockStep(s, step);
    OwnerStep(s, step);
    ListStep(s, step);
    QueuesStep(s, step);
    WakeStep(s, step);
  }

  ghost predicate Run(s: State, steps: seq<Step>, to: State)
    decreases |steps|
  {
    if steps == [] then s == to else Enabled(s, steps[0]) && Run(Apply(s, steps[0]), steps[1..], to)
  }

  lemma {:induction false} RunInv(s: State, steps: seq<Step>, to: State)
    requires Inv(s) && Run(s, steps, to)
    ensures Inv(to)
    decreases |steps|
  {
    if steps != [] {
      StepInv(s, steps[0]);
      RunInv(Apply(s, steps[0]), steps[1..], to);
    }
  }

  /** In every run at most one thread owns the mutex, and the word is set exactly while one does. */
  lemma MutualExclusion(s: State, steps: seq<Step>, to: State)
    requires Initial(s) && Run(s, steps, to)
    ensures forall t, u | t in to.threads && u in to.threads && Owner(to.threads[t].pc) && Owner(to.threads[u].pc) :: t == u
    ensures to.word != Unlocked <==> exists t | t in to.threads :: Owner(to.threads[t].pc)
  {
    InitialInv(s);
    RunInv(s, steps, to);
  }

  /** In every run, as long as a waiter has not been signalled, the word tells the owner to signal, or an unlocker is
      about to, or a signalled waiter is awake or, once awake, about to swap the word. */
  lemma NoLostWakeup(s: State, steps: seq<Step>, to: State, t: ThreadId)
    requires Initial(s) && Run(s, steps, to) && t in to.threads && to.threads[t].pc == Asleep && !to.threads[t].pending
    ensures to.word == Contended || SomeAt(to, Signalling) || SomePending(to) || Retrying(to)
  {
    InitialInv(s);
    RunInv(s, steps, to);
    var k :| 0 <= k < |to.waiters| && to.waiters[k] == t;
  }

  /** A signal goes to the thread that has been waiting for the longest time of those that have not been signalled. */
  lemma SignalledInOrder(s: State, t: ThreadId, w: ThreadId, u: ThreadId)
    requires Inv(s) && Enabled(s, Signal(t)) && w in s.threads && u in s.threads
    requires !s.threads[w].pending && Apply(s, Signal(t)).threads[w].pending
    requires s.threads[u].pc == Asleep && !s.threads[u].pending && u != w
    ensures s.threads[w].stamp < s.threads[u].stamp
  {
    hide LockInv, OwnerInv, WakeInv, QueuesInv, Newer;
    var k :| 0 <= k < |s.waiters| && s.waiters[k] == u;
    assert w == s.waiters[s.unsignalled - 1];
  }

  /** The holder of the bucket lock never waits for anything. */
  lemma HolderGoes(s: State)
    requires Inv(s) && s.lock.Some?
    ensures exists step :: Enabled(s, step) && s.lock == Some(step.t)
  {
    hide MarkerInv, StampInv, WakeInv, ListInv, OwnerInv;
    var u := s.lock.value;
    QueueReady(s, u);
    assert Enabled(s, Swap(u)) || Enabled(s, Wait(u)) || Enabled(s, Take(u)) || Enabled(s, Leave(u));
  }

  /** While a waiter sleeps, the owner, an unlocker or a signalled waiter can go on, or, when the bucket lock is held, its
      holder can. */
  lemma NotStuck(s: State, t: ThreadId)
    requires Inv(s) && t in s.threads && s.threads[t].pc == Asleep
    ensures exists step :: Enabled(s, step) &&
              if s.lock == None then step.Unlock? || step.Signal? || step.Resume? else s.lock == Some(step.t)
  {
    var k :| 0 <= k < |s.waiters| && s.waiters[k] == t;
    if s.lock != None {
      HolderGoes(s);
    } else if s.threads[t].pending {
      assert Enabled(s, Resume(t));
    } else if x :| x in s.waiters && x in s.threads && s.threads[x].pending {
      assert Enabled(s, Resume(x));
    } else if x :| x in s.threads && s.threads[x].pc == Signalling {
      assert Enabled(s, Signal(x));
    } else {
      var x :| x in s.threads && Owner(s.threads[x].pc);
      assert Enabled(s, Unlock(x));
    }
  }
}
