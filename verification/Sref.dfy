// Scalable reference counters of kern/sref.c: per-processor delta caches, epochs, the two review queues,
// weak references and processor registration, as a state machine over atomic steps.
//
// A step is what one processor does while it holds a counter lock or the global lock, or with interrupts
// disabled on its own cache. Clients take a reference only while they hold one, or through a weak reference.

module Sref {
  import opened Common

  /** unsigned long is 64 bits wide. */
  const WORD := 0x1_0000_0000_0000_0000

  type Ulong = x: nat | x < 0x1_0000_0000_0000_0000

  function AddWrap(a: Ulong, b: Ulong): Ulong {
    if a + b < WORD then a + b else a + b - WORD
  }

  const MAX_DELTAS := 4096
  const HASH_SHIFT := 8  // 1 << SREF_HASH_SHIFT on a 64-bit machine

  type CpuId = nat
  type CounterId = nat  // the address of a counter

  /** sref_counter_index. */
  function Index(x: CounterId): nat { (x / HASH_SHIFT) % MAX_DELTAS }

  /** A weak reference: absent, a plain pointer, a pointer with the dying bit, or NULL. */
  datatype Weak = NoWeak | Alive | Dying | Null

  /** Where a counter is linked. */
  datatype Place = Nowhere | Queued(queue: nat) | InReview(cpu: CpuId)

  /** refs, live and place are history: the references clients hold, whether the no-reference work has not
      been queued since sref_counter_init, and the list that links the counter. */
  datatype Counter = Counter(value: Ulong, queued: bool, dirty: bool, weak: Weak,
                             refs: nat, live: bool, place: Place)

  datatype Delta = Delta(counter: CounterId, value: Ulong)

  datatype Manager = Sleeping | Flushing | Reviewing(queue: seq<CounterId>)

  /** deltas holds the valid deltas by their index. getting is a weak-reference get that has read the
      counter and not yet added its delta; nothing else but an eviction happens on the processor then. */
  datatype Cache = Cache(deltas: map<nat, Delta>, dirty: bool, getting: Option<CounterId>, manager: Manager)

  datatype State = State(counters: map<CounterId, Counter>, caches: seq<Cache>,
                         registered: set<CpuId>, nrRegistered: int, pending: set<CpuId>, nrPending: int,
                         queues: seq<seq<CounterId>>, current: nat)

  // ---------------------------------------------------------------- the true count

  predicate Valid(k: Cache, x: CounterId) {
    Index(x) in k.deltas && k.deltas[Index(x)].counter == x
  }

  function DeltaOf(k: Cache, x: CounterId): Ulong {
    if Valid(k, x) then k.deltas[Index(x)].value else 0
  }

  function SumDeltas(caches: seq<Cache>, x: CounterId): nat {
    if caches == [] then 0 else DeltaOf(caches[0], x) + SumDeltas(caches[1..], x)
  }

  /** Does anything on this processor refer to the counter? */
  predicate Refers(k: Cache, x: CounterId) { Valid(k, x) || k.getting == Some(x) }

  // ---------------------------------------------------------------- parts of steps

  ghost predicate Wf(s: State) {
    && |s.queues| == 2 && s.current < 2
    && (forall c | c in s.registered :: c < |s.caches|)
    && s.pending <= s.registered
    && (forall c | 0 <= c < |s.caches| :: forall i | i in s.caches[c].deltas :: s.caches[c].deltas[i].counter in s.counters)
    && (forall c | 0 <= c < |s.caches| && s.caches[c].manager.Reviewing? ::
          forall x | x in s.caches[c].manager.queue :: x in s.counters)
  }

  function MarkDying(w: Weak): Weak { if w == Alive then Dying else w }

  function ClearDying(w: Weak): Weak { if w == Dying then Alive else w }

  /** sref_counter_schedule_review, given the counter's other fields. */
  function ScheduleReview(s: State, x: CounterId, k: Counter): State
    requires |s.queues| == 2 && s.current < 2
  {
    s.(counters := s.counters[x := k.(queued := true, weak := MarkDying(k.weak), place := Queued(s.current))],
       queues := s.queues[s.current := s.queues[s.current] + [x]])
  }

  /** sref_counter_add. */
  function CounterAdd(s: State, x: CounterId, delta: Ulong): State
    requires |s.queues| == 2 && s.current < 2 && x in s.counters
  {
    var k := s.counters[x].(value := AddWrap(s.counters[x].value, delta));
    if k.value != 0 then s.(counters := s.counters[x := k])
    else if k.queued then s.(counters := s.counters[x := k.(dirty := true)])
    else ScheduleReview(s, x, k)
  }

  /** Adding to the processor's delta for x, whose slot is free or already x's. */
  function AddDelta(k: Cache, x: CounterId, d: Ulong): Cache {
    k.(deltas := k.deltas[Index(x) := Delta(x, AddWrap(DeltaOf(k, x), d))], dirty := true)
  }

  predicate SlotFree(k: Cache, x: CounterId) { Index(x) in k.deltas ==> Valid(k, x) }

  function Remove(deltas: map<nat, Delta>, i: nat): map<nat, Delta> {
    map j | j in deltas && j != i :: deltas[j]
  }

  /** The counters of one queue move to the review list of c. */
  function MoveToReview(counters: map<CounterId, Counter>, q: seq<CounterId>, c: CpuId): map<CounterId, Counter> {
    map x | x in counters :: if x in q then counters[x].(place := InReview(c)) else counters[x]
  }

  /** sref_end_epoch on processor c, whose flush was the last pending one. */
  function EndEpoch(s: State, c: CpuId): State
    requires |s.queues| == 2 && s.current < 2 && c < |s.caches|
  {
    var prev := 1 - s.current;
    var only := s.nrRegistered == 1;
    var q := if only then s.queues[prev] + s.queues[s.current] else s.queues[prev];
    s.(queues := if only then [[], []] else s.queues[prev := []],
       current := prev,
       counters := MoveToReview(s.counters, q, c),
       caches := s.caches[c := s.caches[c].(manager := Reviewing(q))],
       pending := s.registered, nrPending := s.nrRegistered)
  }

  // ---------------------------------------------------------------- steps

  datatype Step =
    | Init(x: CounterId, value: Ulong, weak: bool)
    | Inc(c: CpuId, x: CounterId)
    | Dec(c: CpuId, x: CounterId)
    | TryGet(c: CpuId, x: CounterId)
    | FinishGet(c: CpuId)
    | Evict(c: CpuId, i: nat)
    | Periodic(c: CpuId)
    | Wake(c: CpuId)
    | FlushEnd(c: CpuId)
    | Review(c: CpuId)
    | ReviewDone(c: CpuId)
    | Register(c: CpuId)
    | Unregister(c: CpuId)

  /** A registered processor with interrupts enabled. */
  predicate Ready(s: State, c: CpuId) {
    c in s.registered && c < |s.caches| && s.caches[c].getting == None
  }

  ghost predicate Enabled(s: State, step: Step)
    requires Wf(s)
  {
    match step
    case Init(x, v, weak) => v != 0 && (x in s.counters ==> !s.counters[x].live)
    case Inc(c, x) =>
      Ready(s, c) && SlotFree(s.caches[c], x) && x in s.counters && 0 < s.counters[x].refs < WORD - 1
    case Dec(c, x) =>
      Ready(s, c) && SlotFree(s.caches[c], x) && x in s.counters && 0 < s.counters[x].refs
    case TryGet(c, x) => Ready(s, c) && x in s.counters && s.counters[x].weak != NoWeak
    case FinishGet(c) =>
      && c in s.registered && s.caches[c].getting.Some?
      && SlotFree(s.caches[c], s.caches[c].getting.value)
      && s.caches[c].getting.value in s.counters && s.counters[s.caches[c].getting.value].refs < WORD - 1
    case Evict(c, i) => c in s.registered && i in s.caches[c].deltas
    case Periodic(c) => Ready(s, c)
    case Wake(c) => Ready(s, c) && s.caches[c].manager == Sleeping && s.caches[c].dirty
    case FlushEnd(c) => Ready(s, c) && s.caches[c].manager == Flushing && s.caches[c].deltas == map[]
    case Review(c) => Ready(s, c) && s.caches[c].manager.Reviewing? && s.caches[c].manager.queue != []
    case ReviewDone(c) => Ready(s, c) && s.caches[c].manager == Reviewing([])
    case Register(c) => c < |s.caches| && c !in s.registered
    case Unregister(c) => Ready(s, c) && s.caches[c].manager == Sleeping
  }

  function DoInit(s: State, x: CounterId, v: Ulong, weak: bool): State {
    s.(counters := s.counters[x := Counter(v, false, false, if weak then Alive else NoWeak, v, true, Nowhere)])
  }

  function DoInc(s: State, c: CpuId, x: CounterId): State
    requires c < |s.caches| && x in s.counters
  {
    s.(caches := s.caches[c := AddDelta(s.caches[c], x, 1)],
       counters := s.counters[x := s.counters[x].(refs := s.counters[x].refs + 1)])
  }

  function DoDec(s: State, c: CpuId, x: CounterId): State
    requires c < |s.caches| && x in s.counters && s.counters[x].refs > 0
  {
    s.(caches := s.caches[c := AddDelta(s.caches[c], x, WORD - 1)],
       counters := s.counters[x := s.counters[x].(refs := s.counters[x].refs - 1)])
  }

  /** sref_weakref_tryget: a NULL weak reference gives nothing, any other loses its dying bit. */
  function DoTryGet(s: State, c: CpuId, x: CounterId): State
    requires c < |s.caches| && x in s.counters
  {
    if s.counters[x].weak == Null then s
    else s.(counters := s.counters[x := s.counters[x].(weak := Alive)],
            caches := s.caches[c := s.caches[c].(getting := Some(x))])
  }

  function DoFinishGet(s: State, c: CpuId): State
    requires c < |s.caches| && s.caches[c].getting.Some? && s.caches[c].getting.value in s.counters
  {
    var x := s.caches[c].getting.value;
    var t := DoInc(s, c, x);
    t.(caches := t.caches[c := t.caches[c].(getting := None)])
  }

  /** sref_cache_remove_delta, on a collision or in a flush. */
  function DoEvict(s: State, c: CpuId, i: nat): State
    requires Wf(s) && Enabled(s, Evict(c, i))
  {
    var d := s.caches[c].deltas[i];
    CounterAdd(s.(caches := s.caches[c := s.caches[c].(deltas := Remove(s.caches[c].deltas, i))]), d.counter, d.value)
  }

  function SetManager(s: State, c: CpuId, m: Manager): State
    requires c < |s.caches|
  {
    s.(caches := s.caches[c := s.caches[c].(manager := m)])
  }

  /** The end of sref_cache_flush, once the list of valid deltas is empty. */
  function DoFlushEnd(s: State, c: CpuId): State
    requires Wf(s) && Enabled(s, FlushEnd(c))
  {
    var t := SetManager(s.(caches := s.caches[c := s.caches[c].(dirty := false)]), c, Reviewing([]));
    if c !in s.pending then t
    else
      var u := t.(pending := s.pending - {c}, nrPending := s.nrPending - 1);
      if u.nrPending != 0 then u else EndEpoch(u, c)
  }

  /** One iteration of sref_review. */
  function DoReview(s: State, c: CpuId): State
    requires Wf(s) && Enabled(s, Review(c))
  {
    var q := s.caches[c].manager.queue;
    var x := q[0];
    var k := s.counters[x].(queued := false, place := Nowhere);
    var t := SetManager(s, c, Reviewing(q[1..]));
    if k.value != 0 then
      t.(counters := s.counters[x := k.(dirty := false, weak := ClearDying(k.weak))])
    else if k.dirty then ScheduleReview(t, x, k.(dirty := false))
    else if k.weak == Alive then ScheduleReview(t, x, k)
    else t.(counters := s.counters[x := k.(live := false, weak := if k.weak == Dying then Null else k.weak)])
  }

  function DoRegister(s: State, c: CpuId): State {
    var t := s.(registered := s.registered + {c}, nrRegistered := s.nrRegistered + 1);
    if t.nrRegistered == 1 && t.nrPending == 0 then t.(pending := t.registered, nrPending := t.nrRegistered)
    else t
  }

  /** sref_unregister; ok tells whether the processor could be unregistered. */
  function DoUnregister(s: State, c: CpuId): (r: (State, bool))
    requires Wf(s) && Enabled(s, Unregister(c))
  {
    var busy := s.(caches := s.caches[c := s.caches[c].(dirty := true)]);
    var t := s.(registered := s.registered - {c}, nrRegistered := s.nrRegistered - 1);
    if s.caches[c].dirty then (busy, false)
    else if c !in s.pending then (t, true)
    else if s.nrRegistered == 1 && s.nrPending == 1 && |s.queues[0]| + |s.queues[1]| == 0 then
      (t.(pending := s.pending - {c}, nrPending := s.nrPending - 1), true)
    else (busy, false)
  }

  function Apply(s: State, step: Step): State
    requires Wf(s) && Enabled(s, step)
  {
    match step
    case Init(x, v, weak) => DoInit(s, x, v, weak)
    case Inc(c, x) => DoInc(s, c, x)
    case Dec(c, x) => DoDec(s, c, x)
    case TryGet(c, x) => DoTryGet(s, c, x)
    case FinishGet(c) => DoFinishGet(s, c)
    case Evict(c, i) => DoEvict(s, c, i)
    case Periodic(c) => s.(caches := s.caches[c := s.caches[c].(dirty := true)])
    case Wake(c) => SetManager(s, c, Flushing)
    case FlushEnd(c) => DoFlushEnd(s, c)
    case Review(c) => DoReview(s, c)
    case ReviewDone(c) => SetManager(s, c, Sleeping)
    case Register(c) => DoRegister(s, c)
    case Unregister(c) => DoUnregister(s, c).0
  }

  /** The assertions the code makes in a step. */
  ghost predicate Asserts(s: State, step: Step)
    requires Wf(s) && Enabled(s, step)
  {
    match step
    case Evict(c, i) =>
      var k := s.counters[s.caches[c].deltas[i].counter];
      AddWrap(k.value, s.caches[c].deltas[i].value) == 0 && !k.queued ==> !k.dirty
    case FlushEnd(c) => c in s.pending && s.nrPending == 1 ==> s.nrRegistered != 0 && s.pending == {c}
    case Review(c) => s.counters[s.caches[c].manager.queue[0]].queued
    case Register(c) =>
      && !s.caches[c].dirty
      && (s.nrRegistered == 0 && s.nrPending == 0 ==> s.queues[0] == [] && s.queues[1] == [])
    case Unregister(c) => !s.caches[c].dirty && c !in s.pending ==> s.nrPending != 0
    case _ => true
  }

  ghost predicate Initial(s: State) {
    && s.counters == map[] && s.registered == {} && s.pending == {} && s.nrRegistered == 0 && s.nrPending == 0
    && s.queues == [[], []] && s.current == 0
    && forall c | 0 <= c < |s.caches| :: s.caches[c] == Cache(map[], false, None, Sleeping)
  }

  // ---------------------------------------------------------------- invariant

  /** A zero that nothing has been seen to contradict. */
  predicate Quiet(k: Counter) {
    k.value == 0 && !k.dirty && (k.weak == NoWeak || k.weak == Dying)
  }

  ghost predicate CacheInv(s: State, c: CpuId)
    requires c < |s.caches|
  {
    var k := s.caches[c];
    && (forall i | i in k.deltas :: Index(k.deltas[i].counter) == i && k.deltas[i].counter in s.counters)
    && (k.getting.Some? ==> k.getting.value in s.counters)
    && (k.deltas != map[] ==> k.dirty)
    && (k.manager == Flushing ==> k.dirty)
    && (c !in s.registered ==> k == Cache(map[], false, None, Sleeping))
  }

  ghost predicate CpusInv(s: State) {
    && s.pending <= s.registered
    && s.nrRegistered == |s.registered| && s.nrPending == |s.pending|
    && (forall c | c in s.registered :: c < |s.caches|)
    && (s.registered != {} ==> s.pending != {})
    && (s.registered == {} ==> s.queues == [[], []])
    && (forall c | 0 <= c < |s.caches| :: CacheInv(s, c))
  }

  /** The list at a place. */
  function ListAt(s: State, p: Place): seq<CounterId>
    requires |s.queues| == 2
  {
    match p
    case Nowhere => []
    case Queued(i) => if i < 2 then s.queues[i] else []
    case InReview(c) =>
      if c < |s.caches| && s.caches[c].manager.Reviewing? then s.caches[c].manager.queue else []
  }

  /** A counter is linked at most once, exactly when its flag says so, and where its place says. */
  ghost predicate ListsInv(s: State)
    requires |s.queues| == 2
  {
    && (forall p: Place :: NoDup(ListAt(s, p)))
    && (forall p: Place, x | x in ListAt(s, p) :: x in s.counters && s.counters[x].place == p)
    && (forall x | x in s.counters && s.counters[x].place != Nowhere :: x in ListAt(s, s.counters[x].place))
  }

  ghost predicate CounterInv(s: State, x: CounterId)
    requires x in s.counters
  {
    var k := s.counters[x];
    && (k.queued <==> k.place != Nowhere)
    && (k.dirty ==> k.queued)
    && k.refs < WORD
    && (k.value == 0 && k.live ==> k.queued)
    && (k.queued ==> k.live)
    && (k.live ==> k.weak != Null)
    && (!k.live ==> k.refs == 0 && (k.weak == NoWeak || k.weak == Null) && Unreferred(s, x))
    && (k.live ==> (k.value + SumDeltas(s.caches, x) - k.refs) % WORD == 0)
  }

  ghost predicate Unreferred(s: State, x: CounterId) {
    forall c | 0 <= c < |s.caches| :: !Refers(s.caches[c], x)
  }

  ghost predicate PendingRefers(s: State, x: CounterId) {
    exists c | c in s.pending && c < |s.caches| :: Refers(s.caches[c], x)
  }

  /** The core of the algorithm. Among counters that look dead, one in the previous queue that some
      processor still refers to is referred to by a processor that has yet to flush; one under review is
      not referred to at all. */
  ghost predicate EpochInv(s: State, x: CounterId)
    requires x in s.counters && s.current < 2
  {
    Quiet(s.counters[x]) ==>
      && (s.counters[x].place == Queued(1 - s.current) ==> Unreferred(s, x) || PendingRefers(s, x))
      && (s.counters[x].place.InReview? ==> Unreferred(s, x))
  }

  ghost predicate Inv(s: State) {
    && Wf(s)
    && CpusInv(s)
    && ListsInv(s)
    && (forall x | x in s.counters :: CounterInv(s, x))
    && (forall x | x in s.counters :: EpochInv(s, x))
  }

  // ---------------------------------------------------------------- sums and views

  lemma {:induction false} SumUpdate(caches: seq<Cache>, c: CpuId, k: Cache, x: CounterId)
    requires c < |caches|
    ensures SumDeltas(caches[c := k], x) == SumDeltas(caches, x) - DeltaOf(caches[c], x) + DeltaOf(k, x)
  {
    if c > 0 {
      SumUpdate(caches[1..], c - 1, k, x);
      assert caches[c := k][1..] == caches[1..][c - 1 := k];
    }
  }

  lemma {:induction false} SumZero(caches: seq<Cache>, x: CounterId)
    requires forall c | 0 <= c < |caches| :: !Valid(caches[c], x)
    ensures SumDeltas(caches, x) == 0
  {
    if caches != [] {
      SumZero(caches[1..], x);
    }
  }

  /** A counter whose global value is 0 and that clients hold has a delta somewhere. */
  lemma HeldIsReferred(s: State, x: CounterId)
    requires x in s.counters && CounterInv(s, x)
    ensures s.counters[x].value == 0 && Unreferred(s, x) ==> s.counters[x].refs == 0
  {
    if Unreferred(s, x) {
      SumZero(s.caches, x);
    }
  }

  /** Two caches that say the same about one counter. */
  predicate SameView(k: Cache, k': Cache, x: CounterId) {
    Valid(k', x) == Valid(k, x) && DeltaOf(k', x) == DeltaOf(k, x) && (k'.getting == Some(x) <==> k.getting == Some(x))
  }

  /** A counter a step does not touch. */
  ghost predicate Untouched(s: State, s': State, c: CpuId, x: CounterId) {
    && x in s.counters && x in s'.counters && s'.counters[x] == s.counters[x]
    && c < |s.caches| && |s'.caches| == |s.caches| && s'.caches == s.caches[c := s'.caches[c]]
    && SameView(s.caches[c], s'.caches[c], x)
  }

  lemma ReferredSame(s: State, s': State, c: CpuId, x: CounterId)
    requires Untouched(s, s', c, x)
    ensures forall d | 0 <= d < |s.caches| :: Refers(s'.caches[d], x) == Refers(s.caches[d], x)
    ensures SumDeltas(s'.caches, x) == SumDeltas(s.caches, x)
  {
    SumUpdate(s.caches, c, s'.caches[c], x);
  }

  lemma CounterFrame(s: State, s': State, c: CpuId, x: CounterId)
    requires Untouched(s, s', c, x) && CounterInv(s, x)
    ensures CounterInv(s', x)
  {
    ReferredSame(s, s', c, x);
  }

  lemma EpochFrame(s: State, s': State, c: CpuId, x: CounterId)
    requires Untouched(s, s', c, x) && s.current < 2 && EpochInv(s, x)
    requires s'.current == s.current && s'.pending == s.pending
    ensures EpochInv(s', x)
  {
    ReferredSame(s, s', c, x);
    if PendingRefers(s, x) {
      var d :| d in s.pending && d < |s.caches| && Refers(s.caches[d], x);
      assert Refers(s'.caches[d], x);
    }
  }

  lemma AddDeltaView(k: Cache, x: CounterId, d: Ulong, y: CounterId)
    requires SlotFree(k, x) && y != x
    ensures SameView(k, AddDelta(k, x, d), y)
  {}

  /** What stays of the lists when no queue changes. */
  ghost predicate SameLists(s: State, s': State)
    requires |s.queues| == 2 && |s'.queues| == 2
  {
    && (forall p: Place :: ListAt(s', p) == ListAt(s, p))
    && (forall x | x in s.counters :: x in s'.counters && s'.counters[x].place == s.counters[x].place)
    && (forall x | x in s'.counters && x !in s.counters :: s'.counters[x].place == Nowhere)
  }

  lemma ListsSame(s: State, s': State)
    requires |s.queues| == 2 && |s'.queues| == 2 && ListsInv(s) && SameLists(s, s')
    ensures ListsInv(s')
  {
    forall x | x in s'.counters && s'.counters[x].place != Nowhere
      ensures x in ListAt(s', s'.counters[x].place)
    {
      assert x in s.counters;
    }
  }

  /** A step on one cache that moves no counter between lists. */
  lemma ListsKept(s: State, s': State, c: CpuId)
    requires Wf(s) && ListsInv(s) && c < |s.caches| && s'.queues == s.queues
    requires |s'.caches| == |s.caches| && s'.caches == s.caches[c := s'.caches[c]]
    requires ListAt(s', InReview(c)) == ListAt(s, InReview(c))
    requires s'.counters.Keys == s.counters.Keys
    requires forall x | x in s.counters :: s'.counters[x].place == s.counters[x].place
    ensures ListsInv(s')
  {
    forall p: Place ensures ListAt(s', p) == ListAt(s, p) {}
    ListsSame(s, s');
  }

  // ---------------------------------------------------------------- taking and dropping references

  lemma InitialInv(s: State)
    requires Initial(s)
    ensures Inv(s)
  {
    forall p: Place ensures ListAt(s, p) == [] {}
  }

  /** A step of processor c that leaves the sets of processors alone. */
  lemma CpusFrame(s: State, s': State, c: CpuId)
    requires CpusInv(s) && c < |s.caches| && |s'.caches| == |s.caches| && s'.caches == s.caches[c := s'.caches[c]]
    requires s'.registered == s.registered && s'.pending == s.pending
    requires s'.nrRegistered == s.nrRegistered && s'.nrPending == s.nrPending
    requires s'.queues == s.queues || s.registered != {}
    requires s.counters.Keys <= s'.counters.Keys && CacheInv(s', c)
    ensures CpusInv(s')
  {
    forall d | 0 <= d < |s.caches| ensures CacheInv(s', d) { assert CacheInv(s, d); }
  }

  /** What remains to be shown of a step that touches one counter and one cache. */
  lemma OneCounter(s: State, s': State, c: CpuId, x: CounterId)
    requires Inv(s) && Wf(s') && CpusInv(s') && ListsInv(s')
    requires s'.current == s.current && s'.pending == s.pending
    requires x in s'.counters && CounterInv(s', x) && EpochInv(s', x)
    requires forall y | y in s'.counters && y != x :: Untouched(s, s', c, y)
    ensures Inv(s')
  {
    forall y | y in s'.counters && y != x ensures CounterInv(s', y) && EpochInv(s', y) {
      assert Untouched(s, s', c, y);
      CounterFrame(s, s', c, y);
      EpochFrame(s, s', c, y);
    }
  }

  /** What remains to be shown of a step that touches no counter. */
  lemma NoCounter(s: State, s': State, c: CpuId)
    requires Inv(s) && Wf(s') && CpusInv(s') && ListsInv(s')
    requires s'.current == s.current && s'.pending == s.pending
    requires s'.counters.Keys == s.counters.Keys && forall y | y in s.counters :: Untouched(s, s', c, y)
    ensures Inv(s')
  {
    forall y | y in s'.counters ensures CounterInv(s', y) && EpochInv(s', y) {
      assert Untouched(s, s', c, y);
      CounterFrame(s, s', c, y);
      EpochFrame(s, s', c, y);
    }
  }

  lemma UnknownUnreferred(s: State, x: CounterId)
    requires CpusInv(s)
    ensures x !in s.counters ==> Unreferred(s, x)
  {
    forall c | 0 <= c < |s.caches| && x !in s.counters ensures !Refers(s.caches[c], x) { assert CacheInv(s, c); }
  }

  lemma InitCpus(s: State, x: CounterId, v: Ulong, weak: bool)
    requires CpusInv(s) && Wf(s)
    ensures CpusInv(DoInit(s, x, v, weak)) && Wf(DoInit(s, x, v, weak))
  {
    forall c | 0 <= c < |s.caches| ensures CacheInv(DoInit(s, x, v, weak), c) { assert CacheInv(s, c); }
  }

  lemma InitCounters(s: State, x: CounterId, v: Ulong, weak: bool)
    requires Inv(s) && Enabled(s, Init(x, v, weak))
    ensures var s' := DoInit(s, x, v, weak); forall y | y in s'.counters :: CounterInv(s', y) && EpochInv(s', y)
  {
    var s' := DoInit(s, x, v, weak);
    UnknownUnreferred(s, x);
    assert x in s.counters ==> CounterInv(s, x);
    SumZero(s.caches, x);
    forall y | y in s'.counters && y != x ensures CounterInv(s', y) && EpochInv(s', y) {
      assert CounterInv(s, y) && EpochInv(s, y);
    }
  }

  lemma InitInv(s: State, x: CounterId, v: Ulong, weak: bool)
    requires Inv(s) && Enabled(s, Init(x, v, weak))
    ensures Inv(DoInit(s, x, v, weak))
  {
    var s' := DoInit(s, x, v, weak);
    assert x in s.counters ==> CounterInv(s, x);
    InitCpus(s, x, v, weak);
    InitCounters(s, x, v, weak);
    ListsSame(s, s');
  }

  /** Adding d to a delta and e to the number of references held, when d is e modulo the word size. */
  lemma TrueCountKept(s: State, s': State, c: CpuId, x: CounterId, d: Ulong, e: int)
    requires x in s.counters && x in s'.counters && CounterInv(s, x) && s.counters[x].live
    requires c < |s.caches| && SlotFree(s.caches[c], x) && (d - e) % WORD == 0
    requires |s'.caches| == |s.caches| && s'.caches == s.caches[c := s'.caches[c]]
    requires s'.caches[c].deltas == AddDelta(s.caches[c], x, d).deltas
    requires s'.counters[x].value == s.counters[x].value && s'.counters[x].refs == s.counters[x].refs + e
    ensures (s'.counters[x].value + SumDeltas(s'.caches, x) - s'.counters[x].refs) % WORD == 0
  {
    SumUpdate(s.caches, c, s'.caches[c], x);
    var a := s.counters[x].value + SumDeltas(s.caches, x) - s.counters[x].refs;
    var b := DeltaOf(s'.caches[c], x) - DeltaOf(s.caches[c], x);
    assert b == d || b == d - WORD;
    assert (a + b - e) % WORD == 0;
  }

  /** Taking a reference keeps the pending processors honest: a held counter is already referred to. */
  lemma AddDeltaEpoch(s: State, s': State, c: CpuId, x: CounterId)
    requires x in s.counters && CounterInv(s, x) && s.current < 2 && EpochInv(s, x) && c < |s.caches|
    requires x in s'.counters && s'.current == s.current && s'.pending == s.pending
    requires |s'.caches| == |s.caches| && s'.caches == s.caches[c := s'.caches[c]]
    requires Refers(s'.caches[c], x)
    requires Refers(s.caches[c], x) || s.counters[x].refs > 0
    requires s'.counters[x] == s.counters[x].(refs := s'.counters[x].refs)
    ensures EpochInv(s', x)
  {
    HeldIsReferred(s, x);
    if PendingRefers(s, x) {
      var d :| d in s.pending && d < |s.caches| && Refers(s.caches[d], x);
      assert Refers(s'.caches[d], x);
    }
  }

  lemma AddDeltaCache(s: State, s': State, c: CpuId, x: CounterId, d: Ulong)
    requires Wf(s) && CpusInv(s) && c in s.registered && x in s.counters
    requires |s'.caches| == |s.caches| && s'.caches == s.caches[c := s'.caches[c]]
    requires s'.caches[c].deltas == AddDelta(s.caches[c], x, d).deltas && s'.caches[c].dirty
    requires s'.caches[c].manager == s.caches[c].manager
    requires s'.caches[c].getting == None || s'.caches[c].getting == s.caches[c].getting
    requires s'.counters.Keys == s.counters.Keys && s' == s.(counters := s'.counters, caches := s'.caches)
    ensures Wf(s') && CpusInv(s')
  {
    assert CacheInv(s, c);
    CpusFrame(s, s', c);
  }

  /** DoInc, DoDec and DoFinishGet in one: x gains a delta of d and clients hold e more references. */
  ghost predicate Adds(s: State, s': State, c: CpuId, x: CounterId, d: Ulong, e: int) {
    && c in s.registered && c < |s.caches| && |s'.caches| == |s.caches| && x in s.counters && SlotFree(s.caches[c], x)
    && (s.counters[x].refs > 0 || s.caches[c].getting == Some(x))
    && (d - e) % WORD == 0 && 0 <= s.counters[x].refs + e < WORD
    && s' == s.(counters := s.counters[x := s.counters[x].(refs := s.counters[x].refs + e)],
                caches := s.caches[c := AddDelta(s.caches[c], x, d).(getting := s'.caches[c].getting)])
    && (s'.caches[c].getting == s.caches[c].getting
        || (s.caches[c].getting == Some(x) && s'.caches[c].getting == None))
  }

  lemma AddCounter(s: State, s': State, c: CpuId, x: CounterId, d: Ulong, e: int)
    requires Adds(s, s', c, x, d, e) && CounterInv(s, x) && s.current < 2 && EpochInv(s, x)
    ensures CounterInv(s', x) && EpochInv(s', x)
  {
    assert Refers(s'.caches[c], x);
    assert s.counters[x].live by { assert s.caches[c].getting == Some(x) ==> Refers(s.caches[c], x); }
    TrueCountKept(s, s', c, x, d, e);
    AddDeltaEpoch(s, s', c, x);
  }

  lemma AddInv(s: State, s': State, c: CpuId, x: CounterId, d: Ulong, e: int)
    requires Inv(s) && Adds(s, s', c, x, d, e)
    ensures Inv(s')
  {
    AddDeltaCache(s, s', c, x, d);
    ListsKept(s, s', c);
    AddCounter(s, s', c, x, d, e);
    forall y | y in s'.counters && y != x ensures Untouched(s, s', c, y) { AddDeltaView(s.caches[c], x, d, y); }
    OneCounter(s, s', c, x);
  }

  lemma IncInv(s: State, c: CpuId, x: CounterId)
    requires Inv(s) && Enabled(s, Inc(c, x))
    ensures Inv(DoInc(s, c, x))
  {
    AddInv(s, DoInc(s, c, x), c, x, 1, 1);
  }

  lemma DecInv(s: State, c: CpuId, x: CounterId)
    requires Inv(s) && Enabled(s, Dec(c, x))
    ensures Inv(DoDec(s, c, x))
  {
    AddInv(s, DoDec(s, c, x), c, x, WORD - 1, -1);
  }

  lemma FinishGetInv(s: State, c: CpuId)
    requires Inv(s) && Enabled(s, FinishGet(c))
    ensures Inv(DoFinishGet(s, c))
  {
    AddInv(s, DoFinishGet(s, c), c, s.caches[c].getting.value, 1, 1);
  }

  lemma TryGetCounter(s: State, c: CpuId, x: CounterId)
    requires x in s.counters && c < |s.caches| && CounterInv(s, x) && s.current < 2
    requires s.counters[x].weak != Null && s.counters[x].weak != NoWeak
    ensures CounterInv(DoTryGet(s, c, x), x) && EpochInv(DoTryGet(s, c, x), x)
  {
    SumUpdate(s.caches, c, DoTryGet(s, c, x).caches[c], x);
  }

  lemma TryGetInv(s: State, c: CpuId, x: CounterId)
    requires Inv(s) && Enabled(s, TryGet(c, x))
    ensures Inv(DoTryGet(s, c, x))
  {
    hide CounterInv, EpochInv, ListsInv;
    var s' := DoTryGet(s, c, x);
    if s.counters[x].weak != Null {
      assert CounterInv(s, x) && CacheInv(s, c);
      CpusFrame(s, s', c);
      ListsKept(s, s', c);
      TryGetCounter(s, c, x);
      OneCounter(s, s', c, x);
    }
  }

  // ---------------------------------------------------------------- adding a delta to its counter

  /** The counter is appended to the current queue. */
  ghost predicate Pushes(s: State, s': State, x: CounterId) {
    && Wf(s) && x in s.counters && s.counters[x].place == Nowhere
    && s'.queues == s.queues[s.current := s.queues[s.current] + [x]]
    && (forall c :: ListAt(s', InReview(c)) == ListAt(s, InReview(c)))
    && s'.counters.Keys == s.counters.Keys && s'.counters[x].place == Queued(s.current)
    && (forall y | y in s.counters && y != x :: s'.counters[y].place == s.counters[y].place)
  }

  lemma PushList(s: State, s': State, x: CounterId, p: Place)
    requires Pushes(s, s', x) && ListsInv(s)
    ensures ListAt(s', p) == if p == Queued(s.current) then ListAt(s, p) + [x] else ListAt(s, p)
    ensures NoDup(ListAt(s', p)) && x !in ListAt(s, p)
  {
    assert NoDup(ListAt(s, p));
  }

  lemma ListsPush(s: State, s': State, x: CounterId)
    requires Pushes(s, s', x) && ListsInv(s)
    ensures ListsInv(s')
  {
    forall p: Place ensures NoDup(ListAt(s', p)) { PushList(s, s', x, p); }
    forall p: Place, y | y in ListAt(s', p) ensures y in s'.counters && s'.counters[y].place == p {
      PushList(s, s', x, p);
    }
    forall y | y in s'.counters && s'.counters[y].place != Nowhere ensures y in ListAt(s', s'.counters[y].place) {
      PushList(s, s', x, s'.counters[y].place);
    }
  }

  /** The state with the delta removed, before it is added to its counter. */
  function Evicted(s: State, c: CpuId, i: nat): State
    requires c < |s.caches|
  {
    s.(caches := s.caches[c := s.caches[c].(deltas := Remove(s.caches[c].deltas, i))])
  }

  lemma EvictCpus(s: State, c: CpuId, i: nat)
    requires Wf(s) && CpusInv(s) && Enabled(s, Evict(c, i))
    ensures Wf(DoEvict(s, c, i)) && CpusInv(DoEvict(s, c, i))
  {
    assert CacheInv(s, c);
    CpusFrame(s, DoEvict(s, c, i), c);
  }

  lemma EvictLists(s: State, c: CpuId, i: nat)
    requires Wf(s) && ListsInv(s) && Enabled(s, Evict(c, i)) && CounterInv(s, s.caches[c].deltas[i].counter)
    ensures ListsInv(DoEvict(s, c, i))
  {
    var s', t, d := DoEvict(s, c, i), Evicted(s, c, i), s.caches[c].deltas[i];
    var k := s.counters[d.counter];
    ListsKept(s, t, c);
    if AddWrap(k.value, d.value) == 0 && !k.queued {
      ListsPush(t, s', d.counter);
    } else {
      ListsKept(t, s', c);
    }
  }

  lemma EvictCounter(s: State, c: CpuId, i: nat)
    requires Wf(s) && CpusInv(s) && Enabled(s, Evict(c, i))
    requires CounterInv(s, s.caches[c].deltas[i].counter)
    ensures CounterInv(DoEvict(s, c, i), s.caches[c].deltas[i].counter)
    ensures EpochInv(DoEvict(s, c, i), s.caches[c].deltas[i].counter)
    ensures Asserts(s, Evict(c, i))
  {
    var s', x := DoEvict(s, c, i), s.caches[c].deltas[i].counter;
    assert CacheInv(s, c);
    assert Refers(s.caches[c], x);
    SumUpdate(s.caches, c, s'.caches[c], x);
    assert DeltaOf(s'.caches[c], x) == 0;
    var a := s.counters[x].value + SumDeltas(s.caches, x) - s.counters[x].refs;
    var b := s'.counters[x].value + SumDeltas(s'.caches, x) - s'.counters[x].refs;
    assert b == a || b == a - WORD;
  }

  lemma EvictView(s: State, c: CpuId, i: nat, y: CounterId)
    requires Wf(s) && CpusInv(s) && Enabled(s, Evict(c, i)) && y in s.counters && y != s.caches[c].deltas[i].counter
    ensures Untouched(s, DoEvict(s, c, i), c, y)
  {
    assert CacheInv(s, c);
  }

  lemma EvictInv(s: State, c: CpuId, i: nat)
    requires Inv(s) && Enabled(s, Evict(c, i))
    ensures Inv(DoEvict(s, c, i)) && Asserts(s, Evict(c, i))
  {
    var s', x := DoEvict(s, c, i), s.caches[c].deltas[i].counter;
    EvictCpus(s, c, i);
    EvictLists(s, c, i);
    EvictCounter(s, c, i);
    forall y | y in s'.counters && y != x ensures Untouched(s, s', c, y) { EvictView(s, c, i, y); }
    OneCounter(s, s', c, x);
  }

  // ---------------------------------------------------------------- flushing

  /** A step of c that changes neither its deltas nor any counter. */
  lemma ManagerInv(s: State, s': State, c: CpuId)
    requires Inv(s) && Ready(s, c) && |s'.caches| == |s.caches|
    requires s' == s.(caches := s.caches[c := s.caches[c].(manager := s'.caches[c].manager, dirty := s'.caches[c].dirty)])
    requires ListAt(s', InReview(c)) == ListAt(s, InReview(c))
    requires s.caches[c].dirty && !s'.caches[c].dirty ==> s.caches[c].deltas == map[]
    requires s'.caches[c].manager == Flushing ==> s'.caches[c].dirty
    ensures Inv(s')
  {
    assert CacheInv(s, c);
    CpusFrame(s, s', c);
    ListsKept(s, s', c);
    NoCounter(s, s', c);
  }

  lemma SubsetSize(a: set<CpuId>, c: CpuId)
    requires c in a
    ensures |a - {c}| == |a| - 1 && (|a| == 1 ==> a == {c})
  {
    assert |a| == 1 ==> a - {c} == {};
  }

  lemma PendingLessCounter(s: State, s': State, c: CpuId, x: CounterId)
    requires x in s.counters && CounterInv(s, x) && s.current < 2 && EpochInv(s, x)
    requires s' == s.(pending := s.pending - {c}, nrPending := s'.nrPending)
    requires c < |s.caches| ==> !Refers(s.caches[c], x)
    ensures CounterInv(s', x) && EpochInv(s', x)
  {
    if PendingRefers(s, x) {
      var d :| d in s.pending && d < |s.caches| && Refers(s.caches[d], x);
      assert d in s'.pending;
    }
  }

  /** A processor that refers to nothing leaves the pending set, and is not the last. */
  lemma PendingLess(s: State, c: CpuId)
    requires Inv(s) && Ready(s, c) && c in s.pending && s.nrPending != 1 && s.caches[c].deltas == map[]
    ensures Inv(s.(pending := s.pending - {c}, nrPending := s.nrPending - 1))
  {
    var s' := s.(pending := s.pending - {c}, nrPending := s.nrPending - 1);
    SubsetSize(s.pending, c);
    assert CpusInv(s') by {
      forall d | 0 <= d < |s.caches| ensures CacheInv(s', d) { assert CacheInv(s, d); }
    }
    assert ListsInv(s') by { ListsKept(s, s', c); }
    forall x | x in s'.counters ensures CounterInv(s', x) && EpochInv(s', x) { PendingLessCounter(s, s', c, x); }
  }

  /** The queues an epoch hands over, with no pending processor left. */
  function Ended(s: State, c: CpuId): State
    requires |s.queues| == 2 && s.current < 2 && c < |s.caches|
  {
    EndEpoch(s.(pending := {}, nrPending := 0), c)
  }

  lemma ConcatDistinct(s: State, i: nat, j: nat)
    requires Wf(s) && ListsInv(s) && i < 2 && j < 2 && i != j
    ensures NoDup(s.queues[i] + s.queues[j])
  {
    var p, q := s.queues[i], s.queues[j];
    assert ListAt(s, Queued(i)) == p && ListAt(s, Queued(j)) == q;
    assert NoDup(p) && NoDup(q);
    assert forall x | x in p :: s.counters[x].place == Queued(i);
    assert forall x | x in q :: s.counters[x].place == Queued(j);
    forall a, b | 0 <= a < |p| && 0 <= b < |q| ensures p[a] != q[b] {
      assert p[a] in p && q[b] in q;
    }
  }

  lemma EndEpochDistinct(s: State, c: CpuId, p: Place)
    requires Wf(s) && ListsInv(s) && c < |s.caches| && s.caches[c].manager == Reviewing([])
    ensures NoDup(ListAt(Ended(s, c), p))
  {
    ConcatDistinct(s, 1 - s.current, s.current);
    assert NoDup(ListAt(s, Queued(1 - s.current)));
    if p != InReview(c) {
      assert NoDup(ListAt(s, p));
      assert ListAt(Ended(s, c), p) == ListAt(s, p) || ListAt(Ended(s, c), p) == [];
    }
  }

  lemma EndEpochSound(s: State, c: CpuId, p: Place, x: CounterId)
    requires Wf(s) && ListsInv(s) && c < |s.caches| && s.caches[c].manager == Reviewing([])
    requires x in ListAt(Ended(s, c), p)
    ensures x in s.counters && Ended(s, c).counters[x].place == p
  {
    assert s.queues[0] == ListAt(s, Queued(0)) && s.queues[1] == ListAt(s, Queued(1));
    assert p != InReview(c) ==> x in ListAt(s, p);
    assert p == InReview(c) ==> x in s.queues[0] || x in s.queues[1];
  }

  lemma EndEpochComplete(s: State, c: CpuId, x: CounterId)
    requires Wf(s) && ListsInv(s) && c < |s.caches| && s.caches[c].manager == Reviewing([])
    requires x in s.counters && Ended(s, c).counters[x].place != Nowhere
    ensures x in ListAt(Ended(s, c), Ended(s, c).counters[x].place)
  {
    assert s.queues[0] == ListAt(s, Queued(0)) && s.queues[1] == ListAt(s, Queued(1));
    assert s.counters[x].place != Nowhere ==> x in ListAt(s, s.counters[x].place);
  }

  lemma EndEpochWf(s: State, c: CpuId)
    requires Wf(s) && ListsInv(s) && c < |s.caches| && s.caches[c].manager == Reviewing([])
    ensures Wf(Ended(s, c))
  {
    var s' := Ended(s, c);
    forall d, x | 0 <= d < |s'.caches| && s'.caches[d].manager.Reviewing? && x in s'.caches[d].manager.queue
      ensures x in s'.counters
    {
      assert x in ListAt(s', InReview(d));
      EndEpochSound(s, c, InReview(d), x);
    }
  }

  lemma EndEpochLists(s: State, c: CpuId)
    requires Wf(s) && ListsInv(s) && c < |s.caches| && s.caches[c].manager == Reviewing([])
    ensures ListsInv(Ended(s, c)) && Wf(Ended(s, c))
  {
    var s' := Ended(s, c);
    EndEpochWf(s, c);
    forall p: Place ensures NoDup(ListAt(s', p)) { EndEpochDistinct(s, c, p); }
    forall p: Place, x | x in ListAt(s', p) ensures x in s'.counters && s'.counters[x].place == p {
      EndEpochSound(s, c, p, x);
    }
    forall x | x in s'.counters && s'.counters[x].place != Nowhere ensures x in ListAt(s', s'.counters[x].place) {
      EndEpochComplete(s, c, x);
    }
  }

  lemma EndEpochCpus(s: State, c: CpuId)
    requires Wf(s) && CpusInv(s) && ListsInv(s) && c in s.registered
    ensures CpusInv(Ended(s, c))
  {
    var s' := Ended(s, c);
    assert s'.registered == s.registered && s'.pending == s.registered;
    forall d | 0 <= d < |s.caches| ensures CacheInv(s', d) { assert CacheInv(s, d); }
  }

  lemma EndEpochViews(s: State, c: CpuId, x: CounterId)
    requires Wf(s) && c < |s.caches|
    ensures SumDeltas(Ended(s, c).caches, x) == SumDeltas(s.caches, x)
    ensures |Ended(s, c).caches| == |s.caches|
    ensures forall d | 0 <= d < |s.caches| :: Refers(Ended(s, c).caches[d], x) == Refers(s.caches[d], x)
    ensures Unreferred(Ended(s, c), x) <==> Unreferred(s, x)
  {
    SumUpdate(s.caches, c, Ended(s, c).caches[c], x);
    forall d | 0 <= d < |s.caches| ensures Refers(Ended(s, c).caches[d], x) == Refers(s.caches[d], x) {}
  }

  /** Whoever refers to a counter at the end of an epoch must flush in the next one; a single processor
      that has just flushed refers to nothing. */
  lemma NextEpoch(s: State, c: CpuId, x: CounterId)
    requires Wf(s) && CpusInv(s) && Ready(s, c) && s.caches[c].deltas == map[]
    ensures Unreferred(s, x) || (s.nrRegistered != 1 && PendingRefers(Ended(s, c), x))
  {
    if !Unreferred(s, x) {
      var d :| 0 <= d < |s.caches| && Refers(s.caches[d], x);
      EndEpochViews(s, c, x);
      assert CacheInv(s, d);
      assert Refers(Ended(s, c).caches[d], x) && d in s.registered;
      SubsetSize(s.registered, c);
    }
  }

  lemma EndEpochPlace(s: State, c: CpuId, x: CounterId)
    requires Wf(s) && ListsInv(s) && c < |s.caches| && s.caches[c].manager == Reviewing([]) && x in s.counters
    ensures Ended(s, c).counters[x] == s.counters[x].(place := Ended(s, c).counters[x].place)
    ensures (Ended(s, c).counters[x].place != Nowhere) == (s.counters[x].place != Nowhere)
    ensures Ended(s, c).counters[x].place == Queued(1 - Ended(s, c).current) ==> s.nrRegistered != 1
    ensures Ended(s, c).counters[x].place.InReview? ==>
              s.counters[x].place.InReview? || s.counters[x].place == Queued(1 - s.current) || s.nrRegistered == 1
  {
    assert s.queues[0] == ListAt(s, Queued(0)) && s.queues[1] == ListAt(s, Queued(1));
    assert s.counters[x].place != Nowhere ==> x in ListAt(s, s.counters[x].place);
  }

  lemma EndEpochCounter(s: State, c: CpuId, x: CounterId)
    requires Wf(s) && ListsInv(s) && c < |s.caches| && s.caches[c].manager == Reviewing([])
    requires x in s.counters && CounterInv(s, x)
    ensures CounterInv(Ended(s, c), x)
  {
    EndEpochViews(s, c, x);
    EndEpochPlace(s, c, x);
  }

  /** At the end of an epoch no delta is left behind: what goes to review is either known to be alive, or
      referred to by nobody. */
  lemma EndEpochQuiet(s: State, c: CpuId, x: CounterId)
    requires Wf(s) && CpusInv(s) && ListsInv(s) && x in s.counters && EpochInv(s, x)
    requires Ready(s, c) && s.pending == {c} && s.caches[c].deltas == map[]
    requires s.caches[c].manager == Reviewing([])
    ensures EpochInv(Ended(s, c), x)
  {
    EndEpochViews(s, c, x);
    NextEpoch(s, c, x);
    EndEpochPlace(s, c, x);
  }

  lemma EndEpochInv(s: State, c: CpuId)
    requires Inv(s) && Ready(s, c) && s.pending == {c} && s.caches[c].deltas == map[]
    requires s.caches[c].manager == Reviewing([])
    ensures Inv(Ended(s, c))
  {
    EndEpochLists(s, c);
    EndEpochCpus(s, c);
    forall x | x in s.counters ensures CounterInv(Ended(s, c), x) && EpochInv(Ended(s, c), x) {
      EndEpochCounter(s, c, x);
      EndEpochQuiet(s, c, x);
    }
  }

  lemma FlushEndInv(s: State, c: CpuId)
    requires Inv(s) && Enabled(s, FlushEnd(c))
    ensures Inv(DoFlushEnd(s, c)) && Asserts(s, FlushEnd(c))
  {
    var t := SetManager(s.(caches := s.caches[c := s.caches[c].(dirty := false)]), c, Reviewing([]));
    ManagerInv(s, t, c);
    if c in s.pending {
      SubsetSize(s.pending, c);
      if s.nrPending == 1 {
        EndEpochInv(t, c);
      } else {
        PendingLess(t, c);
      }
    }
  }

  // ---------------------------------------------------------------- reviewing

  /** The counter at the head of c's review list, unlinked. */
  function Popped(s: State, c: CpuId): State
    requires Wf(s) && Enabled(s, Review(c))
  {
    var q := s.caches[c].manager.queue;
    SetManager(s, c, Reviewing(q[1..])).(
      counters := s.counters[q[0] := s.counters[q[0]].(queued := false, place := Nowhere)])
  }

  lemma PopLists(s: State, c: CpuId)
    requires Wf(s) && ListsInv(s) && Enabled(s, Review(c))
    ensures ListsInv(Popped(s, c)) && Wf(Popped(s, c))
    ensures s.counters[s.caches[c].manager.queue[0]].place == InReview(c)
  {
    var s', q := Popped(s, c), s.caches[c].manager.queue;
    var here := InReview(c);
    assert ListAt(s, here) == q && ListAt(s', here) == q[1..] && NoDup(ListAt(s, here));
    forall p: Place ensures NoDup(ListAt(s', p)) && (p != here ==> ListAt(s', p) == ListAt(s, p)) {
      assert NoDup(ListAt(s, p));
    }
    forall p: Place, y | y in ListAt(s', p) ensures y in s'.counters && s'.counters[y].place == p {
      assert y in ListAt(s, p);
    }
    forall y | y in s'.counters && s'.counters[y].place != Nowhere ensures y in ListAt(s', s'.counters[y].place) {
      assert y in ListAt(s, s.counters[y].place);
    }
  }

  lemma ReviewLists(s: State, c: CpuId)
    requires Wf(s) && ListsInv(s) && Enabled(s, Review(c))
    ensures ListsInv(DoReview(s, c)) && Wf(DoReview(s, c))
  {
    var x, t, s' := s.caches[c].manager.queue[0], Popped(s, c), DoReview(s, c);
    var k := s.counters[x];
    PopLists(s, c);
    if k.value == 0 && (k.dirty || k.weak == Alive) {
      ListsPush(t, s', x);
    } else {
      ListsKept(t, s', c);
    }
  }

  lemma ReviewCpus(s: State, c: CpuId)
    requires Wf(s) && CpusInv(s) && Enabled(s, Review(c))
    ensures CpusInv(DoReview(s, c))
  {
    assert CacheInv(s, c);
    CpusFrame(s, DoReview(s, c), c);
  }

  lemma ReviewCounter(s: State, c: CpuId)
    requires Wf(s) && Enabled(s, Review(c))
    requires var x := s.caches[c].manager.queue[0];
             CounterInv(s, x) && EpochInv(s, x) && s.counters[x].place == InReview(c)
    ensures var x := s.caches[c].manager.queue[0]; CounterInv(DoReview(s, c), x) && EpochInv(DoReview(s, c), x)
    ensures Asserts(s, Review(c))
  {
    var x, s' := s.caches[c].manager.queue[0], DoReview(s, c);
    SumUpdate(s.caches, c, s'.caches[c], x);
    forall d | 0 <= d < |s.caches| ensures Refers(s'.caches[d], x) == Refers(s.caches[d], x) {}
    assert Quiet(s.counters[x]) ==> Unreferred(s, x);
    HeldIsReferred(s, x);
  }

  lemma ReviewInv(s: State, c: CpuId)
    requires Inv(s) && Enabled(s, Review(c))
    ensures Inv(DoReview(s, c)) && Asserts(s, Review(c))
  {
    var x := s.caches[c].manager.queue[0];
    ReviewCpus(s, c);
    ReviewLists(s, c);
    PopLists(s, c);
    ReviewCounter(s, c);
    OneCounter(s, DoReview(s, c), c, x);
  }

  // ---------------------------------------------------------------- registration

  lemma RegisterCpus(s: State, c: CpuId)
    requires Wf(s) && CpusInv(s) && Enabled(s, Register(c))
    ensures CpusInv(DoRegister(s, c)) && Wf(DoRegister(s, c)) && Asserts(s, Register(c))
    ensures DoRegister(s, c).pending == s.pending || s.queues == [[], []]
  {
    var s' := DoRegister(s, c);
    assert CacheInv(s, c);
    forall d | 0 <= d < |s.caches| ensures CacheInv(s', d) { assert CacheInv(s, d); }
    if s.registered == {} {
      assert s'.registered == {c};
    } else {
      var d :| d in s.pending;
      SubsetSize(s.pending, d);
    }
  }

  /** The registered processors change, and the pending ones with them only when the queues are empty. */
  lemma CountersStay(s: State, s': State, c: CpuId, x: CounterId)
    requires Wf(s) && ListsInv(s) && x in s.counters && CounterInv(s, x) && EpochInv(s, x)
    requires s'.counters == s.counters && s'.caches == s.caches && s'.current == s.current
    requires s'.pending == s.pending || s.queues == [[], []]
    ensures CounterInv(s', x) && EpochInv(s', x)
  {
    assert s.counters[x].place != Nowhere ==> x in ListAt(s, s.counters[x].place);
  }

  lemma RegisterInv(s: State, c: CpuId)
    requires Inv(s) && Enabled(s, Register(c))
    ensures Inv(DoRegister(s, c)) && Asserts(s, Register(c))
  {
    var s' := DoRegister(s, c);
    RegisterCpus(s, c);
    ListsKept(s, s', c);
    forall x | x in s'.counters ensures CounterInv(s', x) && EpochInv(s', x) { CountersStay(s, s', c, x); }
  }

  lemma UnregisterCpus(s: State, c: CpuId)
    requires Wf(s) && CpusInv(s) && Enabled(s, Unregister(c))
    ensures Asserts(s, Unregister(c))
    ensures var (s', ok) := DoUnregister(s, c);
            ok ==> CpusInv(s') && Wf(s') && (s'.pending == s.pending || s.queues == [[], []])
  {
    var (s', ok) := DoUnregister(s, c);
    assert CacheInv(s, c);
    if ok {
      SubsetSize(s.registered, c);
      forall d | 0 <= d < |s.caches| ensures CacheInv(s', d) { assert CacheInv(s, d); }
      if c in s.pending {
        SubsetSize(s.pending, c);
        assert s.queues == [[], []];
      }
    }
  }

  lemma UnregisterInv(s: State, c: CpuId)
    requires Inv(s) && Enabled(s, Unregister(c))
    ensures Inv(DoUnregister(s, c).0) && Asserts(s, Unregister(c))
  {
    var (s', ok) := DoUnregister(s, c);
    UnregisterCpus(s, c);
    if !ok {
      ManagerInv(s, s', c);
    } else {
      ListsKept(s, s', c);
      forall x | x in s'.counters ensures CounterInv(s', x) && EpochInv(s', x) { CountersStay(s, s', c, x); }
    }
  }

  // ---------------------------------------------------------------- runs

  /** Every step from a good state leads to a good state, and none of the code's assertions fails. */
  lemma StepInv(s: State, step: Step)
    requires Inv(s) && Enabled(s, step)
    ensures Inv(Apply(s, step)) && Asserts(s, step)
  {
    match step
    case Init(x, v, weak) => InitInv(s, x, v, weak);
    case Inc(c, x) => IncInv(s, c, x);
    case Dec(c, x) => DecInv(s, c, x);
    case TryGet(c, x) => TryGetInv(s, c, x);
    case FinishGet(c) => FinishGetInv(s, c);
    case Evict(c, i) => EvictInv(s, c, i);
    case Periodic(c) => ManagerStepInv(s, step);
    case Wake(c) => ManagerStepInv(s, step);
    case FlushEnd(c) => FlushEndInv(s, c);
    case Review(c) => ReviewInv(s, c);
    case ReviewDone(c) => ManagerStepInv(s, step);
    case Register(c) => RegisterInv(s, c);
    case Unregister(c) => UnregisterInv(s, c);
  }

  lemma ManagerStepInv(s: State, step: Step)
    requires Inv(s) && Enabled(s, step) && (step.Periodic? || step.Wake? || step.ReviewDone?)
    ensures Inv(Apply(s, step))
  {
    assert CacheInv(s, step.c);
    ManagerInv(s, Apply(s, step), step.c);
  }

  /** to is reached from s by taking the steps in order. */
  ghost predicate Run(s: State, steps: seq<Step>, to: State)
    decreases |steps|
  {
    if steps == [] then s == to
    else Wf(s) && Enabled(s, steps[0]) && Run(Apply(s, steps[0]), steps[1..], to)
  }

  lemma {:induction false} RunInv(s: State, steps: seq<Step>, to: State)
    requires Inv(s) && Run(s, steps, to)
    ensures Inv(to)
    decreases |steps|
  {
    if steps != [] {
      StepInv(s, steps[0]);
      RunInv(Apply(s, steps[0]), steps[1..], to);
    }
  }

  ghost predicate Lives(s: State, x: CounterId) { x in s.counters && s.counters[x].live }

  /** The number of references held: the global value plus every delta, modulo the word size. */
  function TrueCount(s: State, x: CounterId): nat
    requires x in s.counters
  {
    (s.counters[x].value + SumDeltas(s.caches, x)) % WORD
  }

  /** In every run, the true count of a counter is the number of references clients hold, wherever the
      deltas are; and a zero global value is always on its way to review. */
  lemma TrueCountIsRefs(s: State, steps: seq<Step>, to: State, x: CounterId)
    requires Initial(s) && Run(s, steps, to) && Lives(to, x)
    ensures TrueCount(to, x) == to.counters[x].refs
    ensures to.counters[x].value == 0 ==> |to.queues| == 2 && x in ListAt(to, to.counters[x].place)
  {
    InitialInv(s);
    RunInv(s, steps, to);
    assert CounterInv(to, x);
  }

  /** What it means that a counter is gone: nobody holds it, no cache mentions it, no weak reference
      leads to it. */
  ghost predicate Gone(s: State, x: CounterId) {
    && x in s.counters && !s.counters[x].live && s.counters[x].refs == 0 && Unreferred(s, x)
    && (s.counters[x].weak == NoWeak || s.counters[x].weak == Null)
  }

  lemma LivesUntilReview(s: State, step: Step, x: CounterId)
    requires Wf(s) && Enabled(s, step) && Lives(s, x) && s.counters[x].weak != Null
    ensures !Lives(Apply(s, step), x) ==>
              step.Review? && s.caches[step.c].manager.queue[0] == x && Quiet(s.counters[x])
  {
  }

  lemma ReviewKills(s: State, step: Step, x: CounterId)
    requires Inv(s) && Enabled(s, step) && Lives(s, x) && !Lives(Apply(s, step), x)
    ensures step.Review? && s.caches[step.c].manager.queue[0] == x
    ensures s.counters[x].refs == 0 && Unreferred(s, x)
  {
    assert CounterInv(s, x) && EpochInv(s, x);
    LivesUntilReview(s, step, x);
    PopLists(s, step.c);
    HeldIsReferred(s, x);
  }

  /** The no-reference work of a counter is queued only when its true count is 0 and nothing refers to it. */
  lemma NoRefIsTrue(s: State, steps: seq<Step>, to: State, step: Step, x: CounterId)
    requires Initial(s) && Run(s, steps, to) && Wf(to) && Enabled(to, step)
    requires Lives(to, x) && !Lives(Apply(to, step), x)
    ensures step.Review? && to.caches[step.c].manager.queue[0] == x
    ensures TrueCount(to, x) == 0 && to.counters[x].refs == 0 && Unreferred(to, x)
    ensures Gone(Apply(to, step), x)
  {
    TrueCountIsRefs(s, steps, to, x);
    InitialInv(s);
    RunInv(s, steps, to);
    ReviewKills(to, step, x);
    StepInv(to, step);
    assert x in Apply(to, step).counters;
    assert CounterInv(Apply(to, step), x);
  }

  /** Once gone, a counter stays gone until its memory is initialised again. */
  lemma {:induction false} GoneStays(s: State, steps: seq<Step>, to: State, x: CounterId)
    requires Inv(s) && Gone(s, x) && Run(s, steps, to)
    requires forall i | 0 <= i < |steps| :: !(steps[i].Init? && steps[i].x == x)
    ensures Gone(to, x)
    decreases |steps|
  {
    if steps != [] {
      StepInv(s, steps[0]);
      StaysDead(s, steps[0], x);
      assert CounterInv(Apply(s, steps[0]), x);
      GoneStays(Apply(s, steps[0]), steps[1..], to, x);
    }
  }

  lemma StaysDead(s: State, step: Step, x: CounterId)
    requires Wf(s) && Enabled(s, step) && x in s.counters && !s.counters[x].live
    requires !(step.Init? && step.x == x)
    ensures x in Apply(s, step).counters && !Apply(s, step).counters[x].live
  {
  }

  /** A weak-reference get returns only a counter that lives, and returns nothing for one that is gone. */
  lemma GetIsLive(s: State, steps: seq<Step>, to: State, c: CpuId, x: CounterId)
    requires Initial(s) && Run(s, steps, to) && Wf(to) && Enabled(to, TryGet(c, x))
    ensures DoTryGet(to, c, x).caches[c].getting == Some(x) <==> to.counters[x].live
  {
    InitialInv(s);
    RunInv(s, steps, to);
    assert CounterInv(to, x);
  }
}
