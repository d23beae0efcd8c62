// Grace periods of kern/rcu.c and the read side of kern/rcu_i.h, as a state machine.
//
// Each step is one atomic action of one processor (the steps a processor takes between
// two accesses to shared data), and any processor may take the next one.

module Rcu {
  import opened Common

  /** A 32-bit window ID; it starts 500 below the wrap-around. */
  type Wid = x: nat | x < 0x1_0000_0000

  const WINDOW_ID_INIT: Wid := 0x1_0000_0000 - 500

  function Next(w: Wid): Wid { if w == 0xffff_ffff then 0 else w + 1 }

  function Prev(w: Wid): (r: Wid)
    ensures Next(r) == w && r % 2 != w % 2
  {
    if w == 0 then 0xffff_ffff else w - 1
  }

  datatype GpState = WorkWindowFlip | ReaderWindowFlip | WorkFlush

  function Succ(g: GpState): GpState {
    match g
    case WorkWindowFlip => ReaderWindowFlip
    case ReaderWindowFlip => WorkFlush
    case WorkFlush => WorkWindowFlip
  }

  type CpuId = nat
  type ThreadId = nat

  /** One outermost read-side critical section: the serial-th one of a thread. */
  datatype Section = Section(thread: ThreadId, serial: nat)

  /** A deferred work. wid and open are history: the window it was deferred in, and the
      sections that were open at that moment. */
  datatype Work = Work(id: nat, wid: Wid, open: set<Section>)

  /** A thread with its rcu_reader; serial is history, cpu the processor running it. */
  datatype Thread = Thread(level: nat, linked: bool, wid: Wid, serial: nat, cpu: Option<CpuId>)

  /** Where a processor stands in one iteration of rcu_cpu_data_check_gp_state. Interrupts are
      disabled there, so nothing else happens on that processor until it is Idle again. */
  datatype Phase =
    | Idle
    | Acting(seen: GpState)
    | LastAck(seen: GpState)
    | Acked(seen: GpState)

  datatype Cpu = Cpu(gpState: GpState, workWid: Wid, readerWid: Wid, queues: seq<seq<Work>>,
                     current: ThreadId, phase: Phase)

  /** nrRefs is the window's reference counter and norefQueued says that it reached 0 and its
      no-reference function has not run yet. rcuRef is history: the initial reference is held. */
  datatype Window = Window(nrRefs: int, norefQueued: bool, active: bool, rcuRef: bool)

  datatype State = State(gpState: GpState, nrAcks: int, wid: Wid, windows: seq<Window>, timerArmed: bool,
                         cpus: map<CpuId, Cpu>, threads: map<ThreadId, Thread>, started: seq<Work>)

  // ---------------------------------------------------------------- sections

  ghost predicate InSection(s: State, x: Section) {
    x.thread in s.threads && s.threads[x.thread].level > 0 && s.threads[x.thread].serial == x.serial
  }

  function OpenSections(s: State): set<Section> {
    set t | t in s.threads && s.threads[t].level > 0 :: Section(t, s.threads[t].serial)
  }

  // ---------------------------------------------------------------- windows

  function Unref(s: State, w: Wid): State
    requires |s.windows| == 2
  {
    var win := s.windows[w % 2];
    s.(windows := s.windows[w % 2 := win.(nrRefs := win.nrRefs - 1,
                                            norefQueued := win.norefQueued || win.nrRefs == 1)])
  }

  function Ref(s: State, w: Wid): State
    requires |s.windows| == 2
  {
    var win := s.windows[w % 2];
    s.(windows := s.windows[w % 2 := win.(nrRefs := win.nrRefs + 1)])
  }

  /** rcu_data_update_gp_state. */
  function UpdateGpState(s: State, g: GpState): State {
    s.(nrAcks := |s.cpus|, gpState := g)
  }

  /** The two assertions of rcu_data_update_gp_state. */
  ghost predicate UpdateGpStateAsserts(s: State, g: GpState) {
    s.nrAcks == 0 && Succ(s.gpState) == g
  }

  /** rcu_reader_account: link the running reader, if it is in a critical section, to the reader
      window of its processor. */
  function Account(s: State, c: CpuId): State
    requires |s.windows| == 2 && c in s.cpus && s.cpus[c].current in s.threads
  {
    var t := s.cpus[c].current;
    var th := s.threads[t];
    if th.level == 0 || th.linked then s
    else
      Ref(s.(threads := s.threads[t := th.(linked := true, wid := s.cpus[c].readerWid)]), s.cpus[c].readerWid)
  }

  // ---------------------------------------------------------------- steps

  datatype Step =
    | Spawn(t: ThreadId)
    | ReadEnter(c: CpuId)
    | ReadLeave(c: CpuId)
    | Switch(c: CpuId, to: ThreadId)
    | Defer(c: CpuId, id: nat)
    | Act(c: CpuId)
    | Ack(c: CpuId)
    | Complete(c: CpuId)
    | Store(c: CpuId)
    | NoRef(w: Wid)
    | Timer

  /** The part of a state every step needs in order to be well defined. */
  ghost predicate Wf(s: State) {
    && |s.windows| == 2
    && s.cpus != map[]
    && (forall c | c in s.cpus :: s.cpus[c].current in s.threads && |s.cpus[c].queues| == 2)
  }

  /** When a step can be taken. Only what makes the step happen is asked for; the assertions of the
      code are proved, not assumed. */
  ghost predicate Enabled(s: State, step: Step)
    requires Wf(s)
  {
    match step
    case Spawn(t) => t !in s.threads
    case ReadEnter(c) => c in s.cpus && s.cpus[c].phase == Idle
    case ReadLeave(c) => c in s.cpus && s.cpus[c].phase == Idle && s.threads[s.cpus[c].current].level > 0
    case Switch(c, to) =>
      c in s.cpus && s.cpus[c].phase == Idle && to in s.threads && s.threads[to].cpu == None
    case Defer(c, id) =>
      c in s.cpus && s.cpus[c].phase == Idle && s.threads[s.cpus[c].current].level == 0
    case Act(c) => c in s.cpus && s.cpus[c].phase == Idle && s.cpus[c].gpState != s.gpState
    case Ack(c) => c in s.cpus && s.cpus[c].phase.Acting?
    case Complete(c) => c in s.cpus && s.cpus[c].phase.LastAck?
    case Store(c) => c in s.cpus && s.cpus[c].phase.Acked?
    case NoRef(w) => s.windows[w % 2].norefQueued
    case Timer => s.timerArmed
  }

  function Init(n: nat): State
    requires n > 0
  {
    var cur := WINDOW_ID_INIT % 2;
    var idle := Window(0, false, false, false);
    State(WorkFlush, 0, WINDOW_ID_INIT, [idle, idle][cur := Window(1, false, true, true)], true,
          map c: nat | 0 <= c < n :: Cpu(WorkFlush, WINDOW_ID_INIT, WINDOW_ID_INIT, [[], []], c, Idle),
          map t: nat | 0 <= t < n :: Thread(0, false, 0, 0, Some(t)),
          [])
  }

  /** thread_create: rcu_reader_init on a thread that does not run yet. */
  function DoSpawn(s: State, t: ThreadId): State {
    s.(threads := s.threads[t := Thread(0, false, 0, 0, None)])
  }

  /** rcu_read_enter on the running thread. */
  function DoReadEnter(s: State, c: CpuId): State
    requires Wf(s) && Enabled(s, ReadEnter(c))
  {
    var t := s.cpus[c].current;
    var th := s.threads[t];
    s.(threads := s.threads[t := th.(level := th.level + 1,
                                     serial := if th.level == 0 then th.serial + 1 else th.serial)])
  }

  /** rcu_read_leave: a linked reader leaving its outermost section drops its window reference. */
  function DoReadLeave(s: State, c: CpuId): State
    requires Wf(s) && Enabled(s, ReadLeave(c))
  {
    var t := s.cpus[c].current;
    var th := s.threads[t];
    if th.level == 1 && th.linked then
      Unref(s, th.wid).(threads := s.threads[t := th.(level := 0, linked := false)])
    else
      s.(threads := s.threads[t := th.(level := th.level - 1)])
  }

  /** The switch itself: to runs on c instead of its current thread. */
  function Dispatch(s: State, c: CpuId, to: ThreadId): State
    requires c in s.cpus && s.cpus[c].current in s.threads && to in s.threads
  {
    var from := s.cpus[c].current;
    var threads := s.threads[from := s.threads[from].(cpu := None)];
    s.(threads := threads[to := threads[to].(cpu := Some(c))], cpus := s.cpus[c := s.cpus[c].(current := to)])
  }

  /** A context switch, with rcu_report_context_switch on the outgoing thread. */
  function DoSwitch(s: State, c: CpuId, to: ThreadId): State
    requires Wf(s) && Enabled(s, Switch(c, to))
  {
    Dispatch(Account(s, c), c, to)
  }

  /** rcu_defer. */
  function DoDefer(s: State, c: CpuId, id: nat): State
    requires Wf(s) && Enabled(s, Defer(c, id))
  {
    var cpu := s.cpus[c];
    var w := Work(id, cpu.workWid, OpenSections(s));
    var i := cpu.workWid % 2;
    s.(cpus := s.cpus[c := cpu.(queues := cpu.queues[i := cpu.queues[i] + [w]])])
  }

  /** The processor sees a new global state and acts on it, before acknowledging. */
  function DoAct(s: State, c: CpuId): State
    requires Wf(s) && Enabled(s, Act(c))
  {
    var phase := Acting(s.gpState);
    match s.gpState
    case WorkWindowFlip =>
      s.(cpus := s.cpus[c := s.cpus[c].(workWid := Next(s.cpus[c].workWid), phase := phase)])
    case ReaderWindowFlip =>
      var a := Account(s, c);
      a.(cpus := a.cpus[c := a.cpus[c].(readerWid := Next(a.cpus[c].readerWid), phase := phase)])
    case WorkFlush =>
      var cpu := s.cpus[c];
      var i := Prev(cpu.workWid) % 2;
      s.(started := s.started + cpu.queues[i],
         cpus := s.cpus[c := cpu.(queues := cpu.queues[i := []], phase := phase)])
  }

  /** The fetch-and-subtract of rcu_data_ack_cpu. */
  function DoAck(s: State, c: CpuId): State
    requires Wf(s) && Enabled(s, Ack(c))
  {
    var cpu := s.cpus[c];
    s.(nrAcks := s.nrAcks - 1,
       cpus := s.cpus[c := cpu.(phase := if s.nrAcks == 1 then LastAck(cpu.phase.seen) else Acked(cpu.phase.seen))])
  }

  /** The rest of rcu_data_ack_cpu, on the processor that acknowledged last. */
  function DoComplete(s: State, c: CpuId): State
    requires Wf(s) && Enabled(s, Complete(c))
  {
    var prev := Prev(s.wid) % 2;
    var a := s.(cpus := s.cpus[c := s.cpus[c].(phase := Acked(s.cpus[c].phase.seen))]);
    match s.gpState
    case WorkWindowFlip => UpdateGpState(a, ReaderWindowFlip)
    case ReaderWindowFlip =>
      var u := Unref(a, Prev(s.wid));
      u.(windows := u.windows[prev := u.windows[prev].(rcuRef := false)])
    case WorkFlush =>
      a.(windows := a.windows[prev := a.windows[prev].(active := false)], timerArmed := true)
  }

  /** The local copy of the grace-period state, stored last. */
  function DoStore(s: State, c: CpuId): State
    requires Wf(s) && Enabled(s, Store(c))
  {
    s.(cpus := s.cpus[c := s.cpus[c].(gpState := s.cpus[c].phase.seen, phase := Idle)])
  }

  /** rcu_window_flush, the no-reference function of a window's counter. */
  function DoNoRef(s: State, w: Wid): State
    requires Wf(s)
  {
    UpdateGpState(s.(windows := s.windows[w % 2 := s.windows[w % 2].(norefQueued := false)]), WorkFlush)
  }

  /** rcu_data_check_windows: flip the windows unless the previous one is still active. */
  function DoTimer(s: State): State
    requires Wf(s)
  {
    var prev := Prev(s.wid) % 2;
    if s.windows[prev].active then s
    else
      UpdateGpState(s.(windows := s.windows[prev := Window(1, false, true, true)],
                       wid := Next(s.wid), timerArmed := false), WorkWindowFlip)
  }

  function Apply(s: State, step: Step): State
    requires Wf(s) && Enabled(s, step)
  {
    match step
    case Spawn(t) => DoSpawn(s, t)
    case ReadEnter(c) => DoReadEnter(s, c)
    case ReadLeave(c) => DoReadLeave(s, c)
    case Switch(c, to) => DoSwitch(s, c, to)
    case Defer(c, id) => DoDefer(s, c, id)
    case Act(c) => DoAct(s, c)
    case Ack(c) => DoAck(s, c)
    case Complete(c) => DoComplete(s, c)
    case Store(c) => DoStore(s, c)
    case NoRef(w) => DoNoRef(s, w)
    case Timer => DoTimer(s)
  }

  /** The assertions the code makes in a step. */
  ghost predicate Asserts(s: State, step: Step)
    requires Wf(s) && Enabled(s, step)
  {
    match step
    case Act(c) => s.gpState == WorkFlush ==> s.cpus[c].workWid == s.cpus[c].readerWid
    case Ack(c) => s.nrAcks != 0
    case Complete(c) =>
      match s.gpState {
        case WorkWindowFlip => UpdateGpStateAsserts(s, ReaderWindowFlip)
        case ReaderWindowFlip => s.windows[Prev(s.wid) % 2].nrRefs > 0
        case WorkFlush => s.windows[Prev(s.wid) % 2].active
      }
    case NoRef(w) => UpdateGpStateAsserts(s, WorkFlush)
    case Timer => !s.windows[Prev(s.wid) % 2].active && UpdateGpStateAsserts(s, WorkWindowFlip)
    case ReadLeave(c) =>
      s.threads[s.cpus[c].current].linked ==> s.windows[s.threads[s.cpus[c].current].wid % 2].nrRefs > 0
    case _ => true
  }

  // ---------------------------------------------------------------- invariant

  /** The grace-period state a processor has acted on last. */
  function Seen(cpu: Cpu): GpState {
    if cpu.phase == Idle then cpu.gpState else cpu.phase.seen
  }

  predicate HasActed(s: State, c: CpuId)
    requires c in s.cpus
  {
    Seen(s.cpus[c]) == s.gpState
  }

  predicate HasAcked(s: State, c: CpuId)
    requires c in s.cpus
  {
    HasActed(s, c) && !s.cpus[c].phase.Acting?
  }

  function Unacked(s: State): set<CpuId> { set c | c in s.cpus && !HasAcked(s, c) }

  function LinkedTo(s: State, w: Wid): set<ThreadId> {
    set t | t in s.threads && s.threads[t].linked && s.threads[t].wid == w
  }

  /** What one processor knows, against the global state. */
  ghost predicate CpuInv(s: State, c: CpuId)
    requires c in s.cpus
  {
    var cpu := s.cpus[c];
    && (Seen(cpu) == s.gpState || Succ(Seen(cpu)) == s.gpState)
    && (cpu.phase != Idle ==> Succ(cpu.gpState) == cpu.phase.seen)
    && (cpu.phase.Acting? || cpu.phase.LastAck? ==> cpu.phase.seen == s.gpState)
    && (cpu.phase.LastAck? ==> s.nrAcks == 0)
    && cpu.workWid == (if s.gpState == WorkWindowFlip && !HasActed(s, c) then Prev(s.wid) else s.wid)
    && cpu.readerWid == (if s.gpState == WorkWindowFlip || (s.gpState == ReaderWindowFlip && !HasActed(s, c))
                         then Prev(s.wid) else s.wid)
  }

  /** A thread is linked only inside a critical section, to one of the two live windows, and
      only the thread running on a processor can be an unlinked reader. */
  ghost predicate ThreadInv(s: State, t: ThreadId)
    requires t in s.threads
  {
    var th := s.threads[t];
    && (th.linked ==> th.level > 0 && (th.wid == s.wid || th.wid == Prev(s.wid)))
    && (th.linked && s.gpState == WorkWindowFlip ==> th.wid == Prev(s.wid))
    && (th.level > 0 && !th.linked ==> th.cpu.Some?)
    && (th.cpu.Some? ==> th.cpu.value in s.cpus && s.cpus[th.cpu.value].current == t)
  }

  ghost predicate LastAckUnique(s: State) {
    forall c, d | c in s.cpus && d in s.cpus && s.cpus[c].phase.LastAck? && s.cpus[d].phase.LastAck? :: c == d
  }

  ghost predicate NoLastAck(s: State) {
    forall c | c in s.cpus :: !s.cpus[c].phase.LastAck?
  }

  function B(b: bool): int { if b then 1 else 0 }

  ghost predicate WindowsInv(s: State)
    requires |s.windows| == 2
  {
    var cur := s.windows[s.wid % 2];
    var prev := s.windows[Prev(s.wid) % 2];
    && cur.active && cur.rcuRef && !cur.norefQueued
    && cur.nrRefs == 1 + |LinkedTo(s, s.wid)|
    && prev.nrRefs == B(prev.rcuRef) + |LinkedTo(s, Prev(s.wid))|
    && (s.gpState == WorkWindowFlip ==> prev.active && prev.rcuRef && !prev.norefQueued && !s.timerArmed)
    && (s.gpState == ReaderWindowFlip ==>
          && prev.active && !s.timerArmed
          && (prev.rcuRef <==> s.nrAcks > 0 || !NoLastAck(s))
          && (prev.norefQueued <==> prev.nrRefs == 0))
    && (s.gpState == WorkFlush ==>
          && prev.nrRefs == 0 && !prev.rcuRef && !prev.norefQueued
          && (prev.active <==> s.nrAcks > 0 || !NoLastAck(s))
          && (s.timerArmed <==> !prev.active))
    && (s.gpState == WorkWindowFlip && s.nrAcks == 0 ==> !NoLastAck(s))
  }

  /** The window an open section belongs to. */
  function EffectiveWid(s: State, t: ThreadId): Wid
    requires t in s.threads
    requires s.threads[t].linked || (s.threads[t].cpu.Some? && s.threads[t].cpu.value in s.cpus)
  {
    if s.threads[t].linked then s.threads[t].wid else s.cpus[s.threads[t].cpu.value].readerWid
  }

  /** A section recorded by a work is one the thread has entered. */
  ghost predicate Known(s: State, x: Section) {
    x.thread in s.threads && x.serial <= s.threads[x.thread].serial
  }

  ghost predicate Blocking(s: State, x: Section) {
    InSection(s, x) ==>
      && (s.threads[x.thread].linked || (s.threads[x.thread].cpu.Some? && s.threads[x.thread].cpu.value in s.cpus))
      && EffectiveWid(s, x.thread) == Prev(s.wid)
  }

  /** A work queued for the previous window waits only for readers of the previous window. */
  ghost predicate WorkInv(s: State, w: Work, i: nat) {
    && (forall x | x in w.open :: Known(s, x))
    && w.wid == (if s.wid % 2 == i then s.wid else Prev(s.wid))
    && (s.wid % 2 != i ==> forall x | x in w.open :: Blocking(s, x))
  }

  ghost predicate QueuesInv(s: State)
    requires Wf(s)
  {
    forall c, i, w | c in s.cpus && 0 <= i < 2 && w in s.cpus[c].queues[i] :: WorkInv(s, w, i)
  }

  /** Once a processor has flushed, nothing is left for the previous window. */
  ghost predicate FlushedInv(s: State)
    requires Wf(s)
  {
    s.gpState == WorkFlush ==>
      forall c | c in s.cpus && HasActed(s, c) :: s.cpus[c].queues[Prev(s.wid) % 2] == []
  }

  ghost predicate Over(s: State, x: Section) { Known(s, x) && !InSection(s, x) }

  /** Every started work started after all the sections open at its deferral had closed. */
  ghost predicate StartedSafe(s: State) {
    forall w, x | w in s.started && x in w.open :: Over(s, x)
  }

  // The four parts of the invariant.

  ghost predicate Acks(s: State) {
    && s.nrAcks == |Unacked(s)|
    && (forall c | c in s.cpus :: CpuInv(s, c))
    && LastAckUnique(s)
  }

  ghost predicate Threads(s: State)
    requires Wf(s)
  {
    && (forall c | c in s.cpus :: s.threads[s.cpus[c].current].cpu == Some(c))
    && (forall t | t in s.threads :: ThreadInv(s, t))
  }

  ghost predicate Works(s: State)
    requires Wf(s)
  {
    QueuesInv(s) && FlushedInv(s) && StartedSafe(s)
  }

  ghost predicate Inv(s: State) {
    Wf(s) && Acks(s) && Threads(s) && WindowsInv(s) && Works(s)
  }

  // ---------------------------------------------------------------- what steps leave alone

  /** The fields of the processors the protocol runs on. */
  ghost predicate SameProtocol(s: State, s': State) {
    && s'.gpState == s.gpState && s'.wid == s.wid && s'.nrAcks == s.nrAcks && s'.timerArmed == s.timerArmed
    && s'.cpus.Keys == s.cpus.Keys
    && forall c | c in s.cpus ::
         && s'.cpus[c].gpState == s.cpus[c].gpState && s'.cpus[c].phase == s.cpus[c].phase
         && s'.cpus[c].workWid == s.cpus[c].workWid && s'.cpus[c].readerWid == s.cpus[c].readerWid
  }

  lemma AcksSame(s: State, s': State)
    requires Acks(s) && SameProtocol(s, s')
    ensures Acks(s') && (NoLastAck(s') <==> NoLastAck(s))
  {
    assert Unacked(s') == Unacked(s);
    forall c | c in s'.cpus ensures CpuInv(s', c) { assert CpuInv(s, c); }
  }

  ghost predicate LinksKept(s: State, s': State) {
    && s.threads.Keys <= s'.threads.Keys
    && (forall t | t in s.threads ::
          s'.threads[t].linked == s.threads[t].linked && s'.threads[t].wid == s.threads[t].wid)
    && forall t | t in s'.threads && t !in s.threads :: !s'.threads[t].linked
  }

  lemma WindowsSame(s: State, s': State)
    requires |s.windows| == 2 && WindowsInv(s) && s'.windows == s.windows
    requires s'.gpState == s.gpState && s'.wid == s.wid && s'.timerArmed == s.timerArmed && s'.nrAcks == s.nrAcks
    requires NoLastAck(s') <==> NoLastAck(s)
    requires LinksKept(s, s')
    ensures WindowsInv(s')
  {
    assert LinkedTo(s', s.wid) == LinkedTo(s, s.wid);
    assert LinkedTo(s', Prev(s.wid)) == LinkedTo(s, Prev(s.wid));
  }

  /** One reader of window w less, and one reference less. */
  lemma WindowsUnref(s: State, s': State, w: Wid)
    requires |s.windows| == 2 && WindowsInv(s) && (w == s.wid || w == Prev(s.wid))
    requires s'.windows == Unref(s, w).windows
    requires s'.gpState == s.gpState && s'.wid == s.wid && s'.timerArmed == s.timerArmed && s'.nrAcks == s.nrAcks
    requires NoLastAck(s') <==> NoLastAck(s)
    requires |LinkedTo(s', w)| == |LinkedTo(s, w)| - 1
    requires w == s.wid ==> |LinkedTo(s', Prev(s.wid))| == |LinkedTo(s, Prev(s.wid))|
    requires w == Prev(s.wid) ==> |LinkedTo(s', s.wid)| == |LinkedTo(s, s.wid)|
    ensures WindowsInv(s') && s.windows[w % 2].nrRefs > 0
  {
  }

  /** One reader of window w more, and one reference more. */
  lemma WindowsRef(s: State, s': State, w: Wid)
    requires |s.windows| == 2 && WindowsInv(s) && (w == s.wid || w == Prev(s.wid))
    requires s'.windows == Ref(s, w).windows
    requires s'.gpState == s.gpState && s'.wid == s.wid && s'.timerArmed == s.timerArmed && s'.nrAcks == s.nrAcks
    requires NoLastAck(s') <==> NoLastAck(s)
    requires |LinkedTo(s', w)| == |LinkedTo(s, w)| + 1
    requires w == s.wid ==> |LinkedTo(s', Prev(s.wid))| == |LinkedTo(s, Prev(s.wid))|
    requires w == Prev(s.wid) ==> |LinkedTo(s', s.wid)| == |LinkedTo(s, s.wid)| && s.windows[w % 2].rcuRef
    ensures WindowsInv(s')
  {
  }

  lemma ThreadsSame(s: State, s': State)
    requires Wf(s) && Threads(s) && Wf(s') && s'.threads == s.threads && s'.wid == s.wid && s'.cpus.Keys == s.cpus.Keys
    requires s'.gpState == WorkWindowFlip ==> s.gpState == WorkWindowFlip
    requires forall c | c in s.cpus :: s'.cpus[c].current == s.cpus[c].current
    ensures Threads(s') && LinksKept(s, s')
  {
    forall t | t in s'.threads ensures ThreadInv(s', t) { assert ThreadInv(s, t); }
  }

  /** Between two states of the same window, no known section is entered, none is forgotten, and
      open sections stay in their window. */
  ghost predicate Stable(s: State, s': State) {
    && s'.wid == s.wid
    && forall x | Known(s, x) :: Known(s', x) && (InSection(s', x) ==> InSection(s, x)) && (Blocking(s, x) ==> Blocking(s', x))
  }

  ghost predicate SameQueues(s: State, s': State) {
    && s'.started == s.started && s'.cpus.Keys == s.cpus.Keys
    && forall c | c in s.cpus :: s'.cpus[c].queues == s.cpus[c].queues
  }

  lemma QueuesStable(s: State, s': State)
    requires Wf(s) && Wf(s') && QueuesInv(s) && StartedSafe(s) && Stable(s, s') && SameQueues(s, s')
    ensures QueuesInv(s') && StartedSafe(s')
  {
    forall c, i, w | c in s'.cpus && 0 <= i < 2 && w in s'.cpus[c].queues[i]
      ensures WorkInv(s', w, i)
    {
      assert WorkInv(s, w, i);
    }
    forall w, x | w in s'.started && x in w.open
      ensures Over(s', x)
    {
      assert Over(s, x);
    }
  }

  lemma WorksStable(s: State, s': State)
    requires Wf(s) && Wf(s') && Works(s) && Stable(s, s') && SameQueues(s, s') && SameProtocol(s, s')
    ensures Works(s')
  {
    QueuesStable(s, s');
  }

  /** What remains to be shown of a step that touches no counter, window or queue. */
  lemma FrameInv(s: State, s': State)
    requires Inv(s) && Wf(s') && SameProtocol(s, s') && SameQueues(s, s') && LinksKept(s, s')
    requires s'.windows == s.windows && Threads(s') && Stable(s, s')
    ensures Inv(s')
  {
    AcksSame(s, s');
    WindowsSame(s, s');
    WorksStable(s, s');
  }

  // ---------------------------------------------------------------- the initial state

  lemma InitInv(n: nat)
    requires n > 0
    ensures Inv(Init(n))
  {
    var s := Init(n);
    assert 0 in s.cpus;
    assert Unacked(s) == {};
    assert LinkedTo(s, s.wid) == {} && LinkedTo(s, Prev(s.wid)) == {};
  }

  // ---------------------------------------------------------------- steps of threads

  lemma SpawnThreads(s: State, t: ThreadId)
    requires Wf(s) && Threads(s) && Enabled(s, Spawn(t))
    ensures Threads(DoSpawn(s, t)) && LinksKept(s, DoSpawn(s, t)) && Stable(s, DoSpawn(s, t))
  {
    var s' := DoSpawn(s, t);
    forall u | u in s'.threads ensures ThreadInv(s', u) { assert u != t ==> ThreadInv(s, u); }
  }

  lemma SpawnInv(s: State, t: ThreadId)
    requires Inv(s) && Enabled(s, Spawn(t))
    ensures Inv(DoSpawn(s, t))
  {
    SpawnThreads(s, t);
    FrameInv(s, DoSpawn(s, t));
  }

  lemma ReadEnterThreads(s: State, c: CpuId)
    requires Wf(s) && Threads(s) && Enabled(s, ReadEnter(c))
    ensures var s' := DoReadEnter(s, c); Wf(s') && Threads(s') && LinksKept(s, s') && Stable(s, s')
  {
    var s' := DoReadEnter(s, c);
    forall u | u in s'.threads ensures ThreadInv(s', u) { assert ThreadInv(s, u); }
  }

  lemma ReadEnterInv(s: State, c: CpuId)
    requires Inv(s) && Enabled(s, ReadEnter(c))
    ensures Inv(DoReadEnter(s, c))
  {
    ReadEnterThreads(s, c);
    FrameInv(s, DoReadEnter(s, c));
  }

  lemma ReadLeaveThreads(s: State, c: CpuId)
    requires Wf(s) && Threads(s) && Enabled(s, ReadLeave(c))
    ensures var s' := DoReadLeave(s, c); Wf(s') && Threads(s') && SameProtocol(s, s')
  {
    var s' := DoReadLeave(s, c);
    forall u | u in s'.threads ensures ThreadInv(s', u) { assert ThreadInv(s, u); }
  }

  lemma ReadLeaveStable(s: State, c: CpuId)
    requires Wf(s) && Threads(s) && Enabled(s, ReadLeave(c))
    ensures Stable(s, DoReadLeave(s, c))
  {
  }

  lemma ReadLeaveLinks(s: State, c: CpuId)
    requires Wf(s) && Enabled(s, ReadLeave(c)) && WindowsInv(s)
    requires var th := s.threads[s.cpus[c].current]; th.level == 1 && th.linked
    ensures var s', w := DoReadLeave(s, c), s.threads[s.cpus[c].current].wid;
            && |LinkedTo(s', w)| == |LinkedTo(s, w)| - 1
            && forall v: Wid | v != w :: LinkedTo(s', v) == LinkedTo(s, v)
  {
    var s', t := DoReadLeave(s, c), s.cpus[c].current;
    var w := s.threads[t].wid;
    assert t in LinkedTo(s, w) && LinkedTo(s', w) == LinkedTo(s, w) - {t};
  }

  lemma ReadLeaveUnlinked(s: State, c: CpuId)
    requires Wf(s) && Threads(s) && Acks(s) && WindowsInv(s) && Enabled(s, ReadLeave(c))
    requires var th := s.threads[s.cpus[c].current]; th.level == 1 && th.linked
    ensures WindowsInv(DoReadLeave(s, c)) && Asserts(s, ReadLeave(c))
  {
    assert ThreadInv(s, s.cpus[c].current);
    ReadLeaveThreads(s, c);
    AcksSame(s, DoReadLeave(s, c));
    ReadLeaveLinks(s, c);
    WindowsUnref(s, DoReadLeave(s, c), s.threads[s.cpus[c].current].wid);
  }

  lemma ReadLeaveWindows(s: State, c: CpuId)
    requires Wf(s) && Threads(s) && Acks(s) && WindowsInv(s) && Enabled(s, ReadLeave(c))
    ensures WindowsInv(DoReadLeave(s, c)) && Asserts(s, ReadLeave(c))
  {
    var th := s.threads[s.cpus[c].current];
    if th.level == 1 && th.linked {
      ReadLeaveUnlinked(s, c);
    } else {
      ReadLeaveInside(s, c);
    }
  }

  /** Leaving a section that is nested, or whose thread is not linked. */
  lemma ReadLeaveInside(s: State, c: CpuId)
    requires Wf(s) && Threads(s) && Acks(s) && WindowsInv(s) && Enabled(s, ReadLeave(c))
    requires var th := s.threads[s.cpus[c].current]; !(th.level == 1 && th.linked)
    ensures WindowsInv(DoReadLeave(s, c)) && Asserts(s, ReadLeave(c))
  {
    hide Acks, NoLastAck;
    ReadLeaveThreads(s, c);
    AcksSame(s, DoReadLeave(s, c));
    WindowsSame(s, DoReadLeave(s, c));
    var th := s.threads[s.cpus[c].current];
    if th.linked {
      assert ThreadInv(s, s.cpus[c].current) && s.cpus[c].current in LinkedTo(s, th.wid);
    }
  }

  lemma ReadLeaveInv(s: State, c: CpuId)
    requires Inv(s) && Enabled(s, ReadLeave(c))
    ensures Inv(DoReadLeave(s, c)) && Asserts(s, ReadLeave(c))
  {
    ReadLeaveThreads(s, c);
    AcksSame(s, DoReadLeave(s, c));
    ReadLeaveWindows(s, c);
    ReadLeaveStable(s, c);
    WorksStable(s, DoReadLeave(s, c));
  }

  /** A work deferred on c waits for no section outside the window it is queued in. */
  lemma DeferredBlocking(s: State, c: CpuId, x: Section)
    requires Wf(s) && Acks(s) && Threads(s) && WindowsInv(s) && Enabled(s, Defer(c, 0)) && x in OpenSections(s)
    ensures s.cpus[c].workWid != s.wid ==> s.cpus[c].workWid == Prev(s.wid) && Blocking(s, x)
  {
    assert CpuInv(s, c) && ThreadInv(s, x.thread);
  }

  lemma DeferQueues(s: State, c: CpuId, id: nat)
    requires Wf(s) && Acks(s) && Threads(s) && WindowsInv(s) && QueuesInv(s) && Enabled(s, Defer(c, id))
    ensures Wf(DoDefer(s, c, id)) && QueuesInv(DoDefer(s, c, id))
  {
    var s' := DoDefer(s, c, id);
    assert CpuInv(s, c);
    forall d, i, w | d in s'.cpus && 0 <= i < 2 && w in s'.cpus[d].queues[i]
      ensures WorkInv(s', w, i)
    {
      if w in s.cpus[d].queues[i] {
        assert WorkInv(s, w, i);
      } else {
        forall x | x in w.open && s.wid % 2 != i
          ensures Blocking(s', x)
        {
          DeferredBlocking(s, c, x);
        }
      }
    }
  }

  lemma DeferFlushed(s: State, c: CpuId, id: nat)
    requires Wf(s) && Acks(s) && FlushedInv(s) && StartedSafe(s) && Enabled(s, Defer(c, id))
    ensures var s' := DoDefer(s, c, id); Wf(s') && FlushedInv(s') && StartedSafe(s') && SameProtocol(s, s')
  {
    assert CpuInv(s, c);
    forall w, x | w in s.started && x in w.open
      ensures Over(DoDefer(s, c, id), x)
    {
      assert Over(s, x);
    }
  }

  lemma DeferInv(s: State, c: CpuId, id: nat)
    requires Inv(s) && Enabled(s, Defer(c, id))
    ensures Inv(DoDefer(s, c, id))
  {
    hide Acks, Threads, WindowsInv, QueuesInv, FlushedInv, StartedSafe;
    var s' := DoDefer(s, c, id);
    DeferQueues(s, c, id);
    DeferFlushed(s, c, id);
    AcksSame(s, s');
    DeferThreads(s, c, id);
    WindowsSame(s, s');
  }

  lemma DeferThreads(s: State, c: CpuId, id: nat)
    requires Wf(s) && Threads(s) && Enabled(s, Defer(c, id)) && Wf(DoDefer(s, c, id))
    ensures Threads(DoDefer(s, c, id)) && LinksKept(s, DoDefer(s, c, id))
  {
    var s' := DoDefer(s, c, id);
    forall u | u in s'.threads ensures ThreadInv(s', u) { assert ThreadInv(s, u); }
  }

  lemma AccountThreads(s: State, c: CpuId)
    requires Wf(s) && Acks(s) && Threads(s) && c in s.cpus
    ensures Wf(Account(s, c)) && Threads(Account(s, c)) && Stable(s, Account(s, c))
    ensures var th := Account(s, c).threads[s.cpus[c].current]; th.level > 0 ==> th.linked
  {
    assert CpuInv(s, c);
  }

  lemma AccountLinks(s: State, c: CpuId)
    requires Wf(s) && c in s.cpus
    requires var th := s.threads[s.cpus[c].current]; th.level > 0 && !th.linked
    ensures var s', r := Account(s, c), s.cpus[c].readerWid;
            && |LinkedTo(s', r)| == |LinkedTo(s, r)| + 1
            && forall v: Wid | v != r :: LinkedTo(s', v) == LinkedTo(s, v)
  {
    var s', t, r := Account(s, c), s.cpus[c].current, s.cpus[c].readerWid;
    assert t !in LinkedTo(s, r) && LinkedTo(s', r) == LinkedTo(s, r) + {t};
  }

  lemma AccountLinked(s: State, c: CpuId)
    requires Wf(s) && Acks(s) && WindowsInv(s) && c in s.cpus
    requires var th := s.threads[s.cpus[c].current]; th.level > 0 && !th.linked
    ensures WindowsInv(Account(s, c))
  {
    assert CpuInv(s, c);
    AcksSame(s, Account(s, c));
    AccountLinks(s, c);
    if s.gpState == ReaderWindowFlip && s.cpus[c].readerWid == Prev(s.wid) {
      assert c in Unacked(s);
    }
    WindowsRef(s, Account(s, c), s.cpus[c].readerWid);
  }

  lemma AccountWindows(s: State, c: CpuId)
    requires Wf(s) && Acks(s) && Threads(s) && WindowsInv(s) && c in s.cpus
    ensures WindowsInv(Account(s, c))
  {
    var th := s.threads[s.cpus[c].current];
    if th.level > 0 && !th.linked {
      AccountLinked(s, c);
    }
  }

  lemma AccountInv(s: State, c: CpuId)
    requires Inv(s) && c in s.cpus
    ensures Inv(Account(s, c))
    ensures var th := Account(s, c).threads[s.cpus[c].current]; th.level > 0 ==> th.linked
  {
    AcksSame(s, Account(s, c));
    AccountThreads(s, c);
    AccountWindows(s, c);
    WorksStable(s, Account(s, c));
  }

  lemma DispatchThreads(s: State, c: CpuId, to: ThreadId)
    requires Wf(s) && Threads(s) && c in s.cpus && to in s.threads && s.threads[to].cpu == None
    requires s.threads[s.cpus[c].current].level > 0 ==> s.threads[s.cpus[c].current].linked
    ensures var s' := Dispatch(s, c, to); Wf(s') && Threads(s') && SameProtocol(s, s')
  {
    var s' := Dispatch(s, c, to);
    forall t | t in s'.threads ensures ThreadInv(s', t) { assert ThreadInv(s, t); }
  }

  lemma DispatchStable(s: State, c: CpuId, to: ThreadId)
    requires Wf(s) && Threads(s) && c in s.cpus && to in s.threads && s.threads[to].cpu == None
    requires s.threads[s.cpus[c].current].level > 0 ==> s.threads[s.cpus[c].current].linked
    ensures var s' := Dispatch(s, c, to); Stable(s, s') && SameQueues(s, s') && LinksKept(s, s')
  {
    assert ThreadInv(s, to);
  }

  lemma DispatchInv(s: State, c: CpuId, to: ThreadId)
    requires Inv(s) && c in s.cpus && to in s.threads && s.threads[to].cpu == None
    requires s.threads[s.cpus[c].current].level > 0 ==> s.threads[s.cpus[c].current].linked
    ensures Inv(Dispatch(s, c, to))
  {
    DispatchThreads(s, c, to);
    DispatchStable(s, c, to);
    FrameInv(s, Dispatch(s, c, to));
  }

  lemma SwitchInv(s: State, c: CpuId, to: ThreadId)
    requires Inv(s) && Enabled(s, Switch(c, to))
    ensures Inv(DoSwitch(s, c, to))
  {
    AccountInv(s, c);
    DispatchInv(Account(s, c), c, to);
  }

  // ---------------------------------------------------------------- acknowledging a state change

  lemma StoreAcks(s: State, c: CpuId)
    requires Wf(s) && Acks(s) && Enabled(s, Store(c))
    ensures Acks(DoStore(s, c)) && (NoLastAck(DoStore(s, c)) <==> NoLastAck(s))
  {
    var s' := DoStore(s, c);
    assert CpuInv(s, c);
    assert Unacked(s') == Unacked(s);
    forall d | d in s'.cpus ensures CpuInv(s', d) && s'.cpus[d].phase.LastAck? == s.cpus[d].phase.LastAck? {
      assert CpuInv(s, d);
    }
  }

  lemma StoreInv(s: State, c: CpuId)
    requires Inv(s) && Enabled(s, Store(c))
    ensures Inv(DoStore(s, c))
  {
    StoreAcks(s, c);
    PhaseInv(s, DoStore(s, c), c);
    WindowsSame(s, DoStore(s, c));
  }

  /** The parts a step of c on its own phase leaves alone. */
  lemma PhaseInv(s: State, s': State, c: CpuId)
    requires Inv(s) && c in s.cpus && c in s'.cpus
    requires s' == s.(nrAcks := s'.nrAcks,
                      cpus := s.cpus[c := s.cpus[c].(phase := s'.cpus[c].phase, gpState := s'.cpus[c].gpState)])
    requires Seen(s'.cpus[c]) == Seen(s.cpus[c])
    ensures Wf(s') && Threads(s') && Works(s') && LinksKept(s, s')
  {
    ThreadsSame(s, s');
    QueuesStable(s, s');
  }

  lemma AckAcks(s: State, c: CpuId)
    requires Wf(s) && Acks(s) && Enabled(s, Ack(c))
    ensures Acks(DoAck(s, c)) && Asserts(s, Ack(c)) && NoLastAck(s)
    ensures s.nrAcks == 1 <==> !NoLastAck(DoAck(s, c))
  {
    var s' := DoAck(s, c);
    assert CpuInv(s, c) && c in Unacked(s);
    assert Unacked(s') == Unacked(s) - {c};
    assert s'.cpus[c].phase.LastAck? <==> s.nrAcks == 1;
    forall d | d in s'.cpus ensures CpuInv(s', d) { assert CpuInv(s, d); }
  }

  lemma AckInv(s: State, c: CpuId)
    requires Inv(s) && Enabled(s, Ack(c))
    ensures Inv(DoAck(s, c)) && Asserts(s, Ack(c))
  {
    AckAcks(s, c);
    PhaseInv(s, DoAck(s, c), c);
    var s' := DoAck(s, c);
    assert LinkedTo(s', s.wid) == LinkedTo(s, s.wid) && LinkedTo(s', Prev(s.wid)) == LinkedTo(s, Prev(s.wid));
  }

  // ---------------------------------------------------------------- acting on a state change

  /** The processor's own flips, after its running reader has been accounted for. */
  function FlipReader(s: State, c: CpuId): State
    requires c in s.cpus
  {
    s.(cpus := s.cpus[c := s.cpus[c].(readerWid := Next(s.cpus[c].readerWid), phase := Acting(s.gpState))])
  }

  lemma ActAcks(s: State, c: CpuId, s': State)
    requires Wf(s) && Acks(s) && Enabled(s, Act(c))
    requires s'.gpState == s.gpState && s'.wid == s.wid && s'.nrAcks == s.nrAcks && s'.cpus.Keys == s.cpus.Keys
    requires forall d | d in s.cpus && d != c :: s'.cpus[d] == s.cpus[d]
    requires s'.cpus[c].phase == Acting(s.gpState) && s'.cpus[c].gpState == s.cpus[c].gpState
    requires s'.cpus[c].workWid == if s.gpState == WorkWindowFlip then Next(s.cpus[c].workWid) else s.cpus[c].workWid
    requires s'.cpus[c].readerWid == if s.gpState == ReaderWindowFlip then Next(s.cpus[c].readerWid) else s.cpus[c].readerWid
    ensures Acks(s') && (NoLastAck(s') <==> NoLastAck(s))
  {
    assert CpuInv(s, c);
    assert Unacked(s') == Unacked(s);
    forall d | d in s'.cpus ensures CpuInv(s', d) { assert CpuInv(s, d); }
  }

  lemma ActWorkFlip(s: State, c: CpuId)
    requires Inv(s) && Enabled(s, Act(c)) && s.gpState == WorkWindowFlip
    ensures Inv(DoAct(s, c))
  {
    hide Acks, NoLastAck, QueuesInv, StartedSafe, Threads, WindowsInv;
    var s' := DoAct(s, c);
    ActAcks(s, c, s');
    ThreadsSame(s, s');
    WindowsSame(s, s');
    QueuesStable(s, s');
  }

  lemma FlipReaderWorks(s: State, c: CpuId)
    requires Wf(s) && Works(s) && Threads(s) && c in s.cpus && s.gpState == ReaderWindowFlip
    requires s.threads[s.cpus[c].current].level > 0 ==> s.threads[s.cpus[c].current].linked
    ensures var s' := FlipReader(s, c); Wf(s') && Works(s') && Threads(s') && LinksKept(s, s')
  {
    var s' := FlipReader(s, c);
    ThreadsSame(s, s');
    assert forall t | t in s.threads :: ThreadInv(s, t);
    QueuesStable(s, s');
  }

  lemma FlipReaderInv(s: State, c: CpuId)
    requires Inv(s) && Enabled(s, Act(c)) && s.gpState == ReaderWindowFlip
    requires s.threads[s.cpus[c].current].level > 0 ==> s.threads[s.cpus[c].current].linked
    ensures Inv(FlipReader(s, c))
  {
    ActAcks(s, c, FlipReader(s, c));
    FlipReaderWorks(s, c);
    WindowsSame(s, FlipReader(s, c));
  }

  lemma ActReaderFlip(s: State, c: CpuId)
    requires Inv(s) && Enabled(s, Act(c)) && s.gpState == ReaderWindowFlip
    ensures Inv(DoAct(s, c))
  {
    AccountInv(s, c);
    FlipReaderInv(Account(s, c), c);
  }

  /** While works are flushed, no section of the previous window is open. */
  lemma NoOldReader(s: State, x: Section)
    requires Wf(s) && Acks(s) && Threads(s) && WindowsInv(s) && s.gpState == WorkFlush
    ensures InSection(s, x) ==> !Blocking(s, x)
  {
    if InSection(s, x) {
      var th := s.threads[x.thread];
      assert ThreadInv(s, x.thread);
      if th.linked {
        assert x.thread in LinkedTo(s, th.wid) && LinkedTo(s, Prev(s.wid)) == {};
      } else {
        assert CpuInv(s, th.cpu.value);
      }
    }
  }

  lemma FlushStarted(s: State, c: CpuId)
    requires Inv(s) && Enabled(s, Act(c)) && s.gpState == WorkFlush
    ensures StartedSafe(DoAct(s, c))
  {
    var s' := DoAct(s, c);
    assert CpuInv(s, c);
    var i := Prev(s.wid) % 2;
    forall w, x | w in s'.started && x in w.open
      ensures Over(s', x)
    {
      if w in s.started {
        assert Over(s, x);
      } else {
        assert w in s.cpus[c].queues[i] && WorkInv(s, w, i);
        NoOldReader(s, x);
      }
    }
  }

  lemma FlushQueues(s: State, c: CpuId)
    requires Wf(s) && Acks(s) && QueuesInv(s) && FlushedInv(s)
    requires Enabled(s, Act(c)) && s.gpState == WorkFlush
    ensures var s' := DoAct(s, c); Wf(s') && QueuesInv(s') && FlushedInv(s') && Asserts(s, Act(c))
  {
    var s' := DoAct(s, c);
    assert CpuInv(s, c);
    assert Stable(s, s');
    forall d, i, w | d in s'.cpus && 0 <= i < 2 && w in s'.cpus[d].queues[i]
      ensures WorkInv(s', w, i)
    {
      assert WorkInv(s, w, i);
    }
  }

  lemma ActFlush(s: State, c: CpuId)
    requires Inv(s) && Enabled(s, Act(c)) && s.gpState == WorkFlush
    ensures Inv(DoAct(s, c)) && Asserts(s, Act(c))
  {
    var s' := DoAct(s, c);
    ActAcks(s, c, s');
    ThreadsSame(s, s');
    WindowsSame(s, s');
    FlushQueues(s, c);
    FlushStarted(s, c);
  }

  // ---------------------------------------------------------------- the last acknowledgment, and what it chains to

  lemma AllAcked(s: State, c: CpuId)
    requires Acks(s) && s.nrAcks == 0 && c in s.cpus
    ensures HasAcked(s, c) && CpuInv(s, c)
  {
    assert c !in Unacked(s);
  }

  /** A new global state after everyone has acknowledged the last one. */
  lemma NewStateAcks(s: State, s': State)
    requires Wf(s) && Acks(s) && s.nrAcks == 0
    requires s'.gpState == Succ(s.gpState) && s'.nrAcks == |s.cpus| && s'.cpus.Keys == s.cpus.Keys
    requires s'.wid == if s.gpState == WorkFlush then Next(s.wid) else s.wid
    requires forall c | c in s.cpus ::
      s'.cpus[c] == s.cpus[c] || (s.cpus[c].phase.LastAck? && s'.cpus[c] == s.cpus[c].(phase := Acked(s.gpState)))
    requires forall c | c in s.cpus :: !s'.cpus[c].phase.LastAck?
    ensures Acks(s') && NoLastAck(s') && s'.nrAcks > 0
    ensures forall c | c in s.cpus :: !HasActed(s', c)
  {
    forall c | c in s.cpus ensures !HasActed(s', c) && CpuInv(s', c) { AllAcked(s, c); }
    assert Unacked(s') == s'.cpus.Keys;
  }

  /** Changes of windows, acknowledgments and phases only. */
  lemma SharedInv(s: State, s': State)
    requires Wf(s) && Threads(s) && QueuesInv(s) && StartedSafe(s)
    requires Wf(s') && SameQueues(s, s') && s'.threads == s.threads && s'.wid == s.wid
    requires s'.gpState == WorkWindowFlip ==> s.gpState == WorkWindowFlip
    requires forall c | c in s.cpus ::
      s'.cpus[c].current == s.cpus[c].current && s'.cpus[c].readerWid == s.cpus[c].readerWid
    ensures Threads(s') && QueuesInv(s') && StartedSafe(s')
    ensures LinkedTo(s', s.wid) == LinkedTo(s, s.wid) && LinkedTo(s', Prev(s.wid)) == LinkedTo(s, Prev(s.wid))
  {
    ThreadsSame(s, s');
    QueuesStable(s, s');
  }

  lemma CompleteWorkFlip(s: State, c: CpuId)
    requires Inv(s) && Enabled(s, Complete(c)) && s.gpState == WorkWindowFlip
    ensures Inv(DoComplete(s, c)) && Asserts(s, Complete(c))
  {
    hide QueuesInv, StartedSafe, Threads, Unacked;
    var s' := DoComplete(s, c);
    assert CpuInv(s, c);
    NewStateAcks(s, s');
    SharedInv(s, s');
  }

  /** The processor that acknowledged last is done, and nothing else changes for the processors. */
  lemma LastAckDone(s: State, c: CpuId, s': State)
    requires Wf(s) && Acks(s) && Enabled(s, Complete(c))
    requires s'.gpState == s.gpState && s'.wid == s.wid && s'.nrAcks == s.nrAcks
    requires s'.cpus == s.cpus[c := s.cpus[c].(phase := Acked(s.gpState))]
    ensures Acks(s') && NoLastAck(s') && s.nrAcks == 0
  {
    assert CpuInv(s, c);
    assert Unacked(s') == Unacked(s);
    forall d | d in s'.cpus ensures CpuInv(s', d) { assert CpuInv(s, d); }
  }

  lemma CompleteReaderFlip(s: State, c: CpuId)
    requires Inv(s) && Enabled(s, Complete(c)) && s.gpState == ReaderWindowFlip
    ensures Inv(DoComplete(s, c)) && Asserts(s, Complete(c))
  {
    var s' := DoComplete(s, c);
    assert CpuInv(s, c);
    LastAckDone(s, c, s');
    SharedInv(s, s');
  }

  lemma CompleteFlush(s: State, c: CpuId)
    requires Inv(s) && Enabled(s, Complete(c)) && s.gpState == WorkFlush
    ensures Inv(DoComplete(s, c)) && Asserts(s, Complete(c))
  {
    var s' := DoComplete(s, c);
    assert CpuInv(s, c);
    LastAckDone(s, c, s');
    SharedInv(s, s');
  }

  lemma NoRefInv(s: State, w: Wid)
    requires Inv(s) && Enabled(s, NoRef(w))
    ensures Inv(DoNoRef(s, w)) && Asserts(s, NoRef(w))
  {
    var s' := DoNoRef(s, w);
    assert w % 2 == Prev(s.wid) % 2 && s.gpState == ReaderWindowFlip;
    NewStateAcks(s, s');
    SharedInv(s, s');
  }

  // ---------------------------------------------------------------- a new window

  lemma TimerThreads(s: State)
    requires Wf(s) && Threads(s) && WindowsInv(s) && s.timerArmed
    ensures var s' := DoTimer(s);
            && s'.wid == Next(s.wid) && Wf(s') && Threads(s')
            && LinkedTo(s', s'.wid) == {} && LinkedTo(s', s.wid) == LinkedTo(s, s.wid)
  {
    var s' := DoTimer(s);
    assert LinkedTo(s, Prev(s.wid)) == {};
    forall t | t in s'.threads
      ensures ThreadInv(s', t) && (s.threads[t].linked ==> s.threads[t].wid == s.wid)
    {
      assert ThreadInv(s, t);
      assert s.threads[t].linked ==> t in LinkedTo(s, s.threads[t].wid);
    }
  }

  lemma TimerWork(s: State, x: Section)
    requires Wf(s) && Acks(s) && Threads(s) && WindowsInv(s) && s.timerArmed && Known(s, x)
    ensures Blocking(DoTimer(s), x)
  {
    if InSection(s, x) {
      var th := s.threads[x.thread];
      assert ThreadInv(s, x.thread) && LinkedTo(s, Prev(s.wid)) == {};
      if th.linked {
        assert x.thread in LinkedTo(s, th.wid);
      } else {
        assert CpuInv(s, th.cpu.value);
      }
    }
  }

  lemma TimerQueues(s: State)
    requires Inv(s) && s.timerArmed
    ensures QueuesInv(DoTimer(s))
  {
    var s' := DoTimer(s);
    forall d, i, w | d in s'.cpus && 0 <= i < 2 && w in s'.cpus[d].queues[i]
      ensures WorkInv(s', w, i)
    {
      assert WorkInv(s, w, i);
      AllAcked(s, d);
      forall x | x in w.open ensures Blocking(s', x) { TimerWork(s, x); }
    }
  }

  lemma TimerInv(s: State)
    requires Inv(s) && Enabled(s, Timer)
    ensures Inv(DoTimer(s)) && Asserts(s, Timer)
  {
    var s' := DoTimer(s);
    NewStateAcks(s, s');
    TimerThreads(s);
    TimerQueues(s);
    forall w, x | w in s'.started && x in w.open ensures Over(s', x) { assert Over(s, x); }
  }

  // ---------------------------------------------------------------- runs

  /** Every step from a good state leads to a good state, and none of the code's assertions fails. */
  lemma StepInv(s: State, step: Step)
    requires Inv(s) && Enabled(s, step)
    ensures Inv(Apply(s, step)) && Asserts(s, step)
  {
    match step
    case Spawn(t) => SpawnInv(s, t);
    case ReadEnter(c) => ReadEnterInv(s, c);
    case ReadLeave(c) => ReadLeaveInv(s, c);
    case Switch(c, to) => SwitchInv(s, c, to);
    case Defer(c, id) => DeferInv(s, c, id);
    case Act(c) =>
      match s.gpState {
        case WorkWindowFlip => ActWorkFlip(s, c);
        case ReaderWindowFlip => ActReaderFlip(s, c);
        case WorkFlush => ActFlush(s, c);
      }
    case Ack(c) => AckInv(s, c);
    case Complete(c) =>
      match s.gpState {
        case WorkWindowFlip => CompleteWorkFlip(s, c);
        case ReaderWindowFlip => CompleteReaderFlip(s, c);
        case WorkFlush => CompleteFlush(s, c);
      }
    case Store(c) => StoreInv(s, c);
    case NoRef(w) => NoRefInv(s, w);
    case Timer => TimerInv(s);
  }

  /** to is reached from s by taking the steps in order. */
  ghost predicate Run(s: State, steps: seq<Step>, to: State)
    decreases |steps|
  {
    if steps == [] then s == to
    else Wf(s) && Enabled(s, steps[0]) && Run(Apply(s, steps[0]), steps[1..], to)
  }

  lemma {:induction false} RunInv(s: State, steps: seq<Step>, to: State)
    requires Inv(s) && Run(s, steps, to)
    ensures Inv(to)
    decreases |steps|
  {
    if steps != [] {
      StepInv(s, steps[0]);
      RunInv(Apply(s, steps[0]), steps[1..], to);
    }
  }

  /** The guarantee of rcu_defer: in every run, when a work deferred at state d has been started, every
      read-side section that was open at d has been left. */
  lemma GracePeriod(n: nat, before: seq<Step>, d: State, c: CpuId, id: nat, after: seq<Step>, e: State, x: Section)
    requires n > 0 && Run(Init(n), before, d) && Wf(d) && Enabled(d, Defer(c, id))
    requires Run(DoDefer(d, c, id), after, e)
    requires Work(id, d.cpus[c].workWid, OpenSections(d)) in e.started
    requires InSection(d, x)
    ensures !InSection(e, x)
  {
    InitInv(n);
    RunInv(Init(n), before, d);
    StepInv(d, Defer(c, id));
    RunInv(DoDefer(d, c, id), after, e);
    assert x in OpenSections(d);
    assert Over(e, x);
  }

  /** What can move a grace period forward. */
  ghost predicate AcksMissing(s: State) { Unacked(s) != {} }

  ghost predicate ReadersMissing(s: State)
    requires Wf(s)
  {
    var prev := s.windows[Prev(s.wid) % 2];
    s.gpState == ReaderWindowFlip && !prev.rcuRef && LinkedTo(s, Prev(s.wid)) != {}
  }

  ghost predicate NoRefMissing(s: State)
    requires Wf(s)
  {
    s.windows[0].norefQueued || s.windows[1].norefQueued
  }

  /** The timer, the acknowledgments and the no-reference function chain each other: at any time exactly
      one of them is due, so no global lock is needed and no grace period gets stuck. */
  lemma Chained(s: State)
    requires Inv(s)
    ensures B(AcksMissing(s)) + B(!NoLastAck(s)) + B(ReadersMissing(s)) + B(NoRefMissing(s)) + B(s.timerArmed) == 1
    ensures !(s.windows[0].norefQueued && s.windows[1].norefQueued)
  {
    forall c | c in s.cpus ensures s.cpus[c].phase.LastAck? ==> s.nrAcks == 0 { assert CpuInv(s, c); }
    assert AcksMissing(s) <==> s.nrAcks > 0;
    assert ReadersMissing(s) ==> |LinkedTo(s, Prev(s.wid))| > 0;
  }

  ghost predicate Pending(s: State, w: Work)
    requires Wf(s)
  {
    exists c, i | c in s.cpus && 0 <= i < 2 :: w in s.cpus[c].queues[i]
  }

  lemma PendingWid(s: State, w: Work)
    requires Inv(s) && Pending(s, w)
    ensures w.wid == s.wid || w.wid == Prev(s.wid)
  {
    var c, i :| c in s.cpus && 0 <= i < 2 && w in s.cpus[c].queues[i];
    assert WorkInv(s, w, i);
  }

  lemma ActKeeps(s: State, c: CpuId, w: Work)
    requires Wf(s) && Enabled(s, Act(c)) && (Pending(s, w) || w in s.started) && Wf(DoAct(s, c))
    ensures Pending(DoAct(s, c), w) || w in DoAct(s, c).started
  {
    var s' := DoAct(s, c);
    if w !in s'.started {
      var d, i :| d in s.cpus && 0 <= i < 2 && w in s.cpus[d].queues[i];
      assert w in s'.cpus[d].queues[i];
    }
  }

  ghost predicate QueuesGrow(s: State, s': State) {
    && s'.started == s.started
    && (forall d | d in s.cpus :: d in s'.cpus && |s.cpus[d].queues| == 2 && |s'.cpus[d].queues| == 2)
    && forall d, i | d in s.cpus && 0 <= i < 2 :: s.cpus[d].queues[i] <= s'.cpus[d].queues[i]
  }

  lemma ThreadStepKeeps(s: State, step: Step)
    requires Wf(s) && Enabled(s, step)
    requires step.Spawn? || step.ReadEnter? || step.ReadLeave? || step.Switch? || step.Defer?
    ensures QueuesGrow(s, Apply(s, step))
  {
  }

  lemma OtherKeeps(s: State, step: Step)
    requires Wf(s) && Enabled(s, step) && !step.Act?
    ensures QueuesGrow(s, Apply(s, step))
  {
    if step.Spawn? || step.ReadEnter? || step.ReadLeave? || step.Switch? || step.Defer? {
      ThreadStepKeeps(s, step);
    }
  }

  lemma WorkKept(s: State, step: Step, w: Work)
    requires Wf(s) && Enabled(s, step) && (Pending(s, w) || w in s.started) && Wf(Apply(s, step))
    ensures Pending(Apply(s, step), w) || w in Apply(s, step).started
  {
    if step.Act? {
      ActKeeps(s, step.c, w);
    } else {
      OtherKeeps(s, step);
      if w !in s.started {
        var d, i :| d in s.cpus && 0 <= i < 2 && w in s.cpus[d].queues[i];
        assert w in Apply(s, step).cpus[d].queues[i];
      }
    }
  }

  lemma DeferPending(d: State, c: CpuId, id: nat)
    requires Inv(d) && Enabled(d, Defer(c, id))
    ensures Pending(DoDefer(d, c, id), Work(id, d.cpus[c].workWid, OpenSections(d)))
  {
    var w := Work(id, d.cpus[c].workWid, OpenSections(d));
    assert w in DoDefer(d, c, id).cpus[c].queues[d.cpus[c].workWid % 2];
  }

  lemma {:induction false} WorkKeptInRun(s: State, steps: seq<Step>, to: State, w: Work)
    requires Inv(s) && Run(s, steps, to) && (Pending(s, w) || w in s.started)
    ensures Wf(to) && (Pending(to, w) || w in to.started)
    decreases |steps|
  {
    if steps != [] {
      StepInv(s, steps[0]);
      WorkKept(s, steps[0], w);
      WorkKeptInRun(Apply(s, steps[0]), steps[1..], to, w);
    }
  }

  /** No deferred work is lost: once the window it was deferred in is neither the current nor the
      previous one, the work has been started. */
  lemma WorkStarted(n: nat, before: seq<Step>, d: State, c: CpuId, id: nat, after: seq<Step>, e: State)
    requires n > 0 && Run(Init(n), before, d) && Wf(d) && Enabled(d, Defer(c, id))
    requires Run(DoDefer(d, c, id), after, e)
    requires d.cpus[c].workWid != e.wid && d.cpus[c].workWid != Prev(e.wid)
    ensures Work(id, d.cpus[c].workWid, OpenSections(d)) in e.started
  {
    hide Inv, Run, Pending, Init;
    InitInv(n);
    RunInv(Init(n), before, d);
    DeferInv(d, c, id);
    var w := Work(id, d.cpus[c].workWid, OpenSections(d));
    DeferPending(d, c, id);
    WorkKeptInRun(DoDefer(d, c, id), after, e, w);
    RunInv(DoDefer(d, c, id), after, e);
    if w !in e.started {
      PendingWid(e, w);
    }
  }
}
