# Verified models of the x15 kernel cores

This project models twelve self-contained cores of the x15 kernel and proves what each of them is for. Every module
stands for one core and can be read alone; `Turnstile` uses `Plist`.

Concurrent cores are state machines. One record holds the shared state, each transition is one atomic step of the
code (what a processor or thread does between two accesses to shared data), and any number of processors, threads,
locks or counters may take the next step. Their theorems hold in every run from the initial states.

- `Rcu`: grace periods. Two windows told apart by the parity of a 32-bit identifier that wraps, a three-phase state,
  per-processor identifiers and an acknowledgement counter. A deferred work starts only after every read-side section
  that was open at its deferral has been left.
- `Sref`: scalable reference counters with per-processor delta caches, epochs, two review queues, dirty zeroes, weak
  references, and processors that come and go. The no-reference work of a counter is queued only when no reference is
  left anywhere and none can appear any more.
- `Spinlock`: the queued spin lock, where the owner is not in the queue and only the first waiter watches the word.
- `Mutex`: the plain mutex over sleep queues, with timeouts that race signals.

Sequential cores are classes whose methods update their fields the way the code does, each proved against a
specification that does not mention the method's steps.

- `RbTree`: the red-black tree on real linked nodes with parent pointers. A ghost tree and a path to the place being
  worked on say what the heap holds in the middle of the rebalancing loops.
- `RdxTree`: the radix tree on linked nodes, with growing, shrinking, allocation bitmaps and allocation failure.
- `VmPage`: the buddy allocator of a zone, and the per-processor pools in front of it.
- `VmMap`: the address map, with merging, clipping and its two caches.
- `Plist` and `Turnstile`: sorted waiter lists and priority inheritance along the owner/waiter graph.
- `FairSched`: accounting of the fair-scheduling run queues.
- `Init`: the dependency sort and the execution of initialization operations.
- `Cbuf`: the circular byte buffer with wrapping absolute indexes.

`Common` has the datatypes and functions several of them use.

Where a comment and the code disagree, the models follow the code. The comment on `plist_add` places a node before its
equals (kern/plist.h:199-200); the code places it after them, and in effect puts every node on `prio_list`
(kern/plist.c:35-46). `rdxtree_insert_bm_clear` climbs when a node has 64 entries, not when its bitmap is empty
(kern/rdxtree.c:448), so key allocation returns a free key, not always the smallest.

Some properties hold under a condition, which is then stated exactly.

- The works of a fair run queue are the sums over its threads as long as two things are avoided, because a thread keeps
  its work in 16 bits (kern/thread_i.h:73-74) while its group and its queue keep theirs in 32. A tick keeps the sums
  exactly when it does not take the thread's work from 65535 to 0 (`FairSched.ConsistentTick`, `FairSched.Runq.Tick`):
  a tick only asks the running thread to yield, and 2^16 of them may come first. An addition in another round keeps them
  exactly when the share charged is below 2^16 (`FairSched.Runq.Add`), which holds whenever every thread is within its
  weight, and for any weight of the kernel when no thread did more than 16 times its own. Every other operation keeps
  right sums right. `FairSched.DriftRun` is a run that ends with 65536 units of work in a queue without threads.
- That every thread is within its weight can fail: a tick only asks the running thread to yield, and a thread added
  before it does can be charged more than its weight. For a share below 2^16, this happens exactly when
  `work * w >= weight * (w + 1)` for the work and weight of its group, or of the queue when the group is empty
  (`FairSched.ShareWithin`, `FairSched.Runq.Add`).
  `FairSched.OverchargeRun` is such a run, for every priority; it ends with the assertion of the next enqueue failing
  when a balancer pulls that thread.
- A comment says that a balancer keeps the work of the thread it pulls (kern/thread.c:1379); the code does so exactly
  when the pulling processor has threads or is in the highest round (`FairSched.Runq.Pull`).
- A key allocated in a radix tree is the one the pointer is stored at, except in a tree of the full height when all of
  the first 16 bits of the root's bitmap are clear and another one is set: the key is cut to 64 bits then
  (`RdxTree.RdxTree.InsertAlloc`). A walk of such a tree shifts by more than 64 bits at its end, unless the sixteenth
  entry of the root is in use (`RdxTree.RdxTree.ForEach`).
- The initialization code panics exactly when an operation has 256 parents or more, and halts exactly when there is a
  cycle (`Init.Ops.Setup`).
- A reschedule after ticks fails an assertion exactly when the thread's 16-bit work exceeds twice its weight
  (`FairSched.Runq.PutPrev`).

`dafny verify dfyconfig.toml` checks the whole project.

## Model

| member | source | states |
|---|---|---|
| Rcu.StepInv | kern/rcu.c:264-445 | Every step of every processor keeps the protocol invariant (reader windows never behind by more than one, acknowledgements counted exactly, only the thread running on a processor unlinked there), and the assertions of the modelled steps hold |
| Rcu.RunInv | kern/rcu.c:632-676 | The invariant holds after any run of any length |
| Rcu.InitInv | kern/rcu.c:447-466 | The boot state, with the window identifier 500 below the wrap-around, satisfies the invariant for any number of processors |
| Rcu.GracePeriod | kern/rcu.c:703-715 | In every run, once a deferred work has been started, each read-side section that was open at its deferral has been left, even when the window identifier wraps |
| Rcu.WorkStarted | kern/rcu.c:535-544 | A deferred work is started by the time the window it was deferred in is neither the current nor the previous one |
| Rcu.WorkKept | kern/rcu.c:526-533 | No step loses a deferred work: it stays pending in a window of a queue or has been started |
| Rcu.Chained | kern/rcu.c:383-431 | At any time exactly one thing can move the grace period on: missing acknowledgements, a last acknowledgement, readers of the ended window, its no-reference work, or the timer |
| Rcu.NoOldReader | kern/rcu.c:613-630 | When works are flushed, no open section blocks a work of the flushed window |
| Rcu.ReadLeaveInv | kern/rcu_i.h:50-59 | Leaving the outermost section, with the unlinking and the reference it may drop, keeps the invariant |
| Rcu.ReadEnterInv | kern/rcu_i.h:43-48 | Entering a section keeps the invariant without any shared access |
| Rcu.SwitchInv | kern/rcu.c:571-611 | A context switch links a thread that is inside a section to the window its processor reads in, and keeps the invariant |
| Rcu.LastAckDone | kern/rcu.c:383-413 | The processor that brings the counter to zero is the only one to do so, and all processors have acknowledged |
| Sref.StepInv | kern/sref.c:376-394 | Every step keeps the invariant of counters, caches, epochs and queues, and no assertion of the code fails |
| Sref.RunInv | kern/sref.c:887-976 | The invariant holds in every run, with processors registering and unregistering |
| Sref.TrueCountIsRefs | kern/sref.c:592-628 | In every run the global value plus the deltas of all caches equals the references clients hold, and a counter whose global value is zero is on the list it says |
| Sref.NoRefIsTrue | kern/sref.c:710-781 | The no-reference work of a counter is queued only by the review of that counter, when its true count is zero and no cache refers to it, and it is gone from then on |
| Sref.GoneStays | kern/sref.c:249-277 | A counter that is gone stays so in every run until it is initialized again |
| Sref.GetIsLive | kern/sref.c:265-277 | A get through a weak reference finds the counter exactly when its no-reference work has not been queued |
| Sref.EvictInv | kern/sref.c:592-628 | A collision that evicts a delta, with the review it may schedule, keeps the invariant |
| Sref.ReviewInv | kern/sref.c:710-781 | Each case of the review (revived, dirty, dead, weak reference lost) keeps the invariant |
| Sref.EndEpochQuiet | kern/sref.c:475-504 | After the last flush of an epoch, no cache of a pending processor hides a delta for a counter about to be reviewed |
| Sref.EndEpochInv | kern/sref.c:475-504 | The queue switch at the end of an epoch, and the shortcut for one processor, keep the invariant |
| Sref.UnregisterInv | kern/sref.c:918-976 | A processor that leaves, ending the epoch when it was the last one pending, keeps the invariant |
| Sref.RegisterInv | kern/sref.c:887-916 | A processor that joins keeps the invariant |
| Spinlock.WordPacked | kern/spinlock.c:132-151 | A lock word packs the locked bit and the tail context in 32 bits and unpacks to the same, and only the free and the uncontended locked word have the values 0 and 1 |
| Spinlock.StepInv | kern/spinlock.c:309-345 | Every atomic step of the fast path, the queue hand-off and the unlock keeps the invariant of all locks, contexts and qnodes |
| Spinlock.MutualExclusion | kern/spinlock_i.h:63-97 | In every run at most one context holds a lock, and then the locked bit is set |
| Spinlock.FirstComeFirstServed | kern/spinlock.c:234-345 | In every run each step takes contexts into and out of the queue of a lock in order, and a context takes a lock only from the head of the queue or with an empty queue |
| Spinlock.QnodeFree | kern/spinlock.c:222-232 | Outside the slow path, no lock word and no operation in progress refers to a context's qnode, so one qnode per context is enough for any number of held locks |
| Spinlock.NotStuck | kern/spinlock.c:277-307 | When nobody holds a lock with a non-empty queue, some queued context can take a step |
| Spinlock.DowngradeFails | kern/spinlock.c:293-307 | The first waiter's attempt to leave the word without a tail fails exactly when another context is queued behind it |
| Plist.Add | kern/plist.c:24-49 | The insertion loop returns the list with the node put after all nodes of the same or lower priority |
| Plist.InsertSorted | kern/plist.c:24-49 | Insertion keeps the list sorted |
| Plist.InsertMembers | kern/plist.c:24-49 | Insertion adds exactly the node |
| Plist.InsertLast | kern/plist.c:35-48 | After an insertion the last node is the new one unless the old last one has a higher priority |
| Plist.RemoveSorted | kern/plist.c:51-68 | Removal keeps the list sorted and its nodes distinct |
| Plist.RemoveMembers | kern/plist.c:51-68 | Removal takes out exactly the node |
| Turnstile.InheritsMaximum | kern/turnstile.c:306-391 | In a consistent acyclic graph, a thread's real priority is the maximum of the user priorities of the threads that transitively wait for it, itself included |
| Turnstile.InheritedFrom | kern/turnstile.c:232-254 | A thread whose real priority is not its own has a direct waiter with that real priority |
| Turnstile.Attained | kern/turnstile.c:232-254 | The chain of waiters a boosted priority comes from ends at a thread with that user priority |
| Turnstile.IterationCorrect | kern/turnstile.c:306-391 | One round of the propagation loop, when all but one thread is consistent, either makes all consistent (including the early exits) or moves the exception to the owner of the turnstile |
| Turnstile.RequeueOwned | kern/turnstile.c:204-217 | Requeueing a waiter and telling the owner leaves only the owner inconsistent |
| Turnstile.OwnBase | kern/turnstile.c:256-272 | Owning a turnstile changes the owner's list by that turnstile only and keeps every list sorted |
| Turnstile.DisownBase | kern/turnstile.c:274-284 | Disowning a turnstile changes the owner's list by that turnstile only and keeps every list sorted |
| Turnstile.ReownBase | kern/turnstile.c:289-297 | Moving an owned turnstile to its new priority keeps every list sorted |
| Turnstile.WaitStartBase | kern/turnstile.c:697-775 | A thread that starts waiting leaves only the owner inconsistent |
| Turnstile.LeaveStartBase | kern/turnstile.c:697-775 | A waiter that times out leaves only the owner inconsistent |
| Turnstile.AcquireConsistent | kern/turnstile.c:808-829 | A waiter that leaves the turnstile and becomes its owner is consistent at once, without propagation |
| Turnstile.Inheritance.Propagate | kern/turnstile.c:306-403 | The propagation loop terminates on an acyclic graph and restores consistency, changing nothing of who waits on and owns what |
| Turnstile.Inheritance.Iterate | kern/turnstile.c:306-391 | One round of the loop, in place, on a graph where all but one thread is consistent: either all are consistent afterwards, or the exception moved to the owner of the turnstile the thread waits on, and nobody waits on or owns anything else than before |
| Turnstile.Inheritance.Wait | kern/turnstile.c:697-775 | Waiting on a turnstile, with the propagation it starts, keeps the graph consistent |
| Turnstile.Inheritance.TimedOut | kern/turnstile.c:697-775 | Giving up on a wait keeps the graph consistent |
| Turnstile.Inheritance.SetScheduler | kern/thread.c:2729-2801 | Changing a thread's user priority, with the propagation it starts, keeps the graph consistent |
| Turnstile.Inheritance.Release | kern/turnstile.c:831-850 | Disowning a turnstile lowers its former owner, and those behind it, to a consistent graph |
| Turnstile.Inheritance.TellOwner | kern/turnstile.c:667-695 | After the waiters of a turnstile changed, telling its owner leaves at most that owner inconsistent, changes no other thread, and makes it own the turnstile exactly when there are waiters |
| Mutex.StepInv | kern/mutex/mutex_plain.c:74-159 | Every step of lockers, unlockers, timeouts and signals keeps the invariant of the mutex word, the sleep queue and its waiters |
| Mutex.RunInv | kern/mutex/mutex_plain.c:74-159 | The invariant holds in every run |
| Mutex.MutualExclusion | kern/mutex/mutex_plain_i.h:47-73 | In every run at most one thread owns the mutex, and the word is not zero exactly when one does |
| Mutex.NoLostWakeup | kern/mutex/mutex_plain.c:86-121 | While a waiter sleeps unsignalled, the word is contended, or an unlocker is about to signal, or a signalled waiter is awake or, once awake, about to swap the word, also when timeouts race signals |
| Mutex.NotStuck | kern/mutex/mutex_plain.c:144-159 | While a waiter sleeps and the bucket lock is free, an unlock, a signal or a resumption is possible; while the lock is held, its holder can go on |
| Mutex.SignalledInOrder | kern/sleepq.c:398-442 | A signal wakes the waiter that has been waiting longest among those not signalled yet |
| Mutex.QueueReady | kern/sleepq.c:347-396 | A thread about to lend has a queue, a thread inside finds one to take back, and no queue is ever held by two threads, or held and lent, or lent twice |
| Mutex.LastQueue | kern/sleepq.c:375-396 | The last lent queue is returned with no waiter left on it |
| RbTree.RotateAt | kern/rbtree.c:148-175 | The pointer writes of a rotation turn the heap of a tree into that of the rotated tree, parent links and root included |
| RbTree.SwapAt | kern/rbtree.c:299-335 | The pointer writes that put the successor in the place of a node with two children give the heap of the resulting tree |
| RbTree.PlugRedBlack | kern/rbtree.c:177-246 | A balanced subtree that fits the black height and colour of its place gives a red-black tree |
| RbTree.UnplugRedBlack | kern/rbtree.c:282-432 | Any subtree of a red-black tree fits its place |
| RbTree.InsertFlipped | kern/rbtree.c:215-225 | Flipping the colours of parent, uncle and grandparent moves a red-red edge two levels up, and changes neither order nor black heights |
| RbTree.InsertLifted | kern/rbtree.c:227-243 | One or two rotations with a black uncle remove the red-red edge and keep the order |
| RbTree.TurnedShort | kern/rbtree.c:381-390 | A rotation towards the short side gives it a black brother and keeps the order |
| RbTree.FadedShort | kern/rbtree.c:394-405 | Reddening a brother with black children moves the shortage one level up, or ends it at a red parent |
| RbTree.MendedRedBlack | kern/rbtree.c:407-428 | With a red nephew, one or two rotations end the shortage and keep the order |
| RbTree.SpliceContents | kern/rbtree.c:340-355 | Linking the only child of a node to its parent removes exactly that node from the order |
| RbTree.SwapContents | kern/rbtree.c:292-338 | Putting the successor in the place of a node removes exactly that node from the order |
| RbTree.InsertedHere | kern/rbtree.h:195-213 | A node linked where the search ended is at its place in the sorted order |
| RbTree.NextAt | kern/rbtree.c:468-509 | The end of the child subtree, or else the first ancestor on the other side, is the in-order neighbour |
| RbTree.BeyondNearest | kern/rbtree.c:434-450 | Where a search fails, the first ancestor on the asked side is the closest key on that side |
| RbTree.PostOnce | kern/rbtree.h:317-321 | The postorder visits every node exactly once |
| RbTree.ChildrenFirst | kern/rbtree.h:317-321 | The postorder visits a node before its parent |
| RbTree.ForemostPost | kern/rbtree.c:511-523 | The deepest node is first in postorder |
| RbTree.RbTree.Rotate | kern/rbtree.c:148-175 | A rotation in place, at any node of a tree |
| RbTree.RbTree.InsertRebalance | kern/rbtree.c:177-246 | The insertion loop terminates with a valid red-black tree whose order has the new node exactly where it was linked |
| RbTree.RbTree.Insert | kern/rbtree.h:195-213 | Insertion of a node with a new key gives the sorted order with the node, and a valid tree |
| RbTree.RbTree.ReplaceSlot | kern/rbtree.c:248-280 | The node in a slot is exchanged for another, the order otherwise unchanged, and returned |
| RbTree.RbTree.Remove | kern/rbtree.c:282-432 | Removal keeps the tree valid and takes exactly the node out of the order, for every shape and colour around it |
| RbTree.RbTree.RemoveRebalance | kern/rbtree.c:361-432 | The removal loop terminates and ends any shortage of one black node without changing the order |
| RbTree.RbTree.Search | kern/rbtree.h:226-249 | The search ends at the node with the key, or at the empty place the key belongs to |
| RbTree.RbTree.Lookup | kern/rbtree.h:121-139 | The lookup returns the node with the key, and nothing only when there is none |
| RbTree.RbTree.LookupNearest | kern/rbtree.h:151-177 | The nearest lookup returns the match, or the closest key on the asked side, or nothing when that side is empty |
| RbTree.RbTree.NearestNode | kern/rbtree.c:434-450 | The climb from an empty place returns the first ancestor on the asked side |
| RbTree.RbTree.FirstLast | kern/rbtree.c:452-466 | The descent returns the first or last node, or nothing for an empty tree |
| RbTree.RbTree.Walk | kern/rbtree.c:468-509 | The walk returns the in-order neighbour of a node, or nothing at the end |
| RbTree.RbTree.FindDeepest | kern/rbtree.c:121-140 | The descent ends at the childless node that comes first in postorder |
| RbTree.RbTree.PostwalkUnlink | kern/rbtree.c:525-553 | Unlinking a visited node leads to the next one in postorder |
| RbTree.RbTree.ForEachRemove | kern/rbtree.h:317-321 | The destroy loop terminates and visits exactly the postorder of the tree |
| RbTree.RbTree.InTree | kern/rbtree.h:88-92 | A node in a tree is not taken for an unlinked one |
| RdxTree.Unique | kern/rdxtree.c:199-205 | Two nodes of the same height with the same key prefix are the same node |
| RdxTree.Absent | kern/rdxtree.c:688-738 | An empty entry on the path of a key means that the key is unbound |
| RdxTree.KeyFits | kern/rdxtree.c:306-318 | A bound key fits the height of the tree |
| RdxTree.MaxKeyFits | kern/rdxtree.c:306-318 | The computed maximum key of a height bounds exactly the keys of that many 6-bit digits, also at height 11 where it is cut to 64 bits |
| RdxTree.PutPtrModels | kern/rdxtree.c:226-235 | Storing a pointer in an empty leaf entry binds exactly the key of that entry |
| RdxTree.TakePtrModels | kern/rdxtree.c:244-252 | Clearing a leaf entry unbinds exactly its key |
| RdxTree.ClearStep | kern/rdxtree.c:442-455 | Clearing a bit and climbing while nodes are full restores the bitmap invariant |
| RdxTree.SetStep | kern/rdxtree.c:627-640 | Setting a bit and climbing until a bit is set restores the bitmap invariant |
| RdxTree.AllocEntry | kern/rdxtree.c:543-625 | A set bit leads to an empty entry or to a child with a set bit, never to a bound key |
| RdxTree.EmptyIsFresh | kern/rdxtree.c:137-179 | A node whose last entry was removed is back in constructor state |
| RdxTree.GrowModels | kern/rdxtree.c:363-411 | A new root above the old one leaves the map unchanged |
| RdxTree.ShrinkModels | kern/rdxtree.c:326-361 | Taking the root's only first child as the root leaves the map unchanged |
| RdxTree.ReplacedSound | kern/rdxtree.c:740-753 | Storing in the slot of a bound key rebinds exactly that key |
| RdxTree.GapNode | kern/rdxtree.c:254-274 | A run of empty entries of a node is a range without bound keys |
| RdxTree.WalkVisit | kern/rdxtree.c:755-824 | Skipping empty entries during the walk skips no bound key, and the restart key is the next one possible |
| RdxTree.RdxTree.Insert | kern/rdxtree.c:457-541 | Insertion binds the key, or fails with the map and the shape intact: busy exactly for a bound key, and out of memory at whichever node creation fails |
| RdxTree.RdxTree.InsertAlloc | kern/rdxtree.c:543-625 | With key allocation, insertion binds a previously unbound key and returns it, cut to 64 bits exactly in the full-height case; the tree grows exactly when the root's bitmap has no set bit; a failure leaves the map and the shape intact |
| RdxTree.RdxTree.InsertDown | kern/rdxtree.c:493-541 | The descent of an insertion, with its cleanup on failure |
| RdxTree.RdxTree.AllocDown | kern/rdxtree.c:574-612 | The descent along the bitmaps stores at an unbound key exactly when the root's bitmap has a set bit, unless a node cannot be allocated; it changes nothing otherwise |
| RdxTree.RdxTree.Remove | kern/rdxtree.c:642-686 | Removal unbinds exactly the key and returns its pointer, and leaves no empty node and no shrinkable root |
| RdxTree.RdxTree.Lookup | kern/rdxtree.c:688-738 | The lookup agrees with the map for every 64-bit key, and returns the key's slot |
| RdxTree.RdxTree.ReplaceSlot | kern/rdxtree.c:740-753 | Replacement through a slot rebinds the slot's key and returns the old pointer |
| RdxTree.RdxTree.Grow | kern/rdxtree.c:363-411 | The tree grows to the height the key needs, or fails with the tree intact |
| RdxTree.RdxTree.Shrink | kern/rdxtree.c:326-361 | The tree shrinks until its root is needed, the map unchanged |
| RdxTree.RdxTree.Cleanup | kern/rdxtree.c:413-440 | Empty nodes are removed upwards from a node, the map unchanged |
| RdxTree.RdxTree.InsertBmClear | kern/rdxtree.c:442-455 | The loop restores the bitmaps after an insertion, touching only bitmaps |
| RdxTree.RdxTree.RemoveBmSet | kern/rdxtree.c:627-640 | The loop readies the bitmaps for a removal, touching only bitmaps |
| RdxTree.RdxTree.NodeFind | kern/rdxtree.c:254-274 | The search in a node returns its first entry in use |
| RdxTree.RdxTree.WalkNext | kern/rdxtree.c:755-824 | From an iterator, the next bound key with its pointer, across restarts, or the end when there is none |
| RdxTree.RdxTree.Walk | kern/rdxtree.c:826-849 | The same through the fast path inside a leaf |
| RdxTree.RdxTree.ForEach | kern/rdxtree.h:184-187 | The iteration over an unmodified tree terminates and yields exactly the bound keys, each once, in ascending order |
| VmPage.AddBlock | vm/vm_page.c:254-293 | Adding a block whose buddy is not wholly free changes the maximal free blocks by exactly that block |
| VmPage.ListAdd | vm/vm_page.c:254-293 | Listing such a block keeps the lists coalesced |
| VmPage.ListRemove | vm/vm_page.c:218-252 | Unlisting a block keeps the lists coalesced |
| VmPage.WholeListed | vm/vm_page.c:218-252 | Every wholly free aligned block is inside a listed block of at least its order |
| VmPage.SameLists | vm/vm_page.c:218-293 | The listed blocks depend only on the set of free pages, not on the history |
| VmPage.Partition | vm/vm_page.c:191-216 | The listed blocks are disjoint and cover exactly the free pages |
| VmPage.TotalFree | vm/vm_page.c:218-293 | The sizes of the listed blocks add up to the number of free pages |
| VmPage.Zone.AllocThenFree | vm/vm_page.c:218-293 | Freeing a block just allocated gives back the very same listed blocks and page orders, whatever was split |
| VmPage.Zone.AllocFromBuddy | vm/vm_page.c:218-252 | Allocation takes an aligned, wholly free block of the order, and fails only if there is none in the zone |
| VmPage.Zone.FreeToBuddy | vm/vm_page.c:254-293 | Freeing adds exactly the block to the free pages and merges as far as possible |
| VmPage.PooledZone.Fill | vm/vm_page.c:332-356 | Filling a pool moves pages from the buddy lists to it and loses none, and gets none only when the zone has none |
| VmPage.PooledZone.Drain | vm/vm_page.c:358-375 | Draining a full pool moves pages back and loses none |
| VmPage.PooledZone.Alloc | vm/vm_page.c:431-472 | Allocation takes exactly an aligned available block, and fails only when the zone (and, for one page, the processor's pool) has none |
| VmPage.PooledZone.Free | vm/vm_page.c:474-502 | Freeing makes exactly the block available again |
| VmPage.PooledZone.Manage | vm/vm_page.c:768-776 | Handing a reserved page over makes exactly that page available |
| VmMap.SplitSame | vm/vm_map.c:588-601 | Splitting an entry changes no mapping and no length |
| VmMap.JoinSame | vm/vm_map.c:398-407 | Joining compatible adjacent entries changes no mapping and no length |
| VmMap.GapClear | vm/vm_map.c:194-225 | A range is free exactly when the nearest entry starts after it |
| VmMap.SmallStep | vm/vm_map.c:287-313 | Passing an entry during the search keeps every hole seen so far at most the threshold |
| VmMap.CacheKept | vm/vm_map.c:554-586 | After an insertion, all holes below the find cache are still at most the threshold |
| VmMap.VmMap.LookupNearest | vm/vm_map.c:160-185 | The lookup returns the nearest entry, whatever the lookup cache holds |
| VmMap.VmMap.FindFixed | vm/vm_map.c:194-225 | A fixed request succeeds exactly when its range fits |
| VmMap.VmMap.Scan | vm/vm_map.c:261-315 | The scan returns the first fit from the start of the map, and fails only if nothing fits |
| VmMap.VmMap.FindAvail | vm/vm_map.c:227-315 | A hint that fits is taken; otherwise the cached search returns the first fit from the start of the map, and fails only if no hole fits |
| VmMap.VmMap.MergeNear | vm/vm_map.c:458-489 | Merging a new range with both neighbours equals inserting it |
| VmMap.VmMap.MergePrev | vm/vm_map.c:409-430 | Merging with the previous entry equals inserting |
| VmMap.VmMap.MergeNext | vm/vm_map.c:432-456 | Merging with the next entry equals inserting |
| VmMap.VmMap.TryMerge | vm/vm_map.c:491-521 | A merge that happens equals inserting; one that does not changes nothing |
| VmMap.VmMap.Insert | vm/vm_map.c:528-552 | Insertion adds exactly the mappings and the length of the entry |
| VmMap.VmMap.Enter | vm/vm_map.c:554-586 | Entering maps exactly the chosen range, with object, effective offset and flags, and leaves every other address as it was; the range is the hint, the fixed one or the first fit; a failure changes no mapping |
| VmMap.VmMap.ClipStart | vm/vm_map.c:603-620 | Clipping changes no mapping and splits the entry exactly when the address is inside it |
| VmMap.VmMap.ClipEnd | vm/vm_map.c:622-638 | The same at the end |
| VmMap.VmMap.Remove | vm/vm_map.c:640-680 | Removal unmaps exactly the range and leaves every other address as it was; the caches stay right |
| FairSched.ScaleWraps | kern/thread.c:896-909 | For 32-bit operands, both the 32-bit and the 64-bit computation give the quotient cut to 32 bits |
| FairSched.GroupShare | kern/thread.c:961-970 | The scaled work of a growing group keeps its ratio of work to weight, rounded down |
| FairSched.ChargedShare | kern/thread.c:955-975 | When the works are the sums, what the code adds for a newcomer is exactly its share: no 32-bit truncation loses any of it |
| FairSched.ShareBelow | kern/thread.c:955-975 | A newcomer owes at most k times its weight when every thread of the queue did at most k times its own |
| FairSched.ShareWithin | kern/thread.c:955-975 | The exact condition for a newcomer to be charged no more than its weight |
| FairSched.ShareFits | kern/thread.c:955-975 | The condition holds when all threads of the queue are within their weights |
| FairSched.Overcharged | kern/thread.c:955-975 | The condition fails for any priority and weight when the only thread is a tick over its weight |
| FairSched.OverchargeRun | kern/thread.c:911-985 | A run from boot, made of operations only, in which a newcomer is charged one more than its weight, and the assertion on its work fails when it is pulled |
| FairSched.DriftRun | kern/thread.c:1212-1224 | A run from boot in which the only thread gets 2^16 ticks: its work is zero, no assertion fails, and once it sleeps its queue and group keep 65536 units of work without any thread |
| FairSched.PulledPushed | kern/thread.c:1036-1043 | Taking a thread out of the totals undoes queueing it exactly when it brought the work it remembers |
| FairSched.PushDrift | kern/thread.c:947-985 | What the works count beyond the threads grows by what a thread brings beyond the 16 bits it remembers |
| FairSched.DropDrift | kern/thread.c:1036-1043 | Taking a thread out never changes what the works count beyond the threads |
| FairSched.TickDrift | kern/thread.c:1212-1224 | A tick adds 2^16 to what the works count beyond the threads when it wraps the thread's work, and nothing otherwise |
| FairSched.ConsistentTick | kern/thread.c:1212-1224 | From totals that are the sums, a tick keeps them so exactly when the thread's work was below 65535 |
| FairSched.ExactSums | kern/thread.c:216-224 | The totals are the exact sums when these fit in 32 bits |
| FairSched.ConsistentPush | kern/thread.c:947-985 | From totals that are the sums, queueing a thread keeps them so, for the queue and every group, exactly when it brings the work it remembers |
| FairSched.ConsistentDrop | kern/thread.c:1036-1043 | The totals with a thread taken away are the sums exactly when they were before |
| FairSched.WithinWeight | kern/thread.c:919-920 | When every thread is within its weight, so are the queue and every group |
| FairSched.PlacedListed | kern/thread.c:925-945 | A group moved to the place its weight asks for leaves the list of groups sorted and complete |
| FairSched.RaiseGroup | kern/thread.c:925-945 | The loop moves a group that grows before all lighter groups and after all others, keeping their order |
| FairSched.LowerGroup | kern/thread.c:1045-1065 | The loop moves a group that shrinks behind all heavier groups, or unlinks it when it is empty |
| FairSched.RatioExact | kern/thread.c:1117-1136 | The comparison of two groups is the exact comparison of their work per weight, on 64 bits always and on 32 bits for works of at most 16 bits |
| FairSched.RatioWraps | kern/thread.c:1117-1136 | On 32 bits, with more work, a group far ahead of the next one can pass for one that is not |
| FairSched.ChoiceExact | kern/thread.c:1138-1174 | When all threads are within their weights, the next group is the one after the current one if the current one did more per weight, and the heaviest one otherwise |
| FairSched.EmptyQueue | kern/thread.c:987-1001 | A queue has no weight, no group and a zero count exactly when it has no thread |
| FairSched.FsRunq.Enqueue | kern/thread.c:911-985 | A thread is queued with its own work in its round, or charged its share in another round; the sums stay right exactly when the charge fits in 16 bits, and the thread is then within its weight under the exact condition; all weights and orders hold again |
| FairSched.FsRunq.Dequeue | kern/thread.c:1024-1066 | A thread is taken out with its work and weight, the sums are right exactly when they were, all orders hold again, and the current group still leads to the group after it |
| FairSched.Runq.Add | kern/thread.c:1003-1022 | At any time, an addition panics exactly when the weight would wrap and fails the assertion exactly when the thread did more than its weight; in another round it keeps the sums exactly when the share is below 2^16; it leaves all threads within their weights exactly when the newcomer is |
| FairSched.Runq.Remove | kern/thread.c:1068-1084 | Removing a thread from either queue takes out its weight and work, keeps right sums right and all bounds, also while the running thread is over its weight, and wakes the balancer exactly when the active queue becomes empty |
| FairSched.Runq.Pull | kern/thread.c:1374-1381 | A balancer takes a thread over, with its work unless the processor was idle in another round, and fails the assertion exactly when the work is more than its weight; both processors keep their accounting |
| FairSched.Runq.Tick | kern/thread.c:1212-1224 | A tick adds one to thread, group and queue in their widths, keeps the sums exactly when the thread's work was below 65535, and keeps the bounds of all other threads |
| FairSched.Runq.PutPrev | kern/thread.c:1102-1115 | The reschedule after ticks puts every thread within its weight again, expiring the running one exactly when its 16-bit work reached its weight, and fails an assertion exactly when that work exceeds twice its weight |
| FairSched.Runq.Schedule | kern/thread.c:613-639 | A reschedule, with the running thread staying or going to sleep, keeps all accounting and puts every thread within its weight, and fails exactly when the 16-bit work exceeds twice the weight |
| FairSched.Runq.Deactivate | kern/thread.c:1086-1100 | An expired thread carries the next round and keeps the work beyond its weight; the sums of both queues are right exactly when they were |
| FairSched.Runq.GetNext | kern/thread.c:1138-1174 | The first thread of the group chosen by the ratios runs, also when the current group has just left the list, and none only when the queue is empty |
| FairSched.Runq.SetNext | kern/thread.c:1204-1210 | The thread that keeps running after a requeue leaves its group's list only |
| FairSched.Runq.StartNextRound | kern/thread.c:1226-1246 | The swap keeps active and expired threads at the current and the next round, also when the round wraps in the width of a long integer, and updates the highest round by signed comparison |
| FairSched.Thread.UpdatePriority | kern/thread.c:1186-1195 | A new priority leaves the thread within its new weight |
| Init.SortedAcyclic | kern/init.c:352-379 | A complete sort excludes any cycle |
| Init.LeftoverCycle | kern/init.c:352-379 | Operations that all keep a parent among themselves contain a cycle |
| Init.SortedAll | kern/init.c:352-379 | A sort that stopped holds all operations exactly when the graph has no cycle, and is then an order with dependencies first |
| Init.SuccessBelow | kern/init.c:174-190 | When a function is called, the functions of all its transitive required dependencies have succeeded |
| Init.FailureBelow | kern/init.c:174-190 | When a function is not called, some transitive required dependency was called and failed |
| Init.CalledIff | kern/init.c:174-200 | A function is called if and only if the functions of all its transitive required dependencies succeed |
| Init.Ops.InitOp | kern/init.c:130-140 | The dependencies of an operation are counted, or the 8-bit count that wraps is noticed |
| Init.Ops.Bootstrap | kern/init.c:325-335 | The counts are those of the graph, and the assertion fails exactly when an operation has 256 parents or more |
| Init.Ops.ScanRoots | kern/init.c:337-350 | The stack starts with exactly the operations without parents |
| Init.Ops.Visit | kern/init.c:296-310 | The counts stay those of the operations not yet sorted, and exactly the operations they free are pushed |
| Init.Ops.ScanOps | kern/init.c:352-379 | The sort terminates, halts exactly when there is a cycle, and otherwise lists every operation once after its dependencies |
| Init.Ops.CheckReady | kern/init.c:174-190 | An operation is ready exactly when all dependencies completed and the required ones succeeded |
| Init.Ops.RunOps | kern/init.c:381-396 | Every operation completes exactly once in the order of the list, and exactly the ready ones are called |
| Init.Ops.Setup | kern/init.c:398-408 | The outcome for any graph: panic, halt, or every operation completed after its dependencies with the settled errors |
| Cbuf.WrapKeepsSlot | kern/cbuf.c:44-48 | The slot of an index does not depend on the wrap-around of indexes, for every power-of-two capacity |
| Cbuf.WriteWindow | kern/cbuf.c:124-162 | The bytes copied into the storage are the last ones of the overwritten sequence |
| Cbuf.Execute | kern/cbuf.c:59-197 | Any sequence of pushes, pops, byte operations, writes and clears on a buffer, at any start index, does to its contents what it does to a byte sequence, and pops the same bytes |
| Cbuf.LatestKept | kern/cbuf.c:59-197 | Every operation keeps the contents the latest bytes of the stream that entered the buffer, at most a capacity of them |
| Cbuf.RunKeepsLast | kern/cbuf.h:96-102 | After any run of operations the buffer holds the latest bytes that entered it, in order, at most a capacity of them |
| Cbuf.RunFirstInFirstOut | kern/cbuf.h:104-113 | In a run that erases nothing, every byte of the stream is popped once, in order, or still in the buffer |
| Cbuf.CircularBuffer.RangeToEnd | kern/cbuf.h:80-86 | The range check up to the end accepts exactly the offsets up to the size |
| Cbuf.CircularBuffer.RangeOfByte | kern/cbuf.h:80-86 | The range check of one byte accepts exactly the offsets below the size |
| Cbuf.CircularBuffer.RangeOfWrite | kern/cbuf.c:129-135 | The range check of a write accepts exactly the writes that do not pass the end |
| Cbuf.CircularBuffer.Write | kern/cbuf.c:124-162 | A write overwrites and extends the byte sequence, keeping its last capacity bytes, and is refused exactly outside the buffer |
| Cbuf.CircularBuffer.Read | kern/cbuf.c:164-197 | A read returns the bytes of the sequence from the index on, as many as asked and available |
| Cbuf.CircularBuffer.Push | kern/cbuf.c:59-73 | A push appends, erasing exactly the oldest bytes, or is refused exactly when erasing is needed and not allowed |
| Cbuf.CircularBuffer.Pop | kern/cbuf.c:75-88 | A pop returns the oldest bytes and leaves the rest |
| Cbuf.CircularBuffer.PushB | kern/cbuf.c:90-107 | A byte push appends one byte, with the same erasing rule |
| Cbuf.CircularBuffer.PopB | kern/cbuf.c:109-122 | A byte pop returns the oldest byte and leaves the rest |
| Cbuf.CircularBuffer.Clear | kern/cbuf.h:74-78 | Clearing empties the sequence |

## Left out

- Memory ordering: every atomic access is sequentially consistent.
- Read-side sections nested inside the middle of `rcu_reader_dec` by an interrupt: leaving a section is one step.
- Rcu.StepInv: does not state the assertion in `rcu_cpu_data_check_gp_state` that its loop runs at most twice, because the model's window counter may reach zero at any time, while the kernel's needs a flush from every processor first; system counters, time stamps and the thread sleeping in `rcu_wait` are not part of the model.
- Rcu.WorkStarted: says nothing about how long a grace period takes; a window ends when its last reader leaves and the timer fires.
- Sref.StepInv: counter updates by an interrupt between the empty-list test and the end of a flush (kern/sref.c:640-674) are not separate steps, a processor unregisters only while its manager sleeps, and counters are changed on registered processors only.
- Sref.UnregisterInv: a processor unregisters only while its manager sleeps, as it does in the idle loop.
- Sref.TrueCountIsRefs: fewer than 2^64 references exist at a time.
- Spinlock.StepInv: the owner tracking for debugging is not part of the model.
- Mutex.StepInv: `sleepq_broadcast`, condition variables, semaphores, `sleepq_tryacquire`, other objects in the same bucket, and the chain of free queues (a sequence) are left out.
- Turnstile.Inheritance.Propagate: the locks, their retries and propagations that interleave are left out, and so are the lending of turnstiles, the hash buckets and the moment at which a woken waiter leaves while another thread owns the turnstile.
- Plist.Add: the two linked lists of a plist are one sequence.
- RbTree.RbTree.Insert: keys are integers and the comparison function is their order; the colour is a field instead of the low bit of the parent word, and slots are a parent and an index.
- RdxTree.RdxTree.InsertAlloc: `rdxtree_remove_all` is left out; node allocation is a count of the nodes left, and the deferred destruction of nodes is immediate.
- RdxTree.RdxTree.ForEach: a tree of height 11 without an entry at index 15 of its root is left out, because the code shifts by 66 bits at the end of the walk, which has no defined result.
- RdxTree.RdxTree.WalkNext: the same, when no bound key is left.
- RdxTree.RdxTree.Walk: the same, when no bound key is left.
- VmPage.PooledZone.Alloc: the choice among zones, the boot heap, the page table set-up, the locks and the page reference counts are left out; addresses count pages.
- VmMap.VmMap.Enter: aligned requests (no caller makes one), entries that must not be merged (used at bootstrap only), the panic when no entry can be allocated, the alignment and protection assertions and the locks are left out; the tree of entries is the red-black tree's contract on a set.
- VmMap.VmMap.FindAvail: aligned requests are left out.
- VmMap.VmMap.Scan: aligned requests are left out.
- FairSched.Runq.Pull: which threads a balancer pulls, and when, is left out, and so are the real-time and idle classes. The highest round, shared by all processors, is a parameter.
- Init.Ops.Setup: the section of the operations, its alignment check and the debug logs of names are left out; a function's result is a given number.
- Cbuf.CircularBuffer.Write: sizes do not wrap the index space, and an empty write does not start at slot 0, where the code takes its end for a wrap. The bit mask of an index is the remainder by the power-of-two capacity.
- Cbuf.CircularBuffer.Read: an empty read does not start at slot 0, where the code takes its end for a wrap.
- Cbuf.CircularBuffer.Push: sizes as for a write.
- Cbuf.CircularBuffer.Pop: sizes as for a read.
- Cbuf.Execute: the sizes of a run are positive and do not wrap the index space.
- rtmutex, the adaptive mutex, kmem, work queues, timers, bitmaps, strings, formatting and the devices are not part of the project.
