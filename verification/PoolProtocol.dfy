/** The thread pool as a system of steps. A step is what one thread does between two points where others can get
    in: taking the lock, one test or one group of assignments under it, giving it up. A waiting thread may wake up
    at any time, and `shutdown` may be set at any time, whoever holds the lock. */
module PoolProtocol {
  import opened PoolRing

  const MIN_WAIT_TASK_NUM := 10
  const DEFAULT_THREAD_NUM := 10

  datatype Worker =
    | Ready                   // about to take the lock
    | Testing                 // has the lock, before the test of the waiting loop
    | Waiting                 // waits for the queue to be not empty
    | Woken                   // has the lock again, behind the wait
    | Deciding                // has the lock, behind the loop
    | Holding(task: Task)     // has a task, is not counted as busy yet
    | Working(task: Task)     // is counted as busy
    | Retired                 // gone, one thread too many
    | Ended                   // gone, because of the shutdown

  datatype Adder =
    | Idle
    | Offering(task: Task)    // has the lock, before the test of the waiting loop
    | Blocked(task: Task)     // waits for the queue to be not full
    | Admitting(task: Task)   // has the lock, behind the loop

  datatype Admin =
    | Polling
    | Sleeping
    | Counted(tasks: nat, threads: int)
    | Informed(tasks: nat, threads: int, working: int)
    | Growing(threads: int, working: int)               // has the lock
    | Judging(threads: int, working: int)
    | Gone

  datatype Holder = Nobody | ByWorker(w: nat) | ByAdder(a: nat) | ByAdmin

  datatype Pool = Pool(
    min: int, max: int, live: int, busy: int, waitExit: int, ring: Ring, shutdown: bool, lock: Holder,
    workers: seq<Worker>, adders: seq<Adder>, admin: Admin,
    accepted: seq<Task>, taken: seq<Task>, finished: multiset<Task>,
    fault: bool)   // a task was taken from an empty queue or put into a full one

  datatype Action =
    | WorkerLock(w: nat) | WorkerTest(w: nat) | WorkerWake(w: nat) | WorkerRetire(w: nat) | WorkerDecide(w: nat)
    | WorkerBegin(w: nat) | WorkerEnd(w: nat)
    | AdderCome | AdderLock(a: nat, task: Task) | AdderTest(a: nat) | AdderWake(a: nat) | AdderDecide(a: nat)
    | AdminPoll | AdminCount | AdminAsk | AdminLock | AdminGrow(k: nat) | AdminSkip | AdminShrink | AdminPass
    | Shutdown

  function SetWorker(s: Pool, w: nat, v: Worker): Pool
    requires w < |s.workers|
  {
    s.(workers := s.workers[w := v])
  }

  function SetAdder(s: Pool, a: nat, v: Adder): Pool
    requires a < |s.adders|
  {
    s.(adders := s.adders[a := v])
  }

  predicate IsWorkerAction(x: Action) {
    x.WorkerLock? || x.WorkerTest? || x.WorkerWake? || x.WorkerRetire? || x.WorkerDecide? || x.WorkerBegin? || x.WorkerEnd?
  }

  predicate IsAdderAction(x: Action) { x.AdderLock? || x.AdderTest? || x.AdderWake? || x.AdderDecide? }

  /** Can the step be taken? */
  predicate Enabled(s: Pool, x: Action) {
    match x
    case WorkerLock(w) => w < |s.workers| && s.workers[w].Ready? && s.lock.Nobody?
    case WorkerTest(w) => w < |s.workers| && s.workers[w].Testing?
    case WorkerWake(w) => w < |s.workers| && s.workers[w].Waiting? && s.lock.Nobody?
    case WorkerRetire(w) => w < |s.workers| && s.workers[w].Woken?
    case WorkerDecide(w) => w < |s.workers| && s.workers[w].Deciding?
    case WorkerBegin(w) => w < |s.workers| && s.workers[w].Holding?
    case WorkerEnd(w) => w < |s.workers| && s.workers[w].Working?
    case AdderCome => true
    case AdderLock(a, _) => a < |s.adders| && s.adders[a].Idle? && s.lock.Nobody?
    case AdderTest(a) => a < |s.adders| && s.adders[a].Offering?
    case AdderWake(a) => a < |s.adders| && s.adders[a].Blocked? && s.lock.Nobody?
    case AdderDecide(a) => a < |s.adders| && s.adders[a].Admitting?
    case AdminPoll => s.admin.Polling?
    case AdminCount => s.admin.Sleeping? && s.lock.Nobody?
    case AdminAsk => s.admin.Counted?
    case AdminLock => s.admin.Informed? && WantsMore(s) && s.lock.Nobody?
    case AdminSkip => s.admin.Informed? && !WantsMore(s)
    case AdminGrow(k) => s.admin.Growing? && (k == 0 || (k <= DEFAULT_THREAD_NUM && s.live + k <= s.max))
    case AdminShrink => s.admin.Judging? && WantsFewer(s) && s.lock.Nobody?
    case AdminPass => s.admin.Judging? && !WantsFewer(s)
    case Shutdown => true
  }

  predicate WantsMore(s: Pool)
    requires s.admin.Informed?
  {
    s.admin.tasks >= MIN_WAIT_TASK_NUM && s.admin.threads <= s.max
  }

  predicate WantsFewer(s: Pool)
    requires s.admin.Judging?
  {
    s.admin.working * 2 < s.admin.threads && s.admin.threads > s.min
  }

  /** The steps of a worker, `threadpool_thread`. */
  function WorkerStep(s: Pool, x: Action): Pool
    requires IsWorkerAction(x) && Enabled(s, x)
  {
    var w := x.w;
    match x
    case WorkerLock(_) => SetWorker(s, w, Testing).(lock := ByWorker(w))
    case WorkerTest(_) =>
      if s.ring.size == 0 && !s.shutdown then SetWorker(s, w, Waiting).(lock := Nobody) else SetWorker(s, w, Deciding)
    case WorkerWake(_) => SetWorker(s, w, Woken).(lock := ByWorker(w))
    case WorkerRetire(_) =>
      if s.waitExit <= 0 then SetWorker(s, w, Testing)
      else if s.live > s.min then
        SetWorker(s, w, Retired).(lock := Nobody, live := s.live - 1, waitExit := s.waitExit - 1)
      else SetWorker(s, w, Testing).(waitExit := s.waitExit - 1)
    case WorkerDecide(_) =>
      if s.shutdown then SetWorker(s, w, Ended).(lock := Nobody)
      else if s.ring.size == 0 || |s.ring.slots| <= s.ring.front then s.(fault := true)
      else
        var t := s.ring.slots[s.ring.front];
        SetWorker(s, w, Holding(t)).(lock := Nobody, ring := Take(s.ring), taken := s.taken + [t])
    case WorkerBegin(_) => SetWorker(s, w, Working(s.workers[w].task)).(busy := s.busy + 1)
    case WorkerEnd(_) =>
      SetWorker(s, w, Ready).(busy := s.busy - 1, finished := s.finished + multiset{s.workers[w].task})
  }

  /** The steps of a thread that adds a task, `threadpool_add_task`. */
  function AdderStep(s: Pool, x: Action): Pool
    requires IsAdderAction(x) && Enabled(s, x)
  {
    var a := x.a;
    match x
    case AdderLock(_, t) => SetAdder(s, a, Offering(t)).(lock := ByAdder(a))
    case AdderTest(_) =>
      var t := s.adders[a].task;
      if s.ring.size == |s.ring.slots| && !s.shutdown then SetAdder(s, a, Blocked(t)).(lock := Nobody)
      else SetAdder(s, a, Admitting(t))
    case AdderWake(_) => SetAdder(s, a, Offering(s.adders[a].task)).(lock := ByAdder(a))
    case AdderDecide(_) =>
      if s.shutdown then SetAdder(s, a, Idle).(lock := Nobody)
      else if s.ring.size >= |s.ring.slots| || |s.ring.slots| <= s.ring.rear then s.(fault := true)
      else
        var t := s.adders[a].task;
        SetAdder(s, a, Idle).(lock := Nobody, ring := Put(s.ring, t), accepted := s.accepted + [t])
  }

  /** The other steps: those of `admin_thread`, which acts on what it saw before, and the shutdown. */
  function OtherStep(s: Pool, x: Action): Pool
    requires !IsWorkerAction(x) && !IsAdderAction(x) && Enabled(s, x)
  {
    match x
    case AdderCome => s.(adders := s.adders + [Idle])
    case AdminPoll => s.(admin := if s.shutdown then Gone else Sleeping)
    case AdminCount => s.(admin := Counted(s.ring.size, s.live))
    case AdminAsk => s.(admin := Informed(s.admin.tasks, s.admin.threads, s.busy))
    case AdminLock => s.(admin := Growing(s.admin.threads, s.admin.working), lock := ByAdmin)
    case AdminSkip => s.(admin := Judging(s.admin.threads, s.admin.working))
    case AdminGrow(k) =>
      s.(admin := Judging(s.admin.threads, s.admin.working), lock := Nobody, live := s.live + k,
         workers := s.workers + seq(k, i => Ready))
    case AdminShrink => s.(admin := Polling, waitExit := DEFAULT_THREAD_NUM)
    case AdminPass => s.(admin := Polling)
    case Shutdown => s.(shutdown := true)
  }

  function Step(s: Pool, x: Action): Pool
    requires Enabled(s, x)
  {
    if IsWorkerAction(x) then WorkerStep(s, x) else if IsAdderAction(x) then AdderStep(s, x) else OtherStep(s, x)
  }

  /** `threadpool_create`. */
  function Create(min: nat, max: nat, slots: seq<Task>): Pool {
    Pool(min, max, min, 0, 0, Ring(slots, 0, 0, 0), false, Nobody, seq(min, i => Ready), [], Polling,
         [], [], multiset{}, false)
  }

  // --------------------------------------------------------------------------------------------------------
  // Counting threads

  function Bit(b: bool): nat { if b then 1 else 0 }

  function Count(ws: seq<Worker>, p: Worker -> bool): nat {
    if ws == [] then 0 else Count(ws[..|ws| - 1], p) + Bit(p(ws[|ws| - 1]))
  }

  lemma {:induction false} CountSet(ws: seq<Worker>, w: nat, v: Worker, p: Worker -> bool)
    requires w < |ws|
    ensures Count(ws[w := v], p) == Count(ws, p) - Bit(p(ws[w])) + Bit(p(v))
  {
    var k := |ws| - 1;
    if w == k {
      assert ws[w := v][..k] == ws[..k];
    } else {
      assert ws[w := v][..k] == ws[..k][w := v];
      CountSet(ws[..k], w, v, p);
    }
  }

  lemma {:induction false} CountMore(ws: seq<Worker>, k: nat, p: Worker -> bool)
    ensures Count(ws + seq(k, i => Ready), p) == Count(ws, p) + k * Bit(p(Ready))
  {
    var all := ws + seq(k, i => Ready);
    if k == 0 {
      assert all == ws;
    } else {
      CountMore(ws, k - 1, p);
      assert all[..|all| - 1] == ws + seq(k - 1, i => Ready);
      assert k * Bit(p(Ready)) == (k - 1) * Bit(p(Ready)) + Bit(p(Ready));
    }
  }

  lemma {:induction false} CountAtMost(ws: seq<Worker>, p: Worker -> bool, q: Worker -> bool, r: Worker -> bool)
    requires forall v: Worker :: Bit(p(v)) + Bit(q(v)) <= Bit(r(v))
    ensures Count(ws, p) + Count(ws, q) <= Count(ws, r)
  {
    if ws != [] {
      CountAtMost(ws[..|ws| - 1], p, q, r);
      assert Bit(p(ws[|ws| - 1])) + Bit(q(ws[|ws| - 1])) <= Bit(r(ws[|ws| - 1]));
    }
  }

  /** The tasks that workers have in hand. */
  function InHand(ws: seq<Worker>): multiset<Task> {
    if ws == [] then multiset{} else InHand(ws[..|ws| - 1]) + TaskOf(ws[|ws| - 1])
  }

  function TaskOf(v: Worker): multiset<Task> {
    if v.Holding? || v.Working? then multiset{v.task} else multiset{}
  }

  lemma {:induction false} InHandSet(ws: seq<Worker>, w: nat, v: Worker)
    requires w < |ws|
    ensures InHand(ws[w := v]) + TaskOf(ws[w]) == InHand(ws) + TaskOf(v)
  {
    var k := |ws| - 1;
    hide TaskOf;
    if w == k {
      assert ws[w := v][..k] == ws[..k];
      Shuffle(InHand(ws[..k]), TaskOf(v), TaskOf(ws[w]));
    } else {
      assert ws[w := v][..k] == ws[..k][w := v];
      InHandSet(ws[..k], w, v);
      Shuffle(InHand(ws[..k][w := v]), TaskOf(ws[k]), TaskOf(ws[w]));
      Shuffle(InHand(ws[..k]), TaskOf(ws[k]), TaskOf(v));
    }
  }

  lemma Shuffle(a: multiset<Task>, b: multiset<Task>, c: multiset<Task>)
    ensures a + b + c == a + c + b
  {
  }

  lemma {:induction false} InHandMore(ws: seq<Worker>, k: nat)
    ensures InHand(ws + seq(k, i => Ready)) == InHand(ws)
  {
    var all := ws + seq(k, i => Ready);
    if k == 0 {
      assert all == ws;
    } else {
      InHandMore(ws, k - 1);
      assert all[..|all| - 1] == ws + seq(k - 1, i => Ready);
    }
  }

  // --------------------------------------------------------------------------------------------------------
  // The invariant

  predicate Unretired(v: Worker) { !v.Retired? }

  predicate Busy(v: Worker) { v.Working? }

  predicate AtEnd(v: Worker) { v.Ended? }

  predicate WorkerLocks(v: Worker) { v.Testing? || v.Woken? || v.Deciding? }

  predicate AdderLocks(v: Adder) { v.Offering? || v.Admitting? }

  /** Whoever is at a point that needs the lock has it, and nobody else. */
  predicate LockInv(s: Pool) {
    && (forall w | 0 <= w < |s.workers| :: WorkerLocks(s.workers[w]) <==> s.lock == ByWorker(w))
    && (forall a | 0 <= a < |s.adders| :: AdderLocks(s.adders[a]) <==> s.lock == ByAdder(a))
    && (s.admin.Growing? <==> s.lock.ByAdmin?)
    && (s.lock.ByWorker? ==> s.lock.w < |s.workers|)
    && (s.lock.ByAdder? ==> s.lock.a < |s.adders|)
  }

  /** Nothing is lost from the queue or taken twice, and tasks leave it in the order they came. */
  predicate QueueInv(s: Pool) {
    && ValidRing(s.ring) && s.accepted == s.taken + Contents(s.ring)
    && multiset(s.taken) == s.finished + InHand(s.workers)
    && !s.fault
    && (forall w | 0 <= w < |s.workers| :: s.workers[w].Deciding? ==> s.ring.size > 0 || s.shutdown)
    && (forall a | 0 <= a < |s.adders| :: s.adders[a].Admitting? ==> s.ring.size < |s.ring.slots| || s.shutdown)
  }

  /** The counters count what they are meant to. */
  predicate CountInv(s: Pool) {
    && 0 <= s.min <= s.live <= s.max && 0 <= s.waitExit <= DEFAULT_THREAD_NUM
    && s.live == Count(s.workers, Unretired)
    && s.busy == Count(s.workers, Busy)
  }

  /** Before the shutdown no worker has ended. */
  predicate EndInv(s: Pool) { !s.shutdown ==> forall w | 0 <= w < |s.workers| :: !s.workers[w].Ended? }

  predicate Inv(s: Pool) { LockInv(s) && QueueInv(s) && CountInv(s) && EndInv(s) }

  lemma CreateInv(min: nat, max: nat, slots: seq<Task>)
    requires min <= max
    ensures Inv(Create(min, max, slots))
  {
    var s := Create(min, max, slots);
    hide Count, InHand, ValidRing, Contents;
    StartCounts(min);
    NewRing(slots);
    assert forall w | 0 <= w < |s.workers| :: s.workers[w] == Ready;
  }

  lemma StartCounts(k: nat)
    ensures var ws := seq(k, i => Ready); Count(ws, Unretired) == k && Count(ws, Busy) == 0 && InHand(ws) == multiset{}
  {
    CountMore([], k, Unretired);
    CountMore([], k, Busy);
    InHandMore([], k);
    assert [] + seq(k, i => Ready) == seq(k, i => Ready);
  }

  lemma NewRing(slots: seq<Task>)
    ensures ValidRing(Ring(slots, 0, 0, 0)) && Contents(Ring(slots, 0, 0, 0)) == []
  {
  }

  lemma WorkerLockInv(s: Pool, x: Action)
    requires IsWorkerAction(x) && Enabled(s, x) && LockInv(s)
    ensures LockInv(WorkerStep(s, x))
  {
    WorkerMoves(s, x);
    WorkerLockStep(s, x);
    hide WorkerStep, WorkerLocks, AdderLocks, Enabled;
  }

  /** A worker takes the lock when it is free, gives up its own, or leaves it. */
  lemma WorkerLockStep(s: Pool, x: Action)
    requires IsWorkerAction(x) && Enabled(s, x) && LockInv(s)
    ensures x.w < |s.workers| == |WorkerStep(s, x).workers|
    ensures var s' := WorkerStep(s, x);
      && s'.adders == s.adders && s'.admin == s.admin
      && (WorkerLocks(s'.workers[x.w]) <==> s'.lock == ByWorker(x.w))
      && (s'.lock == s.lock || (s.lock.Nobody? && s'.lock == ByWorker(x.w)) || (s.lock == ByWorker(x.w) && s'.lock.Nobody?))
  {
  }

  lemma AdderLockInv(s: Pool, x: Action)
    requires IsAdderAction(x) && Enabled(s, x) && LockInv(s)
    ensures LockInv(AdderStep(s, x))
  {
  }

  lemma OtherLockInv(s: Pool, x: Action)
    requires !IsWorkerAction(x) && !IsAdderAction(x) && Enabled(s, x) && LockInv(s)
    ensures LockInv(OtherStep(s, x))
  {
  }

  /** How a step of a worker changes the counts. */
  lemma WorkerSets(s: Pool, w: nat, v: Worker)
    requires w < |s.workers|
    ensures Count(s.workers[w := v], Unretired) == Count(s.workers, Unretired) - Bit(!s.workers[w].Retired?) + Bit(!v.Retired?)
    ensures Count(s.workers[w := v], Busy) == Count(s.workers, Busy) - Bit(s.workers[w].Working?) + Bit(v.Working?)
  {
    CountSet(s.workers, w, v, Unretired);
    CountSet(s.workers, w, v, Busy);
  }

  lemma WorkerEndInv(s: Pool, x: Action)
    requires IsWorkerAction(x) && Enabled(s, x) && EndInv(s)
    ensures EndInv(WorkerStep(s, x))
  {
  }

  /** Only the worker of the step changes its place. */
  lemma WorkerMoves(s: Pool, x: Action)
    requires IsWorkerAction(x) && Enabled(s, x)
    ensures x.w < |s.workers| && |WorkerStep(s, x).workers| == |s.workers|
    ensures WorkerStep(s, x).workers == s.workers[x.w := WorkerStep(s, x).workers[x.w]]
  {
  }

  lemma RetireCountInv(s: Pool, w: nat)
    requires Enabled(s, WorkerRetire(w)) && CountInv(s)
    ensures CountInv(WorkerStep(s, WorkerRetire(w)))
  {
    hide Count;
    WorkerSets(s, w, Testing);
    WorkerSets(s, w, Retired);
  }

  lemma BeginCountInv(s: Pool, w: nat)
    requires Enabled(s, WorkerBegin(w)) && CountInv(s)
    ensures CountInv(WorkerStep(s, WorkerBegin(w)))
  {
    hide Count;
    WorkerSets(s, w, Working(s.workers[w].task));
  }

  lemma EndCountInv(s: Pool, w: nat)
    requires Enabled(s, WorkerEnd(w)) && CountInv(s)
    ensures CountInv(WorkerStep(s, WorkerEnd(w)))
  {
    hide Count;
    WorkerSets(s, w, Ready);
  }

  /** The other steps do not count. */
  lemma IdleCountInv(s: Pool, x: Action)
    requires x.WorkerLock? || x.WorkerTest? || x.WorkerWake? || x.WorkerDecide?
    requires Enabled(s, x) && CountInv(s)
    ensures CountInv(WorkerStep(s, x))
  {
    hide Count, Take;
    var s' := WorkerStep(s, x);
    var v := s'.workers[x.w];
    WorkerMoves(s, x);
    WorkerSets(s, x.w, v);
    assert !v.Retired? && !v.Working? && !s.workers[x.w].Retired? && !s.workers[x.w].Working?;
  }

  lemma WorkerCountInv(s: Pool, x: Action)
    requires IsWorkerAction(x) && Enabled(s, x) && CountInv(s)
    ensures CountInv(WorkerStep(s, x))
  {
    hide CountInv, WorkerStep;
    match x
    case WorkerRetire(w) => RetireCountInv(s, w);
    case WorkerBegin(w) => BeginCountInv(s, w);
    case WorkerEnd(w) => EndCountInv(s, w);
    case _ => IdleCountInv(s, x);
  }

  lemma Cancel(a: multiset<Task>, b: multiset<Task>, c: multiset<Task>)
    requires a + c == b + c
    ensures a == b
  {
    assert a == (a + c) - c;
    assert b == (b + c) - c;
  }

  /** A worker that keeps what it has in hand, takes a task, or is done with it. */
  lemma HandsKept(s: Pool, w: nat, v: Worker)
    requires w < |s.workers| && TaskOf(v) == TaskOf(s.workers[w])
    ensures InHand(s.workers[w := v]) == InHand(s.workers)
  {
    hide InHand;
    InHandSet(s.workers, w, v);
    Cancel(InHand(s.workers[w := v]), InHand(s.workers), TaskOf(v));
  }

  lemma HandsFilled(s: Pool, w: nat, v: Worker)
    requires w < |s.workers| && TaskOf(s.workers[w]) == multiset{}
    ensures InHand(s.workers[w := v]) == InHand(s.workers) + TaskOf(v)
  {
    hide InHand;
    InHandSet(s.workers, w, v);
  }

  lemma HandsEmptied(s: Pool, w: nat, v: Worker)
    requires w < |s.workers| && TaskOf(v) == multiset{}
    ensures InHand(s.workers) == TaskOf(s.workers[w]) + InHand(s.workers[w := v])
  {
    hide InHand;
    InHandSet(s.workers, w, v);
    assert InHand(s.workers) + multiset{} == InHand(s.workers);
  }

  lemma EndQueueInv(s: Pool, w: nat)
    requires Enabled(s, WorkerEnd(w)) && QueueInv(s)
    ensures QueueInv(WorkerStep(s, WorkerEnd(w)))
  {
    hide InHand, Contents;
    HandsEmptied(s, w, Ready);
    assert s.finished + multiset{s.workers[w].task} + InHand(s.workers[w := Ready]) ==
           s.finished + (multiset{s.workers[w].task} + InHand(s.workers[w := Ready]));
  }

  /** A step of a worker that leaves the queue and its hands as they are. */
  lemma SameQueue(s: Pool, s': Pool, w: nat, v: Worker)
    requires QueueInv(s) && w < |s.workers| && s'.workers == s.workers[w := v] && TaskOf(v) == TaskOf(s.workers[w])
    requires s'.ring == s.ring && s'.accepted == s.accepted && s'.taken == s.taken && s'.finished == s.finished
    requires s'.fault == s.fault && s'.adders == s.adders && s'.shutdown == s.shutdown
    requires v.Deciding? ==> s.ring.size > 0 || s.shutdown
    ensures QueueInv(s')
  {
    hide InHand, Contents, TaskOf;
    HandsKept(s, w, v);
  }

  lemma LockQueueInv(s: Pool, w: nat)
    requires Enabled(s, WorkerLock(w)) && QueueInv(s)
    ensures QueueInv(WorkerStep(s, WorkerLock(w)))
  {
    hide QueueInv;
    var s' := WorkerStep(s, WorkerLock(w));
    SameQueue(s, s', w, Testing);
  }

  lemma WakeQueueInv(s: Pool, w: nat)
    requires Enabled(s, WorkerWake(w)) && QueueInv(s)
    ensures QueueInv(WorkerStep(s, WorkerWake(w)))
  {
    hide QueueInv;
    var s' := WorkerStep(s, WorkerWake(w));
    SameQueue(s, s', w, Woken);
  }

  lemma BeginQueueInv(s: Pool, w: nat)
    requires Enabled(s, WorkerBegin(w)) && QueueInv(s)
    ensures QueueInv(WorkerStep(s, WorkerBegin(w)))
  {
    hide QueueInv;
    var s' := WorkerStep(s, WorkerBegin(w));
    SameQueue(s, s', w, Working(s.workers[w].task));
  }

  lemma TestQueueInv(s: Pool, w: nat)
    requires Enabled(s, WorkerTest(w)) && QueueInv(s)
    ensures QueueInv(WorkerStep(s, WorkerTest(w)))
  {
    hide QueueInv;
    var s' := WorkerStep(s, WorkerTest(w));
    if s.ring.size == 0 && !s.shutdown {
      SameQueue(s, s', w, Waiting);
    } else {
      SameQueue(s, s', w, Deciding);
    }
  }

  lemma RetireQueueInv(s: Pool, w: nat)
    requires Enabled(s, WorkerRetire(w)) && QueueInv(s)
    ensures QueueInv(WorkerStep(s, WorkerRetire(w)))
  {
    hide QueueInv;
    var s' := WorkerStep(s, WorkerRetire(w));
    if s.waitExit > 0 && s.live > s.min {
      SameQueue(s, s', w, Retired);
    } else {
      SameQueue(s, s', w, Testing);
    }
  }

  lemma WorkerQueueInv(s: Pool, x: Action)
    requires IsWorkerAction(x) && Enabled(s, x) && LockInv(s) && QueueInv(s)
    ensures QueueInv(WorkerStep(s, x))
  {
    hide QueueInv, WorkerStep;
    match x
    case WorkerLock(w) => LockQueueInv(s, w);
    case WorkerTest(w) => TestQueueInv(s, w);
    case WorkerWake(w) => WakeQueueInv(s, w);
    case WorkerRetire(w) => RetireQueueInv(s, w);
    case WorkerDecide(w) => DecideQueueInv(s, x);
    case WorkerBegin(w) => BeginQueueInv(s, w);
    case WorkerEnd(w) => EndQueueInv(s, w);
  }

  lemma TakenOne(s: Pool, t: Task, rest: seq<Task>)
    requires s.accepted == s.taken + ([t] + rest)
    ensures s.accepted == (s.taken + [t]) + rest && multiset(s.taken + [t]) == multiset(s.taken) + multiset{t}
  {
  }

  lemma DecideQueueInv(s: Pool, x: Action)
    requires x.WorkerDecide? && Enabled(s, x) && LockInv(s) && QueueInv(s)
    ensures QueueInv(WorkerStep(s, x))
  {
    hide InHand, Contents, Take, QueueInv;
    if s.shutdown {
      ShutQueueInv(s, x);
    } else {
      TakeQueueInv(s, x);
    }
  }

  lemma ShutQueueInv(s: Pool, x: Action)
    requires x.WorkerDecide? && Enabled(s, x) && LockInv(s) && QueueInv(s) && s.shutdown
    ensures QueueInv(WorkerStep(s, x))
  {
    hide InHand, Contents, Take, LockInv;
    WorkerMoves(s, x);
    HandsFilled(s, x.w, WorkerStep(s, x).workers[x.w]);
  }

  lemma TakeQueueInv(s: Pool, x: Action)
    requires x.WorkerDecide? && Enabled(s, x) && LockInv(s) && QueueInv(s) && !s.shutdown
    ensures QueueInv(WorkerStep(s, x))
  {
    hide InHand, Contents, Take;
    var s' := WorkerStep(s, x);
    WorkerMoves(s, x);
    HandsFilled(s, x.w, s'.workers[x.w]);
    TakeRemovesOldest(s.ring);
    TakenOne(s, s.ring.slots[s.ring.front], Contents(Take(s.ring)));
    assert forall w | 0 <= w < |s'.workers| :: !s'.workers[w].Deciding?;
  }

  lemma AdderQueueInv(s: Pool, x: Action)
    requires IsAdderAction(x) && Enabled(s, x) && LockInv(s) && QueueInv(s)
    ensures QueueInv(AdderStep(s, x))
  {
    hide InHand, Contents;
    var s' := AdderStep(s, x);
    if x.AdderDecide? && !s.shutdown {
      var t := s.adders[x.a].task;
      PutAppends(s.ring, t);
      assert s.taken + (Contents(s.ring) + [t]) == s.taken + Contents(s.ring) + [t];
      assert forall a | 0 <= a < |s'.adders| :: !s'.adders[a].Admitting?;
    }
  }

  lemma OtherQueueInv(s: Pool, x: Action)
    requires !IsWorkerAction(x) && !IsAdderAction(x) && Enabled(s, x) && QueueInv(s)
    ensures QueueInv(OtherStep(s, x))
  {
    hide InHand, Contents;
    if x.AdminGrow? {
      InHandMore(s.workers, x.k);
    }
  }

  lemma OtherCountInv(s: Pool, x: Action)
    requires !IsWorkerAction(x) && !IsAdderAction(x) && Enabled(s, x) && CountInv(s) && EndInv(s)
    ensures CountInv(OtherStep(s, x)) && EndInv(OtherStep(s, x))
  {
    hide Count;
    if x.AdminGrow? {
      CountMore(s.workers, x.k, Unretired);
      CountMore(s.workers, x.k, Busy);
    }
  }

  /** Every step of every thread keeps the invariant. */
  lemma StepKeeps(s: Pool, x: Action)
    requires Enabled(s, x) && Inv(s)
    ensures Inv(Step(s, x))
  {
    hide LockInv, QueueInv, CountInv, EndInv, WorkerStep, AdderStep, OtherStep, Enabled;
    if IsWorkerAction(x) {
      WorkerLockInv(s, x);
      WorkerEndInv(s, x);
      WorkerQueueInv(s, x);
      WorkerCountInv(s, x);
    } else if IsAdderAction(x) {
      AdderLockInv(s, x);
      AdderQueueInv(s, x);
      AdderRest(s, x);
    } else {
      OtherLockInv(s, x);
      OtherQueueInv(s, x);
      OtherCountInv(s, x);
    }
  }

  lemma AdderRest(s: Pool, x: Action)
    requires IsAdderAction(x) && Enabled(s, x) && CountInv(s) && EndInv(s)
    ensures CountInv(AdderStep(s, x)) && EndInv(AdderStep(s, x))
  {
    hide Count;
  }

  // --------------------------------------------------------------------------------------------------------
  // Whole runs

  /** A run from `s` of the steps `xs`, each of which can be taken when its turn comes. */
  predicate Runs(s: Pool, xs: seq<Action>)
    decreases |xs|
  {
    xs != [] ==> Enabled(s, xs[0]) && Runs(Step(s, xs[0]), xs[1..])
  }

  function After(s: Pool, xs: seq<Action>): Pool
    requires Runs(s, xs)
    decreases |xs|
  {
    if xs == [] then s else After(Step(s, xs[0]), xs[1..])
  }

  lemma {:induction false} RunKeeps(s: Pool, xs: seq<Action>)
    requires Inv(s) && Runs(s, xs)
    ensures Inv(After(s, xs))
    decreases |xs|
  {
    hide Inv, Enabled, Step;
    if xs != [] {
      StepKeeps(s, xs[0]);
      RunKeeps(Step(s, xs[0]), xs[1..]);
    }
  }

  /** What holds of a pool after any run: tasks are taken in the order they were accepted, and those in the queue
      are exactly those not taken yet; a task that was taken is finished or in the hands of one worker; nothing was
      ever taken from an empty queue; `rear` follows from `front` and the size; the number of live threads keeps
      between its bounds and is the number of workers that have not retired; and until the shutdown it bounds the
      busy ones. */
  lemma PoolIsSafe(min: nat, max: nat, slots: seq<Task>, xs: seq<Action>)
    requires min <= max && Runs(Create(min, max, slots), xs)
    ensures var s := After(Create(min, max, slots), xs);
            && ValidRing(s.ring) && s.accepted == s.taken + Contents(s.ring)
            && multiset(s.taken) == s.finished + InHand(s.workers)
            && !s.fault
            && s.min <= s.live <= s.max && s.live == Count(s.workers, Unretired)
            && s.busy == Count(s.workers, Busy) && s.busy + Count(s.workers, AtEnd) <= s.live
            && (|s.ring.slots| > 0 ==> s.ring.rear == (s.ring.front + s.ring.size) % |s.ring.slots|)
  {
    hide Contents, Enabled, Step, LockInv;
    CreateInv(min, max, slots);
    RunKeeps(Create(min, max, slots), xs);
    var s := After(Create(min, max, slots), xs);
    CountAtMost(s.workers, Busy, AtEnd, Unretired);
    if |s.ring.slots| > 0 {
      RearIsModular(s.ring);
    }
  }

  /** No two threads are ever under the lock at once. */
  lemma LockExcludes(min: nat, max: nat, slots: seq<Task>, xs: seq<Action>)
    requires min <= max && Runs(Create(min, max, slots), xs)
    ensures var s := After(Create(min, max, slots), xs);
            && (forall w, v | 0 <= w < |s.workers| && 0 <= v < |s.workers| && WorkerLocks(s.workers[w]) && WorkerLocks(s.workers[v]) :: w == v)
            && (forall w, a | 0 <= w < |s.workers| && 0 <= a < |s.adders| :: !(WorkerLocks(s.workers[w]) && AdderLocks(s.adders[a])))
            && (forall a, b | 0 <= a < |s.adders| && 0 <= b < |s.adders| && AdderLocks(s.adders[a]) && AdderLocks(s.adders[b]) :: a == b)
            && (s.admin.Growing? ==> forall w | 0 <= w < |s.workers| :: !WorkerLocks(s.workers[w]))
  {
    hide QueueInv, CountInv, EndInv, Enabled, Step;
    CreateInv(min, max, slots);
    RunKeeps(Create(min, max, slots), xs);
  }
}
