/**
 The life of requests in one handler: a master that makes and forwards them, the handler thread that
 dispatches them, and a poller that runs the callbacks of finished I/O. Slots are numbers below qsize.
 */
module Lifecycle {
  import CondLock

  datatype Master = Free | Made(r: nat) | Granted(r: nat)

  /**
   Handler thread or poller: idle, having found the retry queue empty, busy with a request, about to release the
   lock for it, about to return it.
   */
  datatype Worker = Idle | Looked | Busy(r: nat) | Ending(r: nat) | Returning(r: nat) {
    predicate HasSlot() { !Idle? && !Looked? }
  }

  /** Slots in the queues, in I/O and with the threads; "lost" collects what a full queue refuses. */
  datatype State = State(
    qsize: nat, lock: CondLock.State,
    pool: seq<nat>, reqQ: seq<nat>, retryQ: seq<nat>, io: set<nat>,
    master: Master, handler: Worker, poller: Worker, lost: multiset<nat>)

  /** The only thread that grabs. */
  const MASTER: nat := 0

  /** The request slots, as handler_init puts them into the pool. */
  function UpTo(n: nat): (s: seq<nat>)
    ensures |s| == n
    ensures forall r: nat :: multiset(s)[r] == if r < n then 1 else 0
  {
    if n == 0 then [] else UpTo(n - 1) + [n - 1]
  }

  function Initial(qsize: nat, qdepth: nat): (r: State) {
    State(qsize, CondLock.Initial(false, qdepth, {MASTER}), UpTo(qsize), [], [], {}, Free, Idle, Idle, multiset{})
  }

  /** How the dispatch of a request, or its callback, leaves it. */
  datatype Outcome = Submitted | Retried | Finished

  datatype Event =
    | Make | Grab | Forward
    | LookAtRetries | LookAtRequests | Dispatch(o: Outcome)
    | Complete(r: nat) | Callback(again: bool)
    | HandlerReleases | HandlerReturns | PollerReleases | PollerReturns
    | SpuriousWake

  predicate Enabled(s: State, e: Event) {
    match e
    case Make => s.master.Free?
    case Grab => s.master.Made? && CondLock.Enabled(s.lock, CondLock.GrabBy(MASTER))
    case Forward => s.master.Granted?
    case LookAtRetries => s.handler.Idle?
    case LookAtRequests => s.handler.Looked?
    case Dispatch(_) => s.handler.Busy?
    case Complete(r) => s.poller.Idle? && r in s.io
    case Callback(_) => s.poller.Busy?
    case HandlerReleases => s.handler.Ending?
    case HandlerReturns => s.handler.Returning?
    case PollerReleases => s.poller.Ending?
    case PollerReturns => s.poller.Returning?
    case SpuriousWake => CondLock.Enabled(s.lock, CondLock.Spurious(MASTER))
  }

  /** The pool dequeue would hand out a null request. */
  predicate PoolDry(s: State, e: Event) { e.Make? && s.pool == [] }

  function Queue(s: State, r: nat): (s': State) {
    if |s.reqQ| == s.qsize then s.(lost := s.lost + multiset{r}) else s.(reqQ := s.reqQ + [r])
  }

  function Retry(s: State, r: nat): (s': State) {
    if |s.retryQ| == s.qsize then s.(lost := s.lost + multiset{r}) else s.(retryQ := s.retryQ + [r])
  }

  function Return(s: State, r: nat): (s': State) {
    if |s.pool| == s.qsize then s.(lost := s.lost + multiset{r}) else s.(pool := s.pool + [r])
  }

  function Step(s: State, e: Event): (s': State)
    requires Enabled(s, e) && !PoolDry(s, e)
  {
    match e
    case Make => s.(master := Made(s.pool[0]), pool := s.pool[1..])
    case Grab =>
      var lock := CondLock.Grab(s.lock, MASTER);
      s.(lock := lock, master := if lock.grabs > s.lock.grabs then Granted(s.master.r) else s.master)
    case Forward => Queue(s.(master := Free), s.master.r)
    case LookAtRetries =>
      if s.retryQ == [] then s.(handler := Looked) else s.(handler := Busy(s.retryQ[0]), retryQ := s.retryQ[1..])
    case LookAtRequests =>
      if s.reqQ == [] then s.(handler := Idle) else s.(handler := Busy(s.reqQ[0]), reqQ := s.reqQ[1..])
    case Dispatch(o) =>
      var r := s.handler.r;
      (match o
       case Submitted => s.(handler := Idle, io := s.io + {r})
       case Retried => Retry(s.(handler := Idle), r)
       case Finished => s.(handler := Ending(r)))
    case Complete(r) => s.(io := s.io - {r}, poller := Busy(r))
    case Callback(again) =>
      var r := s.poller.r;
      if again then Retry(s.(poller := Idle), r) else s.(poller := Ending(r))
    case HandlerReleases => s.(lock := CondLock.Release(s.lock), handler := Returning(s.handler.r))
    case HandlerReturns => Return(s.(handler := Idle), s.handler.r)
    case PollerReleases => s.(lock := CondLock.Release(s.lock), poller := Returning(s.poller.r))
    case PollerReturns => Return(s.(poller := Idle), s.poller.r)
    case SpuriousWake => s.(lock := CondLock.Step(s.lock, CondLock.Spurious(MASTER)))
  }

  // ---------- Invariant

  function InHands(w: Worker, r: nat): (n: nat) { if w.HasSlot() && w.r == r then 1 else 0 }

  function AtMaster(m: Master, r: nat): (n: nat) { if !m.Free? && m.r == r then 1 else 0 }

  /** In how many places slot r is. */
  function Places(s: State, r: nat): (n: nat) {
    multiset(s.pool)[r] + multiset(s.reqQ)[r] + multiset(s.retryQ)[r] + (if r in s.io then 1 else 0)
      + AtMaster(s.master, r) + InHands(s.handler, r) + InHands(s.poller, r) + s.lost[r]
  }

  function Holds(w: Worker): (r: nat) { if w.Busy? || w.Ending? then 1 else 0 }

  /** Requests between grab and release. */
  function Flying(s: State): (r: nat) {
    |s.reqQ| + |s.retryQ| + |s.io| + (if s.master.Granted? then 1 else 0) + Holds(s.handler) + Holds(s.poller)
  }

  /** Every slot is in exactly one place, and none has been refused by a queue. */
  ghost predicate Conserved(s: State) {
    (forall r: nat :: Places(s, r) == if r < s.qsize then 1 else 0) && s.lost == multiset{}
  }

  /** The lock counts the requests between grab and release, and is sound for the one thread that grabs. */
  ghost predicate LockOk(s: State) {
    && CondLock.Inv(s.lock) && !s.lock.zero && s.lock.now == Flying(s)
    && s.lock.threads.Keys == {MASTER}
    && (s.lock.threads[MASTER].Out? || s.master.Made?)
    && s.lock.cnt + 2 < s.qsize
  }

  ghost predicate Inv(s: State) { Conserved(s) && LockOk(s) }

  lemma InitialInv(qsize: nat, qdepth: nat)
    requires qdepth + 2 < qsize
    ensures Inv(Initial(qsize, qdepth))
  {
  }

  function OfMaster(m: Master): (r: multiset<nat>) { if m.Free? then multiset{} else multiset{m.r} }

  function OfWorker(w: Worker): (r: multiset<nat>) { if w.HasSlot() then multiset{w.r} else multiset{} }

  /** All slots, gathered from the places. */
  function Gathered(s: State): (r: multiset<nat>) {
    multiset(s.pool) + multiset(s.reqQ) + multiset(s.retryQ) + multiset(s.io)
      + OfMaster(s.master) + OfWorker(s.handler) + OfWorker(s.poller)
  }

  lemma GatheredCounts(s: State, r: nat)
    requires s.lost == multiset{}
    ensures Gathered(s)[r] == Places(s, r)
  {
    var a := multiset(s.pool) + multiset(s.reqQ) + multiset(s.retryQ) + multiset(s.io);
    assert a[r] == multiset(s.pool)[r] + multiset(s.reqQ)[r] + multiset(s.retryQ)[r] + (if r in s.io then 1 else 0);
    assert OfMaster(s.master)[r] == AtMaster(s.master, r);
    assert OfWorker(s.handler)[r] == InHands(s.handler, r);
    assert OfWorker(s.poller)[r] == InHands(s.poller, r);
    hide OfMaster, OfWorker;
  }

  /** The slots of all places together are all the slots there are. */
  lemma AllSlots(s: State)
    requires Conserved(s)
    ensures Gathered(s) == multiset(UpTo(s.qsize))
  {
    hide Gathered, Places;
    forall r: nat
      ensures Gathered(s)[r] == multiset(UpTo(s.qsize))[r]
    {
      GatheredCounts(s, r);
      assert Places(s, r) == if r < s.qsize then 1 else 0;
    }
  }

  /** How many slots each place holds, all told. */
  lemma Census(s: State)
    requires Conserved(s)
    ensures |s.pool| + |s.reqQ| + |s.retryQ| + |s.io| + (if s.master.Free? then 0 else 1)
          + (if s.handler.HasSlot() then 1 else 0) + (if s.poller.HasSlot() then 1 else 0) == s.qsize
  {
    AllSlots(s);
    assert |Gathered(s)| == |s.pool| + |s.reqQ| + |s.retryQ| + |s.io|
      + |OfMaster(s.master)| + |OfWorker(s.handler)| + |OfWorker(s.poller)|;
  }

  /** The pool never hands out a null request. */
  lemma PoolNeverDry(s: State, e: Event)
    requires Inv(s) && Enabled(s, e)
    ensures !PoolDry(s, e)
  {
    Census(s);
  }

  /** Neither the request queue nor the retry queue nor the pool ever refuses a request. */
  lemma NoQueueOverflows(s: State)
    requires Inv(s)
    ensures |s.reqQ| < s.qsize && |s.retryQ| < s.qsize
    ensures s.handler.Returning? || s.poller.Returning? ==> |s.pool| < s.qsize
  {
    Census(s);
  }

  /** A request in the handler's hands is not in I/O. */
  lemma HeldOnce(s: State)
    requires Conserved(s) && s.handler.HasSlot()
    ensures s.handler.r !in s.io
  {
    assert Places(s, s.handler.r) <= 1;
  }

  lemma TakeFirst(q: seq<nat>)
    requires q != []
    ensures forall r: nat :: multiset(q)[r] == multiset(q[1..])[r] + if r == q[0] then 1 else 0
  {
    assert q == [q[0]] + q[1..];
  }

  predicate TakesFirst(e: Event) { e.Make? || e.LookAtRetries? || e.LookAtRequests? }

  /** Taking the first slot of a queue moves it. */
  lemma TakingMoves(s: State, e: Event, r: nat)
    requires Enabled(s, e) && !PoolDry(s, e) && TakesFirst(e)
    ensures Places(Step(s, e), r) == Places(s, r)
  {
    if e.Make? { TakeFirst(s.pool); }
    else if e.LookAtRetries? { if s.retryQ != [] { TakeFirst(s.retryQ); } }
    else if s.reqQ != [] { TakeFirst(s.reqQ); }
  }

  lemma AppendLast(q: seq<nat>, x: nat, r: nat)
    ensures multiset(q + [x])[r] == multiset(q)[r] + if r == x then 1 else 0
  {
  }

  lemma AddOne(m: multiset<nat>, x: nat, r: nat)
    ensures (m + multiset{x})[r] == m[r] + if r == x then 1 else 0
  {
  }

  /** Appending a slot to a queue moves it there; a full queue would refuse it. */
  lemma RetryMoves(s: State, r: nat, x: nat)
    ensures Places(Retry(s, x), r) == Places(s, r) + if r == x then 1 else 0
  {
    AppendLast(s.retryQ, x, r);
    AddOne(s.lost, x, r);
  }

  lemma ReturnMoves(s: State, r: nat, x: nat)
    ensures Places(Return(s, x), r) == Places(s, r) + if r == x then 1 else 0
  {
    AppendLast(s.pool, x, r);
    AddOne(s.lost, x, r);
  }

  lemma CallbackMoves(s: State, again: bool, r: nat)
    requires s.poller.Busy?
    ensures Places(Step(s, Callback(again)), r) == Places(s, r)
  {
    RetryMoves(s.(poller := Idle), r, s.poller.r);
    hide Retry, Return;
  }

  lemma DispatchMoves(s: State, o: Outcome, r: nat)
    requires s.handler.Busy? && s.handler.r !in s.io
    ensures Places(Step(s, Dispatch(o)), r) == Places(s, r)
  {
    RetryMoves(s.(handler := Idle), r, s.handler.r);
    hide Retry, Return;
  }

  lemma ReleasingMoves(s: State, e: Event, r: nat)
    requires Enabled(s, e) && (e.HandlerReleases? || e.PollerReleases?)
    ensures Places(Step(s, e), r) == Places(s, r)
  {
    hide Queue, Retry, Return;
  }

  lemma HandlerReturnMoves(s: State, r: nat)
    requires s.handler.Returning?
    ensures Places(Step(s, HandlerReturns), r) == Places(s, r)
  {
    ReturnMoves(s.(handler := Idle), r, s.handler.r);
    hide Queue, Retry, Return;
  }

  lemma PollerReturnMoves(s: State, r: nat)
    requires s.poller.Returning?
    ensures Places(Step(s, PollerReturns), r) == Places(s, r)
  {
    ReturnMoves(s.(poller := Idle), r, s.poller.r);
    hide Queue, Retry, Return;
  }

  lemma QueueMoves(s: State, r: nat, x: nat)
    ensures Places(Queue(s, x), r) == Places(s, r) + if r == x then 1 else 0
  {
    AppendLast(s.reqQ, x, r);
    AddOne(s.lost, x, r);
  }

  lemma ForwardMoves(s: State, r: nat)
    requires s.master.Granted?
    ensures Places(Step(s, Forward), r) == Places(s, r)
  {
    QueueMoves(s.(master := Free), r, s.master.r);
    hide Queue, Retry, Return;
  }

  lemma OtherMoves(s: State, e: Event, r: nat)
    requires Enabled(s, e) && (e.Grab? || e.Complete? || e.SpuriousWake?)
    ensures Places(Step(s, e), r) == Places(s, r)
  {
    hide Retry, Return;
  }

  lemma StepConserves(s: State, e: Event)
    requires Conserved(s) && Enabled(s, e) && !PoolDry(s, e)
    requires |s.reqQ| < s.qsize && |s.retryQ| < s.qsize
    requires s.handler.Returning? || s.poller.Returning? ==> |s.pool| < s.qsize
    ensures Conserved(Step(s, e))
  {
    if s.handler.HasSlot() { HeldOnce(s); }
    var s' := Step(s, e);
    assert s'.lost == s.lost && s'.qsize == s.qsize;
    assert e.Dispatch? ==> s.handler.Busy?;
    assert e.Forward? ==> s.master.Granted?;
    assert e.HandlerReturns? ==> s.handler.Returning?;
    assert e.PollerReturns? ==> s.poller.Returning?;
    assert e.Callback? ==> s.poller.Busy?;
    hide Step, Enabled, Places;
    forall r: nat
      ensures Places(s', r) == Places(s, r)
    {
      if TakesFirst(e) { TakingMoves(s, e, r); }
      else if e.Dispatch? { DispatchMoves(s, e.o, r); }
      else if e.Callback? { CallbackMoves(s, e.again, r); }
      else if e.Forward? { ForwardMoves(s, r); }
      else if e.Grab? || e.Complete? || e.SpuriousWake? { OtherMoves(s, e, r); }
      else if e.HandlerReleases? || e.PollerReleases? { ReleasingMoves(s, e, r); }
      else if e.HandlerReturns? { HandlerReturnMoves(s, r); }
      else { PollerReturnMoves(s, r); }
    }
  }

  lemma MasterKeepsLock(s: State, e: Event)
    requires LockOk(s) && Enabled(s, e) && !PoolDry(s, e) && (e.Make? || e.Grab? || e.Forward? || e.SpuriousWake?)
    requires |s.reqQ| < s.qsize
    ensures LockOk(Step(s, e))
  {
    hide Retry, Return;
  }

  /** Whatever happens to a request between grab and release, it keeps flying. */
  lemma SameFlying(s: State, s': State)
    requires LockOk(s) && Flying(s') == Flying(s)
    requires s'.lock == s.lock && s'.master == s.master && s'.qsize == s.qsize
    ensures LockOk(s')
  {
    hide CondLock.Inv, Flying;
  }

  lemma LookingKeepsLock(s: State, e: Event)
    requires LockOk(s) && Enabled(s, e) && (e.LookAtRetries? || e.LookAtRequests?)
    ensures LockOk(Step(s, e))
  {
    hide LockOk, Retry, Return, Queue;
    SameFlying(s, Step(s, e));
  }

  lemma DispatchKeepsLock(s: State, o: Outcome)
    requires LockOk(s) && s.handler.Busy? && s.handler.r !in s.io && |s.retryQ| < s.qsize
    ensures LockOk(Step(s, Dispatch(o)))
  {
    hide LockOk, Return, Queue;
    assert |s.io + {s.handler.r}| == |s.io| + 1;
    SameFlying(s, Step(s, Dispatch(o)));
  }

  lemma CompleteKeepsLock(s: State, r: nat)
    requires LockOk(s) && s.poller.Idle? && r in s.io
    ensures LockOk(Step(s, Complete(r)))
  {
    hide LockOk, Retry, Return, Queue;
    assert |s.io - {r}| == |s.io| - 1;
    SameFlying(s, Step(s, Complete(r)));
  }

  lemma CallbackKeepsLock(s: State, again: bool)
    requires LockOk(s) && s.poller.Busy? && |s.retryQ| < s.qsize
    ensures LockOk(Step(s, Callback(again)))
  {
    hide LockOk, Return, Queue;
    SameFlying(s, Step(s, Callback(again)));
  }

  lemma EndingKeepsLock(s: State, e: Event)
    requires LockOk(s) && Enabled(s, e)
    requires e.HandlerReleases? || e.HandlerReturns? || e.PollerReleases? || e.PollerReturns?
    ensures LockOk(Step(s, e))
  {
    hide Retry;
  }

  lemma StepKeepsLock(s: State, e: Event)
    requires LockOk(s) && Enabled(s, e) && !PoolDry(s, e) && (e.Dispatch? ==> s.handler.r !in s.io)
    requires |s.reqQ| < s.qsize && |s.retryQ| < s.qsize
    ensures LockOk(Step(s, e))
  {
    hide LockOk, Step, PoolDry;
    match e
    case Make => MasterKeepsLock(s, e);
    case Grab => MasterKeepsLock(s, e);
    case Forward => MasterKeepsLock(s, e);
    case SpuriousWake => MasterKeepsLock(s, e);
    case LookAtRetries => LookingKeepsLock(s, e);
    case LookAtRequests => LookingKeepsLock(s, e);
    case Dispatch(o) => DispatchKeepsLock(s, o);
    case Complete(r) => CompleteKeepsLock(s, r);
    case Callback(again) => CallbackKeepsLock(s, again);
    case _ => EndingKeepsLock(s, e);
  }

  /** Every step of every thread keeps the books: places, lock counter and sleepers. */
  lemma StepKeepsInv(s: State, e: Event)
    requires Inv(s) && Enabled(s, e)
    ensures !PoolDry(s, e) && Inv(Step(s, e))
  {
    PoolNeverDry(s, e);
    NoQueueOverflows(s);
    if s.handler.HasSlot() { HeldOnce(s); }
    hide Conserved, LockOk, Step, PoolDry;
    StepConserves(s, e);
    StepKeepsLock(s, e);
  }

  // ---------- Runs

  /** Enabled events; a null request from the pool would end the run. */
  ghost predicate Possible(s: State, run: seq<Event>)
    decreases |run|
  {
    run == [] || (Enabled(s, run[0]) && (PoolDry(s, run[0]) || Possible(Step(s, run[0]), run[1..])))
  }

  /** The last state before the run ends or a null request is handed out. */
  ghost function Run(s: State, run: seq<Event>): (r: State)
    requires Possible(s, run)
    decreases |run|
  {
    if run == [] || PoolDry(s, run[0]) then s else Run(Step(s, run[0]), run[1..])
  }

  ghost predicate RunsDry(s: State, run: seq<Event>)
    requires Possible(s, run)
    decreases |run|
  {
    run != [] && (PoolDry(s, run[0]) || RunsDry(Step(s, run[0]), run[1..]))
  }

  lemma {:induction false} RunKeepsInv(s: State, run: seq<Event>)
    requires Inv(s) && Possible(s, run)
    ensures Inv(Run(s, run)) && !RunsDry(s, run)
    decreases |run|
  {
    hide Inv, Enabled, PoolDry, Step;
    if run != [] {
      StepKeepsInv(s, run[0]);
      RunKeepsInv(Step(s, run[0]), run[1..]);
    }
  }

  /**
   In every interleaving each request slot is in exactly one place, no queue refuses a request, the pool
   never hands out null, and the lock counts the requests between grab and release.
   */
  lemma NoRequestIsLost(qsize: nat, qdepth: nat, run: seq<Event>)
    requires qdepth + 2 < qsize && Possible(Initial(qsize, qdepth), run)
    ensures !RunsDry(Initial(qsize, qdepth), run)
    ensures var s := Run(Initial(qsize, qdepth), run);
      && s.lost == multiset{} && s.lock.now == Flying(s) <= s.lock.cnt
      && forall r: nat :: Places(s, r) == if r < s.qsize then 1 else 0
  {
    InitialInv(qsize, qdepth);
    RunKeepsInv(Initial(qsize, qdepth), run);
  }

  /** When the handler may stop because nothing flies, nothing is queued, in I/O or in a worker's hands. */
  lemma NothingFliesAtStop(s: State)
    requires Inv(s) && s.lock.now == 0
    ensures s.reqQ == [] && s.retryQ == [] && s.io == {} && !s.master.Granted?
    ensures !s.handler.Busy? && !s.handler.Ending? && !s.poller.Busy? && !s.poller.Ending?
  {
  }

  /** A master asleep in the lock waits for a full house; with room it is awake and gets through. */
  lemma MasterSleepsOnlyWhenFull(s: State)
    requires Inv(s) && s.lock.threads[MASTER].Asleep?
    ensures Flying(s) == s.lock.cnt
  {
  }
}
