/** In what order the queues of a handler hand out requests, and how soon the handler takes up a retried one. */
module LifecycleQueues {
  import CondLock
  import opened Lifecycle

  datatype Line = Pool | Requests | Retries

  function Waiting(s: State, q: Line): (slots: seq<nat>) {
    match q
    case Pool => s.pool
    case Requests => s.reqQ
    case Retries => s.retryQ
  }

  /** The slot that an event sends to a queue: returned, forwarded, or sent back for another dispatch. */
  function In(s: State, e: Event, q: Line): (slots: seq<nat>)
    requires Enabled(s, e)
  {
    match e
    case Forward => if q.Requests? then [s.master.r] else []
    case Dispatch(Retried) => if q.Retries? then [s.handler.r] else []
    case Callback(again) => if q.Retries? && again then [s.poller.r] else []
    case HandlerReturns => if q.Pool? then [s.handler.r] else []
    case PollerReturns => if q.Pool? then [s.poller.r] else []
    case _ => []
  }

  /** The slot that an event takes from a queue: it is in the hands of the master or of the handler then. */
  function Out(e: Event, s': State, q: Line): (slots: seq<nat>) {
    match e
    case Make => if q.Pool? && !s'.master.Free? then [s'.master.r] else []
    case LookAtRequests => if q.Requests? && s'.handler.Busy? then [s'.handler.r] else []
    case LookAtRetries => if q.Retries? && s'.handler.Busy? then [s'.handler.r] else []
    case _ => []
  }

  lemma PoolKeepsOrder(s: State, e: Event)
    requires Enabled(s, e) && !PoolDry(s, e) && (s.handler.Returning? || s.poller.Returning? ==> |s.pool| < s.qsize)
    ensures s.pool + In(s, e, Pool) == Out(e, Step(s, e), Pool) + Step(s, e).pool
  {
    hide CondLock.Grab, CondLock.Release, CondLock.Step, CondLock.Enabled;
  }

  lemma RequestsKeepOrder(s: State, e: Event)
    requires Enabled(s, e) && !PoolDry(s, e) && |s.reqQ| < s.qsize
    ensures s.reqQ + In(s, e, Requests) == Out(e, Step(s, e), Requests) + Step(s, e).reqQ
  {
    hide CondLock.Grab, CondLock.Release, CondLock.Step, CondLock.Enabled;
  }

  lemma RetriesKeepOrder(s: State, e: Event)
    requires Enabled(s, e) && !PoolDry(s, e) && |s.retryQ| < s.qsize
    ensures s.retryQ + In(s, e, Retries) == Out(e, Step(s, e), Retries) + Step(s, e).retryQ
  {
    hide CondLock.Grab, CondLock.Release, CondLock.Step, CondLock.Enabled;
  }

  /** An event takes from the front of a queue and adds to its back. */
  lemma StepKeepsOrder(s: State, e: Event, q: Line)
    requires Inv(s) && Enabled(s, e) && !PoolDry(s, e)
    ensures Waiting(s, q) + In(s, e, q) == Out(e, Step(s, e), q) + Waiting(Step(s, e), q)
  {
    NoQueueOverflows(s);
    hide Inv;
    match q
    case Pool => PoolKeepsOrder(s, e);
    case Requests => RequestsKeepOrder(s, e);
    case Retries => RetriesKeepOrder(s, e);
  }

  ghost function Entered(s: State, run: seq<Event>, q: Line): (slots: seq<nat>)
    requires Possible(s, run)
    decreases |run|
  {
    if run == [] || PoolDry(s, run[0]) then [] else In(s, run[0], q) + Entered(Step(s, run[0]), run[1..], q)
  }

  ghost function Taken(s: State, run: seq<Event>, q: Line): (slots: seq<nat>)
    requires Possible(s, run)
    decreases |run|
  {
    if run == [] || PoolDry(s, run[0]) then []
    else Out(run[0], Step(s, run[0]), q) + Taken(Step(s, run[0]), run[1..], q)
  }

  /** Over every run: the requests leave each queue in the order in which they entered it, and none is passed over. */
  lemma {:induction false} QueuesKeepOrder(s: State, run: seq<Event>, q: Line)
    requires Inv(s) && Possible(s, run)
    ensures Waiting(s, q) + Entered(s, run, q) == Taken(s, run, q) + Waiting(Run(s, run), q)
    decreases |run|
  {
    hide Inv, Enabled, PoolDry, Step, In, Out, Waiting;
    if run != [] {
      StepKeepsInv(s, run[0]);
      StepKeepsOrder(s, run[0], q);
      var s' := Step(s, run[0]);
      QueuesKeepOrder(s', run[1..], q);
      Shuffle(Waiting(s, q), In(s, run[0], q), Out(run[0], s', q), Waiting(s', q),
        Entered(s', run[1..], q), Taken(s', run[1..], q), Waiting(Run(s, run), q));
    }
  }

  lemma Shuffle(w: seq<nat>, a: seq<nat>, b: seq<nat>, w': seq<nat>, more: seq<nat>, gone: seq<nat>, end: seq<nat>)
    requires w + a == b + w' && w' + more == gone + end
    ensures w + (a + more) == b + gone + end
  {
    assert w + (a + more) == (w + a) + more == b + (w' + more);
  }

  // ---------- How soon

  predicate IsLook(e: Event, q: Line) { (q.Retries? && e.LookAtRetries?) || (q.Requests? && e.LookAtRequests?) }

  /** Looks of the handler at a queue. */
  function Looks(run: seq<Event>, q: Line): (n: nat) {
    if run == [] then 0 else (if IsLook(run[0], q) then 1 else 0) + Looks(run[1..], q)
  }

  /** Whenever the handler looks at a queue with something in it, it takes the first. */
  lemma LookTakes(s: State, e: Event, q: Line)
    requires Inv(s) && Enabled(s, e) && IsLook(e, q) && Waiting(s, q) != []
    ensures !PoolDry(s, e) && Out(e, Step(s, e), q) == [Waiting(s, q)[0]]
  {
    hide Inv;
  }

  /** The i-th slot to be taken from the queue in the run is the one that waits at position i. */
  ghost predicate IsTakenAt(s: State, run: seq<Event>, q: Line, i: nat)
    requires Possible(s, run)
  {
    i < |Waiting(s, q)| && i < |Taken(s, run, q)| && Taken(s, run, q)[i] == Waiting(s, q)[i]
  }

  /** The slot at position i of a queue is in the handler's hands after i + 1 looks at that queue. */
  lemma {:induction false} TakenInTurn(s: State, run: seq<Event>, q: Line, i: nat)
    requires Inv(s) && Possible(s, run) && q != Pool && i < |Waiting(s, q)| && i < Looks(run, q)
    ensures IsTakenAt(s, run, q, i)
    decreases |run|
  {
    hide Inv, Enabled, PoolDry, Step, In, Out, Waiting;
    var e := run[0];
    StepKeepsInv(s, e);
    var s' := Step(s, e);
    StepKeepsOrder(s, e, q);
    OutIsShort(e, s', q);
    var w, w', out := Waiting(s, q), Waiting(s', q), Out(e, s', q);
    assert forall j :: 0 <= j < |w| ==> w[j] == (out + w')[j];
    if IsLook(e, q) { LookTakes(s, e, q); }
    if |out| <= i {
      TakenInTurn(s', run[1..], q, i - |out|);
    }
  }

  lemma OutIsShort(e: Event, s': State, q: Line)
    ensures |Out(e, s', q)| <= 1
    ensures q != Pool && Out(e, s', q) != [] ==> IsLook(e, q)
  {
  }

  /** Steps of the handler thread. */
  predicate ByHandler(e: Event) {
    e.LookAtRetries? || e.LookAtRequests? || e.Dispatch? || e.HandlerReleases? || e.HandlerReturns?
  }

  function HandlerSteps(run: seq<Event>): (n: nat) {
    if run == [] then 0 else (if ByHandler(run[0]) then 1 else 0) + HandlerSteps(run[1..])
  }

  /** Steps of the handler until its next look at the retry queue, that one included. */
  function ToNextLook(w: Worker): (n: nat) {
    match w
    case Idle => 1
    case Looked => 5
    case Busy(_) => 4
    case Ending(_) => 3
    case Returning(_) => 2
  }

  lemma StepTowardsLook(s: State, e: Event)
    requires Enabled(s, e) && !PoolDry(s, e)
    ensures var s' := Step(s, e);
      if e.LookAtRetries? then ToNextLook(s.handler) == 1
      else if ByHandler(e) then ToNextLook(s'.handler) < ToNextLook(s.handler)
      else s'.handler == s.handler
  {
  }

  /** The handler looks at the retry queue in every five of its steps, whatever it is doing and whatever it finds. */
  lemma {:induction false} HandlerComesRound(s: State, run: seq<Event>, n: nat)
    requires Inv(s) && Possible(s, run) && ToNextLook(s.handler) + 5 * n <= HandlerSteps(run)
    ensures n < Looks(run, Retries)
    decreases |run|
  {
    hide Inv, Enabled, PoolDry, Step;
    var e := run[0];
    StepKeepsInv(s, e);
    StepTowardsLook(s, e);
    if !e.LookAtRetries? {
      HandlerComesRound(Step(s, e), run[1..], n);
    } else if n > 0 {
      HandlerComesRound(Step(s, e), run[1..], n - 1);
    }
  }

  /** A request in the retry queue behind i others is dispatched again after at most 5 * (i + 1) steps of the handler. */
  lemma RetryIsTakenUp(s: State, run: seq<Event>, i: nat)
    requires Inv(s) && Possible(s, run) && i < |s.retryQ| && 5 * (i + 1) <= HandlerSteps(run)
    ensures IsTakenAt(s, run, Retries, i)
  {
    HandlerComesRound(s, run, i);
    TakenInTurn(s, run, Retries, i);
    hide Inv;
  }

  // ---------- Retries first

  /**
   Every look at the request queue comes right after a look of the same pass that found the retry queue empty;
   "empty" says whether the pass under way began like that.
   */
  ghost predicate RetriesFirst(s: State, run: seq<Event>, empty: bool)
    requires Possible(s, run)
    decreases |run|
  {
    run == [] || PoolDry(s, run[0]) ||
      (var e := run[0];
       && (e.LookAtRequests? ==> empty)
       && RetriesFirst(Step(s, e), run[1..],
            if e.LookAtRetries? then s.retryQ == [] else empty && !ByHandler(e)))
  }

  lemma {:induction false} NewRequestsComeLast(s: State, run: seq<Event>, empty: bool)
    requires Possible(s, run) && (s.handler.Looked? ==> empty)
    ensures RetriesFirst(s, run, empty)
    decreases |run|
  {
    hide PoolDry;
    if run != [] && !PoolDry(s, run[0]) {
      var e := run[0];
      assert Step(s, e).handler.Looked? ==> if e.LookAtRetries? then s.retryQ == [] else empty && !ByHandler(e);
      hide Step, Enabled;
      NewRequestsComeLast(Step(s, e), run[1..], if e.LookAtRetries? then s.retryQ == [] else empty && !ByHandler(e));
    }
  }

  /** From the start: queues in order, retries first, and each retry taken up in turn, in every run and from every point of it. */
  lemma EveryRunServesInOrder(qsize: nat, qdepth: nat, before: seq<Event>, run: seq<Event>, q: Line)
    requires qdepth + 2 < qsize
    requires Possible(Initial(qsize, qdepth), before) && Possible(Run(Initial(qsize, qdepth), before), run)
    ensures var s := Run(Initial(qsize, qdepth), before);
      && Waiting(s, q) + Entered(s, run, q) == Taken(s, run, q) + Waiting(Run(s, run), q)
      && RetriesFirst(Initial(qsize, qdepth), before, false)
      && forall i: nat :: i < |s.retryQ| && 5 * (i + 1) <= HandlerSteps(run) ==> IsTakenAt(s, run, Retries, i)
  {
    hide Inv, Step, Enabled, PoolDry, Waiting;
    var start := Initial(qsize, qdepth);
    InitialInv(qsize, qdepth);
    RunKeepsInv(start, before);
    var s := Run(start, before);
    QueuesKeepOrder(s, run, q);
    NewRequestsComeLast(start, before, false);
    forall i: nat | i < |s.retryQ| && 5 * (i + 1) <= HandlerSteps(run)
      ensures IsTakenAt(s, run, Retries, i)
    {
      RetryIsTakenUp(s, run, i);
    }
  }
}
