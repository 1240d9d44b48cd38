/** What the lock-free queue promises its callers: order, exactly once, honest emptiness, and its size field. */
module LockFreeResults {
  import opened Common
  import opened LockFreeQueue

  // ---------- Values leave in link order, each exactly once

  /** Position of the chain whose successor's value a thread has taken and not yet returned. */
  function Taking(pc: Pc): (r: Option<nat>) {
    match pc
    case ReadVal(_, at) => Some(at)
    case FreeNode(_, _, at) => Some(at)
    case SubSize(_, at) => Some(at)
    case _ => None
  }

  /** v is the value linked at position k + 1, and the head has passed it. */
  ghost predicate ResultOk(q: Queue, k: nat, v: int) {
    k < q.headAt && k + 1 < |q.chain| && v == Val(q, q.chain[k + 1])
  }

  ghost predicate TakenBySome(s: State, k: nat) {
    exists t :: t in s.pcs && Taking(s.pcs[t]) == Some(k)
  }

  /** Each swing of the head is either being returned by one thread or has been returned once. */
  ghost predicate TakenOk(s: State) {
    && (forall k: nat :: k in s.q.results ==> ResultOk(s.q, k, s.q.results[k]))
    && (forall t :: t in s.pcs && Taking(s.pcs[t]).Some? ==> Taking(s.pcs[t]).value !in s.q.results)
    && (forall t, u :: t in s.pcs && u in s.pcs && t != u && Taking(s.pcs[t]).Some? ==>
         Taking(s.pcs[t]) != Taking(s.pcs[u]))
    && (forall k: nat :: k < s.q.headAt ==> k in s.q.results || TakenBySome(s, k))
  }

  /** How an instruction changes what its thread is taking. */
  ghost predicate TakingStep(q: Queue, pc: Pc, q': Queue, pc': Pc) {
    || (q'.headAt == q.headAt && q'.results == q.results && Taking(pc') == Taking(pc))
    || (q'.headAt == q.headAt + 1 && q'.results == q.results && Taking(pc).None? && Taking(pc') == Some(q.headAt))
    || (q'.headAt == q.headAt && pc.SubSize? && Taking(pc').None? && q'.results == q.results[pc.at := pc.v])
  }

  lemma InstructionTakes(q: Queue, pc: Pc)
    requires ChainOk(q) && EndsOk(q) && PcOk(q, pc)
    ensures TakingStep(q, pc, Execute(q, pc).0, Execute(q, pc).1)
  {
    if pc.SwingHead? && q.head == pc.n { SameNode(q, pc.at, q.headAt); }
    hide ChainOk, EndsOk, PcOk;
  }

  /** What a step does, as far as results are concerned: one thread, one instruction or call. */
  ghost predicate TakesOnly(s: State, s': State, t: nat) {
    && t in s.pcs && t in s'.pcs && s'.pcs == s.pcs[t := s'.pcs[t]]
    && Extends(s.q, s'.q) && TakingStep(s.q, s.pcs[t], s'.q, s'.pcs[t])
  }

  lemma StepTakesOnly(s: State, t: nat, a: Act)
    requires Inv(s) && Enabled(s, t, a)
    ensures TakesOnly(s, Step(s, t, a), t)
  {
    ThreadOk(s, t);
    StepExtends(s, t, a);
    if a.Go? { InstructionTakes(s.q, s.pcs[t]); }
    hide Inv, Execute, Extends, PcOk;
  }

  lemma StepExtends(s: State, t: nat, a: Act)
    requires Inv(s) && Enabled(s, t, a)
    ensures Extends(s.q, Step(s, t, a).q)
  {
    ThreadOk(s, t);
    if !a.Go? {
      CallKeepsThreads(s, t, a);
    } else if Links(s.q, s.pcs[t]) {
      LinkIsAtEnd(s, t);
      assert Private(s.pcs[t]) == Some(s.pcs[t].node);
      LinkedChain(s.q, s.pcs[t].node);
    } else {
      OtherInstruction(s.q, s.pcs[t]);
      hide Execute;
    }
  }

  /** Nobody takes what the head has not passed. */
  lemma TakersAreBehindHead(s: State, t: nat)
    requires Inv(s) && t in s.pcs && Taking(s.pcs[t]).Some?
    ensures Taking(s.pcs[t]).value < s.q.headAt
  {
    ThreadOk(s, t);
  }

  lemma ResultStaysOk(q: Queue, q': Queue, k: nat, v: int)
    requires ResultOk(q, k, v) && Extends(q, q')
    ensures ResultOk(q', k, v)
  {
    assert q'.chain[k + 1] == q.chain[k + 1];
  }

  lemma ReturnedIsOk(s: State, t: nat)
    requires Inv(s) && t in s.pcs && s.pcs[t].SubSize?
    ensures ResultOk(s.q, s.pcs[t].at, s.pcs[t].v)
  {
    ThreadOk(s, t);
  }

  lemma ResultsStayOk(s: State, s': State, t: nat)
    requires Inv(s) && TakenOk(s) && TakesOnly(s, s', t)
    ensures forall k: nat :: k in s'.q.results ==> ResultOk(s'.q, k, s'.q.results[k])
  {
    hide Inv, Taking, Extends;
    forall k: nat | k in s'.q.results
      ensures ResultOk(s'.q, k, s'.q.results[k])
    {
      if k in s.q.results && s'.q.results[k] == s.q.results[k] {
        ResultStaysOk(s.q, s'.q, k, s.q.results[k]);
      } else {
        ReturnedIsOk(s, t);
        ResultStaysOk(s.q, s'.q, k, s'.q.results[k]);
      }
    }
  }

  lemma TakersStayDistinct(s: State, s': State, t: nat)
    requires Inv(s) && TakenOk(s) && TakesOnly(s, s', t)
    ensures forall u :: u in s'.pcs && Taking(s'.pcs[u]).Some? ==> Taking(s'.pcs[u]).value !in s'.q.results
    ensures forall u, w :: u in s'.pcs && w in s'.pcs && u != w && Taking(s'.pcs[u]).Some? ==>
      Taking(s'.pcs[u]) != Taking(s'.pcs[w])
  {
    assert s.pcs[t].SubSize? ==> Taking(s.pcs[t]) == Some(s.pcs[t].at);
    hide Inv, Taking, Extends;
    forall u | u in s.pcs && Taking(s.pcs[u]).Some?
      ensures Taking(s.pcs[u]).value < s.q.headAt
    {
      TakersAreBehindHead(s, u);
    }
  }

  lemma AllStayTaken(s: State, s': State, t: nat, k: nat)
    requires TakenOk(s) && TakesOnly(s, s', t)
    requires k < s'.q.headAt && k !in s'.q.results
    ensures TakenBySome(s', k)
  {
    if k < s.q.headAt {
      var u :| u in s.pcs && Taking(s.pcs[u]) == Some(k);
      assert u in s'.pcs && Taking(s'.pcs[u]) == Some(k);
    } else {
      assert t in s'.pcs && Taking(s'.pcs[t]) == Some(k);
    }
  }

  lemma StepKeepsTaken(s: State, t: nat, a: Act)
    requires Inv(s) && TakenOk(s) && Enabled(s, t, a)
    ensures TakenOk(Step(s, t, a))
  {
    StepTakesOnly(s, t, a);
    hide Step, Inv, Taking, TakesOnly;
    var s' := Step(s, t, a);
    ResultsStayOk(s, s', t);
    TakersStayDistinct(s, s', t);
    forall k: nat | k < s'.q.headAt && k !in s'.q.results
      ensures TakenBySome(s', k)
    {
      AllStayTaken(s, s', t, k);
    }
  }

  // ---------- Honest answers

  /** Inside a dequeue. */
  predicate Dequeuing(pc: Pc) { pc.ReadHead? || pc.TestNext? || pc.ReadNext? || pc.SwingHead? || Taking(pc).Some? }

  /**
   How a dequeue goes on or ends. It ends with the value behind the node it took, or empty-handed, and then there is
   no node between head and end at that very instant.
   */
  ghost predicate HonestDequeue(q: Queue, pc: Pc, q': Queue, pc': Pc) {
    Dequeuing(pc) ==>
      if !pc'.Idle? then Dequeuing(pc') && q'.results == q.results
      else if Taking(pc).Some? then
        Taking(pc).value + 1 < |q.chain|
        && q'.results == q.results[Taking(pc).value := Val(q, q.chain[Taking(pc).value + 1])]
      else q' == q && q.headAt + 1 == |q.chain|
  }

  /**
   How an enqueue goes on or ends. Its node stays private until it is linked at the end of the chain; an enqueue that
   ends before that has seen the size meet the bound, and after that it can only succeed.
   */
  ghost predicate HonestEnqueue(q: Queue, pc: Pc, q': Queue, pc': Pc) {
    && (Private(pc).Some? ==>
         if pc'.Idle? then q' == q && q.size == q.mSize
         else Private(pc') == Private(pc) || (Adding(pc') && q'.chain == q.chain + [Private(pc).value]))
    && (Adding(pc) ==> Adding(pc') || (pc'.Idle? && pc.AddSize? && q'.size == q.size + 1))
  }

  /** A call begins what it asks for, and no step changes the value of a node. */
  ghost predicate HonestStep(s: State, t: nat, a: Act)
    requires Enabled(s, t, a)
  {
    var s' := Step(s, t, a);
    && t in s'.pcs
    && (forall n :: n in s.q.heap ==> n in s'.q.heap && Val(s'.q, n) == Val(s.q, n))
    && match a
       case CallEnqueue(v, node) => Private(s'.pcs[t]) == Some(node) && node in s'.q.heap && Val(s'.q, node) == v
       case CallDequeue => Dequeuing(s'.pcs[t])
       case Go => HonestDequeue(s.q, s.pcs[t], s'.q, s'.pcs[t]) && HonestEnqueue(s.q, s.pcs[t], s'.q, s'.pcs[t])
  }

  /** The dequeue's part: whatever its next instruction is, it does not give up on a node that is there. */
  lemma EmptyAnswerIsTrue(s: State, t: nat)
    requires Inv(s) && t in s.pcs
    ensures var (q', pc') := Execute(s.q, s.pcs[t]); HonestDequeue(s.q, s.pcs[t], q', pc')
  {
    ThreadOk(s, t);
    if s.pcs[t].TestNext? { NextInChain(s.q, s.pcs[t].at); }
    hide ChainOk, PrivateOk, ThreadsOk, LagExplained;
  }

  /** The enqueue's part: whatever its next instruction is, it does not give up on room that is there. */
  lemma RefusalIsTrue(s: State, t: nat)
    requires Inv(s) && t in s.pcs
    ensures var (q', pc') := Execute(s.q, s.pcs[t]); HonestEnqueue(s.q, s.pcs[t], q', pc')
  {
  }

  lemma EveryStepIsHonest(s: State, t: nat, a: Act)
    requires Inv(s) && Enabled(s, t, a)
    ensures HonestStep(s, t, a)
  {
    if a.Go? {
      EmptyAnswerIsTrue(s, t);
      RefusalIsTrue(s, t);
      ValuesStay(s.q, s.pcs[t]);
    }
    hide Inv, Execute, HonestDequeue, HonestEnqueue;
  }

  lemma ValuesStay(q: Queue, pc: Pc)
    ensures forall n :: n in q.heap ==> n in Execute(q, pc).0.heap && Val(Execute(q, pc).0, n) == Val(q, n)
  {
  }

  /** With every thread idle, the dequeues have returned exactly the first linked values, one each. */
  lemma IdleResultsAreFirstValues(s: State)
    requires Inv(s) && TakenOk(s) && forall t :: t in s.pcs ==> s.pcs[t].Idle?
    ensures forall k: nat :: k in s.q.results <==> k < s.q.headAt
    ensures forall k: nat :: k in s.q.results ==> s.q.results[k] == Val(s.q, s.q.chain[k + 1])
  {
    assert forall k: nat :: !TakenBySome(s, k);
  }

  /** The ends move one node at a time, and only forward, and the tail never lags by two. */
  lemma EndsMoveByOne(s: State, t: nat, a: Act)
    requires Inv(s) && Enabled(s, t, a)
    ensures var q' := Step(s, t, a).q;
      && s.q.tailAt <= q'.tailAt <= s.q.tailAt + 1 && s.q.headAt <= q'.headAt <= s.q.headAt + 1
      && |s.q.chain| <= |q'.chain| <= q'.tailAt + 2
  {
    StepKeepsInv(s, t, a);
    StepExtends(s, t, a);
    hide Step;
  }

  // ---------- The size field

  /** Threads whose program counter satisfies a predicate. */
  function Threads(pcs: map<nat, Pc>, p: Pc -> bool): (r: set<nat>) {
    set t | t in pcs && p(pcs[t])
  }

  function Count(pcs: map<nat, Pc>, p: Pc -> bool): (r: nat) { |Threads(pcs, p)| }

  function One(b: bool): (r: int) { if b then 1 else 0 }

  lemma WithAndWithout(threads: set<nat>, t: nat)
    ensures |threads| == |threads - {t}| + One(t in threads)
  {
  }

  lemma CountUpdate(pcs: map<nat, Pc>, p: Pc -> bool, t: nat, pc: Pc)
    requires t in pcs
    ensures Count(pcs[t := pc], p) == Count(pcs, p) - One(p(pcs[t])) + One(p(pc))
  {
    var before, after := Threads(pcs, p), Threads(pcs[t := pc], p);
    assert after - {t} == before - {t};
    WithAndWithout(before, t);
    WithAndWithout(after, t);
  }

  /** Linked, but not yet added to the size. */
  predicate Adding(pc: Pc) { pc.SwingTail? || pc.AddSize? }

  /** Off the queue, but not yet subtracted from the size. */
  predicate Subtracting(pc: Pc) { pc.ReadVal? || pc.FreeNode? || pc.SubSize? }

  /** Nodes between head and end. */
  function Present(s: State): (r: int) { |s.q.chain| - 1 - s.q.headAt }

  ghost predicate SizeOk(s: State) {
    s.q.size == Present(s) - Count(s.pcs, Adding) + Count(s.pcs, Subtracting)
  }

  /** Size, nodes and the two kinds of pending updates move together. */
  ghost predicate SizeStep(q: Queue, pc: Pc, q': Queue, pc': Pc) {
    q'.size - q.size == (|q'.chain| - q'.headAt) - (|q.chain| - q.headAt)
      - (One(Adding(pc')) - One(Adding(pc))) + (One(Subtracting(pc')) - One(Subtracting(pc)))
  }

  lemma InstructionSizes(q: Queue, pc: Pc)
    ensures SizeStep(q, pc, Execute(q, pc).0, Execute(q, pc).1)
  {
  }

  lemma StepSizes(s: State, t: nat, a: Act)
    requires Enabled(s, t, a)
    ensures var s' := Step(s, t, a);
      && t in s'.pcs && s'.pcs == s.pcs[t := s'.pcs[t]]
      && SizeStep(s.q, s.pcs[t], s'.q, s'.pcs[t])
  {
    if a.Go? {
      InstructionSizes(s.q, s.pcs[t]);
      hide Execute, SizeStep;
    }
  }

  /** The size field always counts the nodes present, less the adds and plus the subtractions still to come. */
  lemma StepKeepsSize(s: State, t: nat, a: Act)
    requires SizeOk(s) && Enabled(s, t, a)
    ensures SizeOk(Step(s, t, a))
  {
    hide Step;
    StepSizes(s, t, a);
    CountUpdate(s.pcs, Adding, t, Step(s, t, a).pcs[t]);
    CountUpdate(s.pcs, Subtracting, t, Step(s, t, a).pcs[t]);
  }

  // ---------- Runs

  ghost predicate Possible(s: State, run: seq<(nat, Act)>)
    decreases |run|
  {
    run == [] || (Enabled(s, run[0].0, run[0].1) && Possible(Step(s, run[0].0, run[0].1), run[1..]))
  }

  ghost function Run(s: State, run: seq<(nat, Act)>): (r: State)
    requires Possible(s, run)
    decreases |run|
  {
    if run == [] then s else Run(Step(s, run[0].0, run[0].1), run[1..])
  }

  /** Every step of the run is honest. */
  ghost predicate HonestRun(s: State, run: seq<(nat, Act)>)
    requires Possible(s, run)
    decreases |run|
  {
    run == [] || (HonestStep(s, run[0].0, run[0].1) && HonestRun(Step(s, run[0].0, run[0].1), run[1..]))
  }

  ghost predicate Good(s: State) { Inv(s) && TakenOk(s) && SizeOk(s) }

  lemma {:induction false} RunKeepsGood(s: State, run: seq<(nat, Act)>)
    requires Good(s) && Possible(s, run)
    ensures Good(Run(s, run)) && HonestRun(s, run)
    decreases |run|
  {
    hide Inv, TakenOk, SizeOk, Step, Enabled, HonestStep;
    if run != [] {
      EveryStepIsHonest(s, run[0].0, run[0].1);
      StepKeepsInv(s, run[0].0, run[0].1);
      StepKeepsTaken(s, run[0].0, run[0].1);
      StepKeepsSize(s, run[0].0, run[0].1);
      RunKeepsGood(Step(s, run[0].0, run[0].1), run[1..]);
    }
  }

  lemma InitialGood(mSize: int, threads: set<nat>)
    ensures Good(Initial(mSize, threads))
  {
    InitialInv(mSize, threads);
    var s := Initial(mSize, threads);
    assert Threads(s.pcs, Adding) == {} && Threads(s.pcs, Subtracting) == {};
  }

  /**
   In every interleaving of any number of enqueues and dequeues the chain, the results and the size are right, and
   every answer is honest.
   */
  lemma EveryRunIsGood(mSize: int, threads: set<nat>, run: seq<(nat, Act)>)
    requires Possible(Initial(mSize, threads), run)
    ensures Good(Run(Initial(mSize, threads), run)) && HonestRun(Initial(mSize, threads), run)
  {
    InitialGood(mSize, threads);
    RunKeepsGood(Initial(mSize, threads), run);
  }

  // ---------- The bound

  predicate Enqueuing(pc: Pc) { Private(pc).Some? || Adding(pc) }

  /** Only thread e ever enqueues. */
  ghost predicate OnlyEnqueuer(s: State, e: nat) {
    forall t :: t in s.pcs && t != e ==> !Enqueuing(s.pcs[t])
  }

  /** With one enqueuer the size never passes the bound, and stays below it once the test has succeeded. */
  ghost predicate Bounded(s: State, e: nat) {
    && OnlyEnqueuer(s, e) && s.q.size <= s.q.mSize
    && (e in s.pcs && PastTest(s.pcs[e]) ==> s.q.size < s.q.mSize)
  }

  predicate PastTest(pc: Pc) { pc.Link? || Adding(pc) }

  lemma OneAdder(s: State, e: nat)
    requires OnlyEnqueuer(s, e)
    ensures Count(s.pcs, Adding) == One(e in s.pcs && Adding(s.pcs[e]))
  {
    var adders := Threads(s.pcs, Adding);
    if e in s.pcs && Adding(s.pcs[e]) {
      assert adders == {e};
    } else {
      assert adders == {};
    }
  }

  /** The bound on the nodes themselves follows. */
  lemma NodesWithinBound(s: State, e: nat)
    requires SizeOk(s) && Bounded(s, e)
    ensures Present(s) <= s.q.mSize
  {
    OneAdder(s, e);
  }

  /** The enqueuer's own instructions respect the bound. */
  lemma EnqueuerIsBounded(q: Queue, pc: Pc)
    requires q.size <= q.mSize && (PastTest(pc) ==> q.size < q.mSize)
    ensures var (q', pc') := Execute(q, pc);
      q'.size <= q'.mSize == q.mSize && (PastTest(pc') ==> q'.size < q'.mSize)
  {
  }

  /** A dequeuer never adds to the size and never becomes an enqueuer. */
  lemma DequeuerIsBounded(q: Queue, pc: Pc)
    requires !Enqueuing(pc)
    ensures var (q', pc') := Execute(q, pc); q'.size <= q.size && q'.mSize == q.mSize && !Enqueuing(pc')
  {
  }

  lemma StepKeepsBounded(s: State, e: nat, t: nat, a: Act)
    requires Bounded(s, e) && Enabled(s, t, a) && (t != e ==> !a.CallEnqueue?)
    ensures Bounded(Step(s, t, a), e) && Step(s, t, a).q.mSize == s.q.mSize
  {
    if a.Go? {
      if t == e { EnqueuerIsBounded(s.q, s.pcs[t]); } else { DequeuerIsBounded(s.q, s.pcs[t]); }
      hide Execute, Enqueuing, PastTest;
    }
  }

  ghost predicate EnqueuesOnly(run: seq<(nat, Act)>, e: nat) {
    forall i :: 0 <= i < |run| && run[i].1.CallEnqueue? ==> run[i].0 == e
  }

  lemma {:induction false} RunKeepsBounded(s: State, e: nat, run: seq<(nat, Act)>)
    requires Bounded(s, e) && Possible(s, run) && EnqueuesOnly(run, e)
    ensures Bounded(Run(s, run), e) && Run(s, run).q.mSize == s.q.mSize
    decreases |run|
  {
    hide Bounded, Step, Enabled;
    if run != [] {
      assert run[0].0 != e ==> !run[0].1.CallEnqueue?;
      StepKeepsBounded(s, e, run[0].0, run[0].1);
      RunKeepsBounded(Step(s, run[0].0, run[0].1), e, run[1..]);
    }
  }

  /** In every run with a single enqueuer the nodes present never exceed the bound. */
  lemma SingleEnqueuerIsBounded(mSize: nat, threads: set<nat>, e: nat, run: seq<(nat, Act)>)
    requires Possible(Initial(mSize, threads), run) && EnqueuesOnly(run, e)
    ensures Present(Run(Initial(mSize, threads), run)) <= mSize
  {
    EveryRunIsGood(mSize, threads, run);
    RunKeepsBounded(Initial(mSize, threads), e, run);
    NodesWithinBound(Run(Initial(mSize, threads), run), e);
  }
}
