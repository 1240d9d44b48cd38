/** The bound of the lock-free queue: it fails for any two enqueuers, without limit, and holds otherwise. */
module LockFreeOverrun {
  import opened Common
  import opened LockFreeQueue
  import opened LockFreeResults

  /** The tail is at the end of the chain, and addresses from "free" on were never used. */
  ghost predicate Ready(q: Queue, free: nat) {
    && ChainOk(q) && EndsOk(q) && q.tailAt + 1 == |q.chain|
    && (forall n :: n in q.heap ==> n < free)
  }

  /** An enqueue up to, but not including, its addition to the size. */
  function LinkUp(t: nat, node: nat): (r: seq<(nat, Act)>) {
    [(t, CallEnqueue(0, node)), (t, Go), (t, Go), (t, Go), (t, Go)]
  }

  /** The queue after it. */
  function Appended(q: Queue, node: nat): (r: Queue)
    requires q.tail in q.heap
  {
    TailSwung(Linked(q.(heap := q.heap[node := Node(0, None)]), node, q.tail), q.tail, node)
  }

  function AfterLinkUp(s: State, t: nat, node: nat): (r: State)
    requires s.q.tail in s.q.heap
  {
    State(Appended(s.q, node), s.pcs[t := AddSize])
  }

  lemma LinkUpRuns(s: State, t: nat, node: nat)
    requires Ready(s.q, node) && t in s.pcs && s.pcs[t].Idle? && s.q.size != s.q.mSize
    ensures s.q.tail in s.q.heap && Possible(s, LinkUp(t, node))
    ensures Run(s, LinkUp(t, node)) == AfterLinkUp(s, t, node)
  {
    var q, acts := s.q, LinkUp(t, node);
    NextInChain(q, q.tailAt);
    assert q.chain[q.tailAt] in q.heap;
    hide ChainOk, EndsOk;
    var q1 := q.(heap := q.heap[node := Node(0, None)]);
    var s1 := State(q1, s.pcs[t := ReadTail(node)]);
    var s2 := State(q1, s.pcs[t := TestSize(node, q.tail, q.tailAt)]);
    var s3 := State(q1, s.pcs[t := Link(node, q.tail, q.tailAt)]);
    var s4 := State(Linked(q1, node, q.tail), s.pcs[t := SwingTail(node, q.tail, q.tailAt)]);
    var s5 := AfterLinkUp(s, t, node);
    assert Step(s, t, CallEnqueue(0, node)) == s1;
    assert Step(s1, t, Go) == s2;
    assert Step(s2, t, Go) == s3;
    assert Step(s3, t, Go) == s4;
    assert Step(s4, t, Go) == s5;
    hide Step;
    UnrollOne(s4, acts[4..]);
    UnrollOne(s3, acts[3..]);
    UnrollOne(s2, acts[2..]);
    UnrollOne(s1, acts[1..]);
    UnrollOne(s, acts);
  }

  lemma UnrollOne(s: State, r: seq<(nat, Act)>)
    requires |r| > 0 && Enabled(s, r[0].0, r[0].1) && Possible(Step(s, r[0].0, r[0].1), r[1..])
    ensures Possible(s, r) && Run(s, r) == Run(Step(s, r[0].0, r[0].1), r[1..])
  {
  }

  lemma AppendedIsReady(q: Queue, node: nat)
    requires Ready(q, node)
    ensures q.tail in q.heap && Ready(Appended(q, node), node + 1)
  {
    var q1 := q.(heap := q.heap[node := Node(0, None)]);
    assert forall n :: n in q.chain ==> n in q.heap;
    SameChain(q, q1);
    LinkedChain(q1, node);
    var q2 := Linked(q1, node, q.tail);
    hide ChainOk;
    assert ChainOk(Appended(q, node)) by { SameShape(q2, Appended(q, node)); }
  }

  lemma SameShape(q: Queue, q': Queue)
    requires ChainOk(q) && q'.chain == q.chain && q'.heap == q.heap
    ensures ChainOk(q')
  {
    SameChain(q, q');
  }

  lemma {:induction false} RunsCompose(s: State, a: seq<(nat, Act)>, b: seq<(nat, Act)>)
    requires Possible(s, a) && Possible(Run(s, a), b)
    ensures Possible(s, a + b) && Run(s, a + b) == Run(Run(s, a), b)
    decreases |a|
  {
    hide Step, Enabled;
    if a == [] {
      assert a + b == b;
    } else {
      RunsCompose(Step(s, a[0].0, a[0].1), a[1..], b);
      assert (a + b)[1..] == a[1..] + b;
    }
  }

  /** k whole enqueues have happened and nobody is about. */
  ghost predicate Quiet(s: State, threads: set<nat>, mSize: nat, k: nat) {
    && Ready(s.q, k + 1) && s.q.headAt == 0 && |s.q.chain| == k + 1 && s.q.size == k && s.q.mSize == mSize
    && s.pcs == map x | x in threads :: Idle
  }

  /** All calls of enqueue in the run come from the given threads. */
  ghost predicate EnqueuedBy(run: seq<(nat, Act)>, es: set<nat>) {
    forall i :: 0 <= i < |run| && run[i].1.CallEnqueue? ==> run[i].0 in es
  }

  /** One whole enqueue by thread t. */
  function WholeEnqueue(t: nat, node: nat): (r: seq<(nat, Act)>) { LinkUp(t, node) + [(t, Go)] }

  lemma EnqueueRuns(s: State, threads: set<nat>, t: nat, mSize: nat, k: nat)
    requires Quiet(s, threads, mSize, k) && k != mSize && t in threads
    ensures Possible(s, WholeEnqueue(t, k + 1)) && Quiet(Run(s, WholeEnqueue(t, k + 1)), threads, mSize, k + 1)
  {
    hide Ready, Step, Enabled, LinkUp, Possible, Run;
    LinkUpRuns(s, t, k + 1);
    AppendedIsReady(s.q, k + 1);
    var s' := AfterLinkUp(s, t, k + 1);
    AddRuns(s', t, k + 2);
    RunsCompose(s, LinkUp(t, k + 1), [(t, Go)]);
  }

  /** m more whole enqueues by thread t, as long as the size does not meet the bound on the way. */
  lemma {:induction false} FillMore(s: State, threads: set<nat>, t: nat, mSize: nat, k: nat, m: nat)
    returns (run: seq<(nat, Act)>)
    requires Quiet(s, threads, mSize, k) && t in threads && (mSize < k || k + m <= mSize)
    ensures Possible(s, run) && Quiet(Run(s, run), threads, mSize, k + m) && EnqueuedBy(run, {t})
    decreases m
  {
    if m == 0 {
      run := [];
    } else {
      var first := WholeEnqueue(t, k + 1);
      assert EnqueuedBy(first, {t});
      hide Quiet, WholeEnqueue;
      EnqueueRuns(s, threads, t, mSize, k);
      var rest := FillMore(Run(s, first), threads, t, mSize, k + 1, m - 1);
      RunsCompose(s, first, rest);
      run := first + rest;
    }
  }

  lemma AddRuns(s: State, t: nat, free: nat)
    requires Ready(s.q, free) && t in s.pcs && s.pcs[t] == AddSize
    ensures Possible(s, [(t, Go)])
    ensures Run(s, [(t, Go)]) == State(s.q.(size := s.q.size + 1), s.pcs[t := Idle])
    ensures Ready(Run(s, [(t, Go)]).q, free)
  {
    var r: seq<(nat, Act)> := [(t, Go)];
    assert Possible(Step(s, t, Go), r[1..]);
    UnrollOne(s, r);
    SameShape(s.q, s.q.(size := s.q.size + 1));
  }

  /** Both threads link a node each before either of them adds to the size. */
  function PastTheBound(t: nat, u: nat, k: nat): (run: seq<(nat, Act)>) {
    LinkUp(t, k + 1) + LinkUp(u, k + 2) + [(t, Go)] + [(u, Go)]
  }

  lemma BothLinkUp(s: State, threads: set<nat>, t: nat, u: nat, mSize: nat, k: nat)
    requires Quiet(s, threads, mSize, k) && k + 1 == mSize && t in threads && u in threads && t != u
    ensures Possible(s, PastTheBound(t, u, k)) && Quiet(Run(s, PastTheBound(t, u, k)), threads, mSize, k + 2)
  {
    hide Ready, Step, Enabled, LinkUp, Possible, Run;
    LinkUpRuns(s, t, k + 1);
    AppendedIsReady(s.q, k + 1);
    var s1 := AfterLinkUp(s, t, k + 1);
    LinkUpRuns(s1, u, k + 2);
    AppendedIsReady(s1.q, k + 2);
    var s2 := AfterLinkUp(s1, u, k + 2);
    AddRuns(s2, t, k + 3);
    AddRuns(Run(s2, [(t, Go)]), u, k + 3);
    RunsCompose(s, LinkUp(t, k + 1), LinkUp(u, k + 2));
    RunsCompose(s, LinkUp(t, k + 1) + LinkUp(u, k + 2), [(t, Go)]);
    RunsCompose(s, LinkUp(t, k + 1) + LinkUp(u, k + 2) + [(t, Go)], [(u, Go)]);
  }

  /**
   For every positive bound and every n, any two enqueuers have a run that leaves more than n nodes beyond the
   bound: the size test is for equality, so once both have passed it at mSize - 1 it never refuses again.
   */
  lemma TwoEnqueuersOverrun(mSize: nat, threads: set<nat>, t: nat, u: nat, n: nat) returns (run: seq<(nat, Act)>)
    requires mSize > 0 && t in threads && u in threads && t != u
    ensures Possible(Initial(mSize, threads), run) && EnqueuedBy(run, {t, u})
    ensures Present(Run(Initial(mSize, threads), run)) > mSize + n
  {
    var start := Initial(mSize, threads);
    assert Quiet(start, threads, mSize, 0);
    var past := PastTheBound(t, u, mSize - 1);
    assert EnqueuedBy(past, {t, u});
    hide Initial, Quiet, PastTheBound;
    var before := FillMore(start, threads, t, mSize, 0, mSize - 1);
    var s := Run(start, before);
    BothLinkUp(s, threads, t, u, mSize, mSize - 1);
    RunsCompose(start, before, past);
    var after := FillMore(Run(s, past), threads, t, mSize, mSize + 1, n);
    RunsCompose(start, before + past, after);
    run := before + past + after;
    QuietPresent(Run(start, run), threads, mSize, mSize + 1 + n);
  }

  lemma QuietPresent(s: State, threads: set<nat>, mSize: nat, k: nat)
    requires Quiet(s, threads, mSize, k)
    ensures Present(s) == k
  {
  }

  // ---------- Bound 0

  /** Nothing was ever linked: every thread is between the start of its operation and the test that ends it. */
  ghost predicate Shut(s: State) {
    && Inv(s) && |s.q.chain| == 1 && s.q.size == 0 == s.q.mSize
    && forall t :: t in s.pcs ==>
         s.pcs[t].Idle? || s.pcs[t].ReadTail? || s.pcs[t].TestSize? || s.pcs[t].ReadHead? || s.pcs[t].TestNext?
  }

  lemma StepKeepsShut(s: State, t: nat, a: Act)
    requires Shut(s) && Enabled(s, t, a)
    ensures Shut(Step(s, t, a))
  {
    StepKeepsInv(s, t, a);
    assert PcOk(s.q, s.pcs[t]);
    NextInChain(s.q, 0);
    hide Inv, ChainOk, PrivateOk, LagExplained;
  }

  lemma {:induction false} RunKeepsShut(s: State, run: seq<(nat, Act)>)
    requires Shut(s) && Possible(s, run)
    ensures Shut(Run(s, run))
    decreases |run|
  {
    hide Shut, Step, Enabled;
    if run != [] {
      StepKeepsShut(s, run[0].0, run[0].1);
      RunKeepsShut(Step(s, run[0].0, run[0].1), run[1..]);
    }
  }

  // ---------- When the bound holds

  /** In no run in which only the given threads enqueue are more than mSize nodes present. */
  ghost predicate AlwaysBounded(mSize: nat, threads: set<nat>, es: set<nat>) {
    forall run :: Possible(Initial(mSize, threads), run) && EnqueuedBy(run, es) ==>
      Present(Run(Initial(mSize, threads), run)) <= mSize
  }

  lemma ZeroIsBounded(threads: set<nat>, run: seq<(nat, Act)>)
    requires Possible(Initial(0, threads), run)
    ensures Present(Run(Initial(0, threads), run)) <= 0
  {
    InitialInv(0, threads);
    RunKeepsShut(Initial(0, threads), run);
  }

  lemma OneIsBounded(mSize: nat, threads: set<nat>, es: set<nat>, run: seq<(nat, Act)>)
    requires |es| <= 1 && Possible(Initial(mSize, threads), run) && EnqueuedBy(run, es)
    ensures Present(Run(Initial(mSize, threads), run)) <= mSize
  {
    var e := if es == {} then 0 else var x :| x in es; x;
    assert es <= {e} by {
      forall x | x in es
        ensures x == e
      {
        if x != e { assert |{e, x}| == 2 && {e, x} <= es; SubsetIsSmaller({e, x}, es); }
      }
    }
    SingleEnqueuerIsBounded(mSize, threads, e, run);
  }

  lemma SubsetIsSmaller(a: set<nat>, b: set<nat>)
    requires a <= b
    ensures |a| <= |b|
  {
    assert b == a + (b - a);
  }

  /** The bound holds in every run exactly when it is 0 or at most one thread enqueues. */
  lemma BoundHoldsIff(mSize: nat, threads: set<nat>, es: set<nat>)
    requires es <= threads
    ensures AlwaysBounded(mSize, threads, es) <==> mSize == 0 || |es| <= 1
  {
    if mSize == 0 || |es| <= 1 {
      forall run | Possible(Initial(mSize, threads), run) && EnqueuedBy(run, es)
        ensures Present(Run(Initial(mSize, threads), run)) <= mSize
      {
        if mSize == 0 { ZeroIsBounded(threads, run); } else { OneIsBounded(mSize, threads, es, run); }
      }
    } else {
      var t :| t in es;
      assert |es - {t}| == |es| - 1;
      var u :| u in es - {t};
      var run := TwoEnqueuersOverrun(mSize, threads, t, u, 0);
      assert EnqueuedBy(run, es);
    }
  }
}
