/** The lock-free queue never spins: each retry of an operation is due to a node that another thread linked or took. */
module LockFreeProgress {
  import opened Common
  import opened LockFreeQueue
  import opened LockFreeResults

  /** The steps that a failed round costs at most. */
  const ROUND: nat := 5

  /**
   At most so many instructions are left of a thread's operation, if no more than n nodes are ever linked: those of
   the round it is in, and one round for every node beyond the position from which it starts.
   */
  function StepsLeft(q: Queue, pc: Pc, n: nat): (r: int) {
    match pc
    case Idle => 0
    case ReadTail(_) => 5 + ROUND * (n - q.tailAt)
    case TestSize(_, _, at) => 4 + ROUND * (n - at)
    case Link(_, _, at) => 3 + ROUND * (n - at)
    case ReadHelp(_, _, at) => 2 + ROUND * (n - at)
    case Help(_, _, _, at) => 1 + ROUND * (n - at)
    case SwingTail(_, _, _) => 2
    case AddSize => 1
    case ReadHead => 7 + ROUND * (n - q.headAt)
    case TestNext(_, at) => 6 + ROUND * (n - at)
    case ReadNext(_, at) => 5 + ROUND * (n - at)
    case SwingHead(_, _, at) => 4 + ROUND * (n - at)
    case ReadVal(_, _) => 3
    case FreeNode(_, _, _) => 2
    case SubSize(_, _) => 1
  }

  lemma StepsLeftBounds(s: State, t: nat, n: nat)
    requires Inv(s) && t in s.pcs && |s.q.chain| <= n
    ensures 0 <= StepsLeft(s.q, s.pcs[t], n) <= 7 + ROUND * n
    ensures StepsLeft(s.q, s.pcs[t], n) == 0 <==> s.pcs[t].Idle?
  {
    ThreadOk(s, t);
    hide ChainOk, PrivateOk, ThreadsOk, LagExplained;
  }

  /** A compare-and-swap fails, or is retried, only because another thread has moved the end meanwhile. */
  lemma RetryMeansProgress(s: State, t: nat)
    requires Inv(s) && t in s.pcs
    ensures var pc := s.pcs[t];
      var (q', pc') := Execute(s.q, pc);
      && (pc.SwingHead? && pc'.ReadHead? ==> pc.at < s.q.headAt)
      && (pc.Link? && pc'.ReadHelp? ==> pc.at + 1 < |s.q.chain|)
      && (pc.Help? && pc'.ReadTail? ==> pc.at < q'.tailAt)
  {
    ThreadOk(s, t);
    var pc := s.pcs[t];
    if pc.Link? { NextInChain(s.q, pc.at); }
    hide ChainOk, PrivateOk, ThreadsOk, LagExplained;
  }

  /** An instruction brings its own operation nearer to its end. */
  lemma OwnStep(s: State, t: nat, n: nat)
    requires Inv(s) && t in s.pcs && !s.pcs[t].Idle? && |s.q.chain| <= n
    ensures var (q', pc') := Execute(s.q, s.pcs[t]); StepsLeft(q', pc', n) < StepsLeft(s.q, s.pcs[t], n)
  {
    RetryMeansProgress(s, t);
    StepsLeftBounds(s, t, n);
    hide Inv, Links, Linked;
  }

  /** A step of another thread takes none away. */
  lemma OtherStep(s: State, t: nat, a: Act, u: nat, n: nat)
    requires Inv(s) && Enabled(s, t, a) && u in s.pcs && u != t
    ensures var s' := Step(s, t, a);
      u in s'.pcs && s'.pcs[u] == s.pcs[u] && StepsLeft(s'.q, s'.pcs[u], n) <= StepsLeft(s.q, s.pcs[u], n)
  {
    EndsMoveByOne(s, t, a);
    hide Inv, Execute;
  }

  /** Number of instructions of thread t in a run. */
  function Instructions(run: seq<(nat, Act)>, t: nat): (r: nat) {
    if run == [] then 0 else One(run[0] == (t, Go)) + Instructions(run[1..], t)
  }

  /** Thread t is idle at some moment of the run. */
  ghost predicate Rests(s: State, run: seq<(nat, Act)>, t: nat)
    requires Possible(s, run)
    decreases |run|
  {
    t !in s.pcs || s.pcs[t].Idle? || (run != [] && Rests(Step(s, run[0].0, run[0].1), run[1..], t))
  }

  lemma {:induction false} ChainGrows(s: State, run: seq<(nat, Act)>)
    requires Inv(s) && Possible(s, run)
    ensures |s.q.chain| <= |Run(s, run).q.chain|
    decreases |run|
  {
    hide Inv, Step, Enabled;
    if run != [] {
      StepKeepsInv(s, run[0].0, run[0].1);
      EndsMoveByOne(s, run[0].0, run[0].1);
      ChainGrows(Step(s, run[0].0, run[0].1), run[1..]);
    }
  }

  lemma {:induction false} RestsInTime(s: State, run: seq<(nat, Act)>, t: nat, n: nat)
    requires Inv(s) && Possible(s, run) && t in s.pcs && |Run(s, run).q.chain| <= n
    requires StepsLeft(s.q, s.pcs[t], n) <= Instructions(run, t)
    ensures Rests(s, run, t)
    decreases |run|
  {
    ChainGrows(s, run);
    StepsLeftBounds(s, t, n);
    hide Inv, StepsLeft;
    if !s.pcs[t].Idle? {
      var (u, a) := run[0];
      var s' := Step(s, u, a);
      StepKeepsInv(s, u, a);
      if u == t { OwnStep(s, t, n); } else { OtherStep(s, u, a, t, n); }
      RestsInTime(s', run[1..], t, n);
    }
  }

  /**
   Among any number of threads: a thread ends the operation it is in within a bounded number of its own instructions,
   seven and one round for each node linked by the end of the run, whatever the others do or leave undone.
   */
  lemma EveryOperationEnds(s: State, run: seq<(nat, Act)>, t: nat)
    requires Inv(s) && Possible(s, run) && t in s.pcs
    requires 7 + ROUND * |Run(s, run).q.chain| <= Instructions(run, t)
    ensures Rests(s, run, t)
  {
    ChainGrows(s, run);
    StepsLeftBounds(s, t, |Run(s, run).q.chain|);
    RestsInTime(s, run, t, |Run(s, run).q.chain|);
    hide Inv;
  }
}
