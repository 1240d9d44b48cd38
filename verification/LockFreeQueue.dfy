/**
 The lock-free queue as atomic steps of any number of threads. A node that was freed stays readable and its
 address is not handed out again. Fields that no instruction reads (chain, positions, results) record history.
 */
module LockFreeQueue {
  import opened Common

  datatype Node = Node(val: int, next: Option<nat>)

  /**
   Where a thread is. In an enqueue: about to read the tail, to test the size, to link, to read the
   successor it will help with, to help, to swing the tail, to add to the size. In a dequeue: about to read
   the head, to test its successor, to read it again, to swing the head, to read the value, to free, to
   subtract. "at" is the position in the chain of the node last read.
   */
  datatype Pc =
    | Idle
    | ReadTail(node: nat)
    | TestSize(node: nat, n: nat, at: nat)
    | Link(node: nat, n: nat, at: nat)
    | ReadHelp(node: nat, n: nat, at: nat)
    | Help(node: nat, n: nat, x: nat, at: nat)
    | SwingTail(node: nat, n: nat, at: nat)
    | AddSize
    | ReadHead
    | TestNext(n: nat, at: nat)
    | ReadNext(n: nat, at: nat)
    | SwingHead(n: nat, x: nat, at: nat)
    | ReadVal(n: nat, at: nat)
    | FreeNode(n: nat, v: int, at: nat)
    | SubSize(v: int, at: nat)

  /** What all threads share. */
  datatype Queue = Queue(
    heap: map<nat, Node>, head: nat, tail: nat, size: int, mSize: int,
    chain: seq<nat>, headAt: nat, tailAt: nat, results: map<nat, int>)

  datatype State = State(q: Queue, pcs: map<nat, Pc>)

  /** What a thread does next: call one of the operations when idle, or execute its next instruction. */
  datatype Act = CallEnqueue(val: int, node: nat) | CallDequeue | Go

  function Initial(mSize: int, threads: set<nat>): (r: State) {
    State(Queue(map[0 := Node(0, None)], 0, 0, 0, mSize, [0], 0, 0, map[]), map t | t in threads :: Idle)
  }

  /** malloc returns an address never used before; calls come from idle threads. */
  predicate Enabled(s: State, t: nat, a: Act) {
    t in s.pcs &&
    match a
    case CallEnqueue(_, node) => s.pcs[t].Idle? && node !in s.q.heap
    case CallDequeue => s.pcs[t].Idle?
    case Go => !s.pcs[t].Idle?
  }

  function Next(q: Queue, n: nat): (r: Option<nat>) {
    if n in q.heap then q.heap[n].next else None
  }

  function Val(q: Queue, n: nat): (r: int) {
    if n in q.heap then q.heap[n].val else 0
  }

  /** A reference read from memory; never null where the code dereferences it. */
  function Ref(o: Option<nat>): (r: nat) { if o.Some? then o.value else 0 }

  /** One instruction of a thread: what it does to the queue, and where the thread is then. */
  function Execute(q: Queue, pc: Pc): (r: (Queue, Pc)) {
    match pc
    case Idle => (q, Idle)
    case ReadTail(node) => (q, TestSize(node, q.tail, q.tailAt))
    case TestSize(node, n, at) => (q, if q.size == q.mSize then Idle else Link(node, n, at))
    case Link(node, n, at) => if Links(q, pc) then (Linked(q, node, n), SwingTail(node, n, at)) else (q, ReadHelp(node, n, at))
    case ReadHelp(node, n, at) => (q, Help(node, n, Ref(Next(q, n)), at))
    case Help(node, n, x, _) => (TailSwung(q, n, x), ReadTail(node))
    case SwingTail(node, n, _) => (TailSwung(q, n, node), AddSize)
    case AddSize => (q.(size := q.size + 1), Idle)
    case ReadHead => (q, TestNext(q.head, q.headAt))
    case TestNext(n, at) => (q, if Next(q, n).None? then Idle else ReadNext(n, at))
    case ReadNext(n, at) => (q, SwingHead(n, Ref(Next(q, n)), at))
    case SwingHead(n, x, at) =>
      if q.head == n then (q.(head := x, headAt := q.headAt + 1), ReadVal(n, at)) else (q, ReadHead)
    case ReadVal(n, at) => (q, FreeNode(n, Val(q, Ref(Next(q, n))), at))
    case FreeNode(n, v, at) => (q, SubSize(v, at))
    case SubSize(v, at) => (q.(size := q.size - 1, results := q.results[at := v]), Idle)
  }

  /** The compare-and-swap on a null successor succeeds. */
  predicate Links(q: Queue, pc: Pc) {
    pc.Link? && pc.n in q.heap && q.heap[pc.n].next.None?
  }

  function Linked(q: Queue, node: nat, n: nat): (r: Queue)
    requires n in q.heap
  {
    q.(heap := q.heap[n := q.heap[n].(next := Some(node))], chain := q.chain + [node])
  }

  /** The compare-and-swap of the tail from n to x. */
  function TailSwung(q: Queue, n: nat, x: nat): (r: Queue) {
    if q.tail == n then q.(tail := x, tailAt := q.tailAt + 1) else q
  }

  /** One atomic step of thread t. */
  function Step(s: State, t: nat, a: Act): (r: State)
    requires Enabled(s, t, a)
  {
    match a
    case CallEnqueue(v, node) => State(s.q.(heap := s.q.heap[node := Node(v, None)]), s.pcs[t := ReadTail(node)])
    case CallDequeue => State(s.q, s.pcs[t := ReadHead])
    case Go => var (q, pc) := Execute(s.q, s.pcs[t]); State(q, s.pcs[t := pc])
  }

  // ---------- Invariant

  /** The node linked after the i-th one. */
  function Successor(chain: seq<nat>, i: nat): (r: Option<nat>)
    requires i < |chain|
  {
    if i + 1 < |chain| then Some(chain[i + 1]) else None
  }

  /** The linked nodes form one chain without repetition, ending in null. */
  ghost predicate ChainOk(q: Queue) {
    && 0 < |q.chain|
    && (forall i :: 0 <= i < |q.chain| ==> q.chain[i] in q.heap)
    && (forall i, j :: 0 <= i < j < |q.chain| ==> q.chain[i] != q.chain[j])
    && (forall i {:trigger Successor(q.chain, i)} :: 0 <= i < |q.chain| ==> q.heap[q.chain[i]].next == Successor(q.chain, i))
  }

  /** The tail lags by at most one node. */
  ghost predicate EndsOk(q: Queue) {
    && q.headAt < |q.chain| && q.head == q.chain[q.headAt]
    && q.tailAt < |q.chain| <= q.tailAt + 2 && q.tail == q.chain[q.tailAt]
  }

  /** The node a thread is enqueuing, while it is still private. */
  function Private(pc: Pc): (r: Option<nat>) {
    match pc
    case ReadTail(node) => Some(node)
    case TestSize(node, _, _) => Some(node)
    case Link(node, _, _) => Some(node)
    case ReadHelp(node, _, _) => Some(node)
    case Help(node, _, _, _) => Some(node)
    case _ => None
  }

  /** What a thread remembers is in the chain, where it says, and no further than the ends have come. */
  ghost predicate PcOk(q: Queue, pc: Pc) {
    match pc
    case TestSize(_, n, at) => at <= q.tailAt && at < |q.chain| && q.chain[at] == n
    case Link(_, n, at) => at <= q.tailAt && at < |q.chain| && q.chain[at] == n
    case ReadHelp(_, n, at) => at + 1 < |q.chain| && q.chain[at] == n
    case Help(_, n, x, at) => at + 1 < |q.chain| && q.chain[at] == n && q.chain[at + 1] == x
    case SwingTail(node, n, at) => at + 1 < |q.chain| && q.chain[at] == n && q.chain[at + 1] == node
    case TestNext(n, at) => at <= q.headAt && at < |q.chain| && q.chain[at] == n
    case ReadNext(n, at) => at <= q.headAt && at + 1 < |q.chain| && q.chain[at] == n
    case SwingHead(n, x, at) => at <= q.headAt && at + 1 < |q.chain| && q.chain[at] == n && q.chain[at + 1] == x
    case ReadVal(n, at) => at < q.headAt && at + 1 < |q.chain| && q.chain[at] == n
    case FreeNode(n, v, at) => at < q.headAt && at + 1 < |q.chain| && v == Val(q, q.chain[at + 1])
    case SubSize(v, at) => at < q.headAt && at + 1 < |q.chain| && v == Val(q, q.chain[at + 1])
    case _ => true
  }

  ghost predicate PrivateOk(s: State) {
    && (forall t :: t in s.pcs && Private(s.pcs[t]).Some? ==>
         var node := Private(s.pcs[t]).value;
         node in s.q.heap && s.q.heap[node].next.None? && node !in s.q.chain)
    && (forall t, u :: t in s.pcs && u in s.pcs && t != u && Private(s.pcs[t]).Some? ==>
         Private(s.pcs[t]) != Private(s.pcs[u]))
  }

  ghost predicate ThreadsOk(s: State) {
    forall t :: t in s.pcs ==> PcOk(s.q, s.pcs[t])
  }

  /** While the tail lags, the enqueuer that linked the last node has yet to swing it. */
  ghost predicate LagExplained(s: State) {
    s.q.tailAt + 2 == |s.q.chain| ==> exists t :: t in s.pcs && s.pcs[t].SwingTail? && s.pcs[t].at == s.q.tailAt
  }

  ghost predicate Inv(s: State) {
    ChainOk(s.q) && EndsOk(s.q) && PrivateOk(s) && ThreadsOk(s) && LagExplained(s)
  }

  lemma InitialInv(mSize: int, threads: set<nat>)
    ensures Inv(Initial(mSize, threads))
  {
  }

  lemma ThreadOk(s: State, t: nat)
    requires ThreadsOk(s) && t in s.pcs
    ensures PcOk(s.q, s.pcs[t])
  {
  }

  /** A read of a chained node's successor field. */
  lemma NextInChain(q: Queue, at: nat)
    requires ChainOk(q) && at < |q.chain|
    ensures Next(q, q.chain[at]) == Successor(q.chain, at)
  {
  }

  lemma SameNode(q: Queue, i: nat, j: nat)
    requires ChainOk(q) && i < |q.chain| && j < |q.chain| && q.chain[i] == q.chain[j]
    ensures i == j
  {
  }

  // ---------- One instruction, seen by the queue alone

  /** Values of linked nodes stay, and chain and ends only move on. */
  ghost predicate Extends(q: Queue, q': Queue) {
    && q.chain <= q'.chain && q.headAt <= q'.headAt <= q.headAt + 1 && q.tailAt <= q'.tailAt <= q.tailAt + 1
    && forall i :: 0 <= i < |q.chain| ==> Val(q', q.chain[i]) == Val(q, q.chain[i])
  }

  /** Nothing that a thread remembers is spoilt. */
  lemma PcStaysOk(q: Queue, q': Queue, pc: Pc)
    requires PcOk(q, pc) && Extends(q, q')
    ensures PcOk(q', pc)
  {
  }

  /** Chain and memory stay, each end moves by at most one, and the thread remembers what is true. */
  ghost predicate Moved(q: Queue, r: (Queue, Pc)) {
    r.0.chain == q.chain && r.0.heap == q.heap && EndsOk(r.0) && Extends(q, r.0) && PcOk(r.0, r.1)
  }

  lemma ExtendsSelf(q: Queue)
    ensures Extends(q, q)
  {
  }

  lemma TestSizeMoves(q: Queue, node: nat, n: nat, at: nat)
    requires ChainOk(q) && EndsOk(q) && PcOk(q, TestSize(node, n, at))
    ensures Moved(q, Execute(q, TestSize(node, n, at)))
  {
    ExtendsSelf(q);
    hide ChainOk, EndsOk, Extends;
  }

  lemma FailedLinkMoves(q: Queue, node: nat, n: nat, at: nat)
    requires ChainOk(q) && EndsOk(q) && PcOk(q, Link(node, n, at)) && !Links(q, Link(node, n, at))
    ensures Moved(q, Execute(q, Link(node, n, at)))
  {
    NextInChain(q, at);
    assert Execute(q, Link(node, n, at)) == (q, ReadHelp(node, n, at));
    ExtendsSelf(q);
    hide ChainOk, EndsOk, Extends;
  }

  lemma ReadHelpMoves(q: Queue, node: nat, n: nat, at: nat)
    requires ChainOk(q) && EndsOk(q) && PcOk(q, ReadHelp(node, n, at))
    ensures Moved(q, Execute(q, ReadHelp(node, n, at)))
  {
    NextInChain(q, at);
    assert Execute(q, ReadHelp(node, n, at)) == (q, Help(node, n, q.chain[at + 1], at));
    ExtendsSelf(q);
    hide ChainOk, EndsOk, Extends;
  }

  lemma HelpMoves(q: Queue, node: nat, n: nat, x: nat, at: nat)
    requires ChainOk(q) && EndsOk(q) && PcOk(q, Help(node, n, x, at))
    ensures Moved(q, Execute(q, Help(node, n, x, at)))
  {
    if q.tail == n { SameNode(q, at, q.tailAt); }
    hide ChainOk;
  }

  lemma SwingTailMoves(q: Queue, node: nat, n: nat, at: nat)
    requires ChainOk(q) && EndsOk(q) && PcOk(q, SwingTail(node, n, at))
    ensures Moved(q, Execute(q, SwingTail(node, n, at)))
  {
    if q.tail == n { SameNode(q, at, q.tailAt); }
    hide ChainOk;
  }

  lemma TestNextMoves(q: Queue, n: nat, at: nat)
    requires ChainOk(q) && EndsOk(q) && PcOk(q, TestNext(n, at))
    ensures Moved(q, Execute(q, TestNext(n, at)))
  {
    NextInChain(q, at);
    ExtendsSelf(q);
    hide ChainOk, EndsOk, Extends;
  }

  lemma ReadNextMoves(q: Queue, n: nat, at: nat)
    requires ChainOk(q) && EndsOk(q) && PcOk(q, ReadNext(n, at))
    ensures Moved(q, Execute(q, ReadNext(n, at)))
  {
    NextInChain(q, at);
    assert Execute(q, ReadNext(n, at)) == (q, SwingHead(n, q.chain[at + 1], at));
    ExtendsSelf(q);
    hide ChainOk, EndsOk, Extends;
  }

  lemma SwingHeadMoves(q: Queue, n: nat, x: nat, at: nat)
    requires ChainOk(q) && EndsOk(q) && PcOk(q, SwingHead(n, x, at))
    ensures Moved(q, Execute(q, SwingHead(n, x, at)))
  {
    if q.head == n { SameNode(q, at, q.headAt); }
    hide ChainOk;
  }

  lemma ReadValMoves(q: Queue, n: nat, at: nat)
    requires ChainOk(q) && EndsOk(q) && PcOk(q, ReadVal(n, at))
    ensures Moved(q, Execute(q, ReadVal(n, at)))
  {
    NextInChain(q, at);
    assert Execute(q, ReadVal(n, at)) == (q, FreeNode(n, Val(q, q.chain[at + 1]), at));
    ExtendsSelf(q);
    hide ChainOk, EndsOk, Extends;
  }

  lemma PlainMoves(q: Queue, pc: Pc)
    requires EndsOk(q) && PcOk(q, pc)
    requires pc.Idle? || pc.ReadTail? || pc.AddSize? || pc.ReadHead? || pc.FreeNode? || pc.SubSize?
    ensures Moved(q, Execute(q, pc))
  {
  }

  /** An instruction that does not link: either end moves to the node it names, and reads tell the truth. */
  lemma OtherInstruction(q: Queue, pc: Pc)
    requires ChainOk(q) && EndsOk(q) && PcOk(q, pc) && !Links(q, pc)
    ensures Moved(q, Execute(q, pc))
  {
    hide ChainOk, EndsOk, PcOk, Execute, Moved, Links;
    match pc
    case TestSize(node, n, at) => TestSizeMoves(q, node, n, at);
    case Link(node, n, at) => FailedLinkMoves(q, node, n, at);
    case ReadHelp(node, n, at) => ReadHelpMoves(q, node, n, at);
    case Help(node, n, x, at) => HelpMoves(q, node, n, x, at);
    case SwingTail(node, n, at) => SwingTailMoves(q, node, n, at);
    case TestNext(n, at) => TestNextMoves(q, n, at);
    case ReadNext(n, at) => ReadNextMoves(q, n, at);
    case SwingHead(n, x, at) => SwingHeadMoves(q, n, x, at);
    case ReadVal(n, at) => ReadValMoves(q, n, at);
    case _ => PlainMoves(q, pc);
  }

  /** A node stays private to its thread or stops being private. */
  lemma PrivacyEnds(q: Queue, pc: Pc)
    ensures var after := Private(Execute(q, pc).1); after == Private(pc) || after.None?
  {
  }

  /** The swing of a lagging tail succeeds. */
  lemma SwingOfLaggingTail(q: Queue, pc: Pc)
    requires EndsOk(q) && PcOk(q, pc) && pc.SwingTail? && pc.at == q.tailAt
    ensures Execute(q, pc).0.tailAt == q.tailAt + 1
  {
  }

  // ---------- A successful link

  /** A successful link appends at the true end, wherever the head may be, and the tail did not lag before. */
  lemma LinkIsAtEnd(s: State, t: nat)
    requires Inv(s) && t in s.pcs && Links(s.q, s.pcs[t])
    ensures s.pcs[t].n == s.q.chain[|s.q.chain| - 1] && s.q.tailAt + 1 == |s.q.chain|
    ensures s.pcs[t].at == s.q.tailAt && s.pcs[t].node !in s.q.chain
  {
    ThreadOk(s, t);
    NextInChain(s.q, s.pcs[t].at);
    assert Private(s.pcs[t]).Some?;
  }

  lemma LinkedSuccessors(q: Queue, node: nat, i: nat)
    requires ChainOk(q) && q.tail in q.heap && q.tail == q.chain[|q.chain| - 1] && i <= |q.chain|
    requires node in q.heap && q.heap[node].next.None? && node !in q.chain
    ensures var q' := Linked(q, node, q.tail);
      i < |q'.chain| && q'.chain[i] in q'.heap && q'.heap[q'.chain[i]].next == Successor(q'.chain, i)
  {
    if i < |q.chain| {
      NextInChain(q, i);
      assert q.chain[i] in q.heap;
      if q.chain[i] == q.tail { SameNode(q, i, |q.chain| - 1); }
    }
    hide ChainOk;
  }

  lemma LinkedChain(q: Queue, node: nat)
    requires ChainOk(q) && EndsOk(q) && q.tailAt + 1 == |q.chain|
    requires node in q.heap && q.heap[node].next.None? && node !in q.chain
    ensures q.tail in q.heap && ChainOk(Linked(q, node, q.tail)) && EndsOk(Linked(q, node, q.tail))
    ensures Extends(q, Linked(q, node, q.tail))
  {
    assert q.chain[q.tailAt] in q.heap;
    var q' := Linked(q, node, q.tail);
    assert forall i, j :: 0 <= i < j < |q'.chain| ==> q'.chain[i] != q'.chain[j];
    forall i | 0 <= i < |q'.chain|
      ensures q'.chain[i] in q'.heap && q'.heap[q'.chain[i]].next == Successor(q'.chain, i)
    {
      LinkedSuccessors(q, node, i);
    }
  }

  lemma LinkKeepsInv(s: State, t: nat)
    requires Inv(s) && t in s.pcs && Links(s.q, s.pcs[t])
    ensures Inv(Step(s, t, Go))
  {
    LinkIsAtEnd(s, t);
    assert Private(s.pcs[t]) == Some(s.pcs[t].node);
    LinkedChain(s.q, s.pcs[t].node);
    LinkKeepsThreads(s, t);
    LinkKeepsPrivate(s, t);
    hide ChainOk, EndsOk, PrivateOk, ThreadsOk;
    var s' := Step(s, t, Go);
    assert s'.pcs[t].SwingTail? && s'.pcs[t].at == s'.q.tailAt;
  }

  lemma LinkKeepsThreads(s: State, t: nat)
    requires Inv(s) && t in s.pcs && Links(s.q, s.pcs[t])
    ensures ThreadsOk(Step(s, t, Go))
  {
    LinkIsAtEnd(s, t);
    assert Private(s.pcs[t]) == Some(s.pcs[t].node);
    LinkedChain(s.q, s.pcs[t].node);
    hide ChainOk, EndsOk, PrivateOk, LagExplained, Extends;
    var s' := Step(s, t, Go);
    forall u | u in s'.pcs
      ensures PcOk(s'.q, s'.pcs[u])
    {
      if u != t {
        ThreadOk(s, u);
        PcStaysOk(s.q, s'.q, s.pcs[u]);
      }
    }
  }

  lemma LinkKeepsPrivate(s: State, t: nat)
    requires Inv(s) && t in s.pcs && Links(s.q, s.pcs[t])
    ensures PrivateOk(Step(s, t, Go))
  {
    LinkIsAtEnd(s, t);
    assert Private(s.pcs[t]) == Some(s.pcs[t].node);
    assert s.pcs[t].n in s.q.chain;
    hide ChainOk, EndsOk, ThreadsOk, LagExplained;
  }

  // ---------- All other steps

  lemma SameChain(q: Queue, q': Queue)
    requires ChainOk(q) && q'.chain == q.chain
    requires forall n :: n in q.heap ==> n in q'.heap && q'.heap[n] == q.heap[n]
    ensures ChainOk(q')
  {
    forall i | 0 <= i < |q'.chain|
      ensures q'.chain[i] in q'.heap && q'.heap[q'.chain[i]].next == Successor(q'.chain, i)
    {
      NextInChain(q, i);
    }
  }

  lemma OthersKeepThreads(s: State, t: nat)
    requires Inv(s) && Enabled(s, t, Go) && !Links(s.q, s.pcs[t])
    ensures ThreadsOk(Step(s, t, Go))
  {
    ThreadOk(s, t);
    OtherInstruction(s.q, s.pcs[t]);
    hide ChainOk, EndsOk, PrivateOk, LagExplained, Extends, PcOk, Execute;
    var s' := Step(s, t, Go);
    forall u | u in s'.pcs
      ensures PcOk(s'.q, s'.pcs[u])
    {
      if u != t {
        ThreadOk(s, u);
        PcStaysOk(s.q, s'.q, s.pcs[u]);
      }
    }
  }

  lemma OthersKeepPrivate(s: State, t: nat)
    requires Inv(s) && Enabled(s, t, Go) && !Links(s.q, s.pcs[t])
    ensures PrivateOk(Step(s, t, Go))
  {
    ThreadOk(s, t);
    OtherInstruction(s.q, s.pcs[t]);
    PrivacyEnds(s.q, s.pcs[t]);
    hide ChainOk, EndsOk, ThreadsOk, LagExplained, Extends, PcOk, Execute, Private;
  }

  /** A lagging tail is only ever swung forward, so the pending swing stays pending until it succeeds. */
  lemma OthersKeepLag(s: State, t: nat)
    requires Inv(s) && Enabled(s, t, Go) && !Links(s.q, s.pcs[t])
    ensures LagExplained(Step(s, t, Go))
  {
    ThreadOk(s, t);
    OtherInstruction(s.q, s.pcs[t]);
    if s.pcs[t].SwingTail? && s.pcs[t].at == s.q.tailAt { SwingOfLaggingTail(s.q, s.pcs[t]); }
    hide ChainOk, PrivateOk, ThreadsOk, PcOk, Execute;
    var s' := Step(s, t, Go);
    if s'.q.tailAt + 2 == |s'.q.chain| {
      var u :| u in s.pcs && s.pcs[u].SwingTail? && s.pcs[u].at == s.q.tailAt;
      assert s'.pcs[u] == s.pcs[u];
    }
  }

  lemma OthersKeepInv(s: State, t: nat)
    requires Inv(s) && Enabled(s, t, Go) && !Links(s.q, s.pcs[t])
    ensures Inv(Step(s, t, Go))
  {
    ThreadOk(s, t);
    OtherInstruction(s.q, s.pcs[t]);
    OthersKeepThreads(s, t);
    OthersKeepPrivate(s, t);
    OthersKeepLag(s, t);
    hide EndsOk, PrivateOk, ThreadsOk, LagExplained, Extends, PcOk, Execute, ChainOk;
    SameChain(s.q, Step(s, t, Go).q);
  }

  lemma CallKeepsThreads(s: State, t: nat, a: Act)
    requires Inv(s) && Enabled(s, t, a) && !a.Go?
    ensures ThreadsOk(Step(s, t, a)) && Extends(s.q, Step(s, t, a).q)
  {
    var s' := Step(s, t, a);
    assert Extends(s.q, s'.q);
    hide ChainOk, EndsOk, PrivateOk, LagExplained, Extends;
    forall u | u in s'.pcs
      ensures PcOk(s'.q, s'.pcs[u])
    {
      if u != t {
        ThreadOk(s, u);
        PcStaysOk(s.q, s'.q, s.pcs[u]);
      }
    }
  }

  lemma CallKeepsPrivate(s: State, t: nat, a: Act)
    requires Inv(s) && Enabled(s, t, a) && !a.Go?
    ensures PrivateOk(Step(s, t, a))
  {
    assert forall n :: n in s.q.chain ==> n in s.q.heap;
    hide ChainOk, EndsOk, ThreadsOk, LagExplained;
  }

  lemma CallKeepsLag(s: State, t: nat, a: Act)
    requires LagExplained(s) && Enabled(s, t, a) && !a.Go?
    ensures LagExplained(Step(s, t, a))
  {
    if s.q.tailAt + 2 == |s.q.chain| {
      var u :| u in s.pcs && s.pcs[u].SwingTail? && s.pcs[u].at == s.q.tailAt;
      assert Step(s, t, a).pcs[u] == s.pcs[u];
    }
  }

  /** Every step of every thread keeps the queue's invariant. */
  lemma StepKeepsInv(s: State, t: nat, a: Act)
    requires Inv(s) && Enabled(s, t, a)
    ensures Inv(Step(s, t, a))
  {
    if !a.Go? {
      CallKeepsThreads(s, t, a);
      CallKeepsPrivate(s, t, a);
      CallKeepsLag(s, t, a);
      hide PrivateOk, ThreadsOk, LagExplained, Extends, ChainOk;
      SameChain(s.q, Step(s, t, a).q);
    } else if Links(s.q, s.pcs[t]) {
      LinkKeepsInv(s, t);
    } else {
      OthersKeepInv(s, t);
    }
  }
}
