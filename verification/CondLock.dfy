/**
 The counting lock as steps of any number of threads. Each critical section between locking and unlocking
 the mutex is one step; a wait puts the thread to sleep and gives the mutex up in the same step.
 */
module CondLock {

  /** Outside the lock, asleep on the condition, or woken and about to test the counter again. */
  datatype Thread = Out | Asleep | Woken

  /** zero: the mode in which a grab takes from the counter; otherwise it adds, up to cnt. */
  datatype State = State(zero: bool, cnt: nat, now: int, threads: map<nat, Thread>, grabs: nat, releases: nat)

  function Initial(zero: bool, cnt: nat, threads: set<nat>): (r: State) {
    State(zero, cnt, 0, map t | t in threads :: Out, 0, 0)
  }

  /** The value of the counter at which a grab has to wait. */
  predicate Blocked(s: State) { s.now == if s.zero then 0 else s.cnt }

  /** A thread enters cl_grap, or tests again after it was woken. */
  function Grab(s: State, t: nat): (r: State)
    requires t in s.threads && !s.threads[t].Asleep?
  {
    if Blocked(s) then s.(threads := s.threads[t := Asleep])
    else s.(threads := s.threads[t := Out], now := if s.zero then s.now - 1 else s.now + 1, grabs := s.grabs + 1)
  }

  function WakeAll(threads: map<nat, Thread>): (r: map<nat, Thread>) {
    map t | t in threads :: if threads[t].Asleep? then Woken else threads[t]
  }

  /** A release broadcasts only when the counter stood at the value that blocks. */
  function Release(s: State): (r: State) {
    s.(threads := if Blocked(s) then WakeAll(s.threads) else s.threads,
       now := if s.zero then s.now + 1 else s.now - 1, releases := s.releases + 1)
  }

  datatype Event = GrabBy(t: nat) | ReleaseAny | Spurious(t: nat)

  /** Releases match grabs where a grab adds to the counter; a thread may also wake for no reason. */
  predicate Enabled(s: State, e: Event) {
    match e
    case GrabBy(t) => t in s.threads && !s.threads[t].Asleep?
    case ReleaseAny => s.zero || s.releases < s.grabs
    case Spurious(t) => t in s.threads && s.threads[t].Asleep?
  }

  function Step(s: State, e: Event): (r: State)
    requires Enabled(s, e)
  {
    match e
    case GrabBy(t) => Grab(s, t)
    case ReleaseAny => Release(s)
    case Spurious(t) => s.(threads := s.threads[t := Woken])
  }

  /** The counter is in range and says how grabs and releases differ. */
  ghost predicate Counts(s: State) {
    if s.zero then 0 <= s.now == s.releases - s.grabs
    else 0 <= s.now == s.grabs - s.releases <= s.cnt
  }

  /** Whoever sleeps would have to wait if it tested now. */
  ghost predicate NoLostWakeUp(s: State) {
    forall t :: t in s.threads && s.threads[t].Asleep? ==> Blocked(s)
  }

  ghost predicate Inv(s: State) { Counts(s) && NoLostWakeUp(s) }

  lemma StepKeepsInv(s: State, e: Event)
    requires Inv(s) && Enabled(s, e)
    ensures Inv(Step(s, e)) && Step(s, e).cnt == s.cnt && Step(s, e).zero == s.zero
  {
  }

  ghost predicate Possible(s: State, run: seq<Event>)
    decreases |run|
  {
    run == [] || (Enabled(s, run[0]) && Possible(Step(s, run[0]), run[1..]))
  }

  ghost function Run(s: State, run: seq<Event>): (r: State)
    requires Possible(s, run)
    decreases |run|
  {
    if run == [] then s else Run(Step(s, run[0]), run[1..])
  }

  lemma {:induction false} RunKeepsInv(s: State, run: seq<Event>)
    requires Inv(s) && Possible(s, run)
    ensures Inv(Run(s, run))
    decreases |run|
  {
    if run != [] {
      StepKeepsInv(s, run[0]);
      RunKeepsInv(Step(s, run[0]), run[1..]);
    }
  }

  /** A release keeps the counter in range exactly when it matches an earlier grab. */
  lemma ReleaseInRangeIff(s: State)
    requires Inv(s) && !s.zero
    ensures 0 <= Release(s).now <==> s.releases < s.grabs
  {
  }

  /** Whenever the counter allows it, every thread inside cl_grap is awake and its next test succeeds. */
  lemma WaitersProceed(s: State, t: nat)
    requires Inv(s) && t in s.threads && !s.threads[t].Out? && !Blocked(s)
    ensures s.threads[t].Woken? && Grab(s, t).threads[t].Out? && Grab(s, t).grabs == s.grabs + 1
  {
  }

  /**
   In both modes and every interleaving the counter stays in range and nobody sleeps who could proceed: whenever
   the counter allows it, every thread inside cl_grap is awake and its next test succeeds.
   */
  lemma NoWakeUpIsLost(zero: bool, cnt: nat, threads: set<nat>, run: seq<Event>)
    requires Possible(Initial(zero, cnt, threads), run)
    ensures var s := Run(Initial(zero, cnt, threads), run);
      && Counts(s) && NoLostWakeUp(s)
      && (!Blocked(s) ==> forall t :: t in s.threads && !s.threads[t].Out? ==>
           s.threads[t].Woken? && Grab(s, t).threads[t].Out?)
  {
    RunKeepsInv(Initial(zero, cnt, threads), run);
  }
}
