/** The mutex-protected linked queue; each operation is one critical section. */
module LinkedQueue {
  import opened Common

  class Node {
    var req: nat
    var next: Node?

    constructor (req: nat)
      ensures this.req == req && next == null
    {
      this.req, next := req, null;
    }
  }

  /** The node after the i-th one of a list. */
  ghost function Following(nodes: seq<Node>, i: nat): (r: Node?)
    requires i < |nodes|
  {
    if i + 1 < |nodes| then nodes[i + 1] else null
  }

  class Queue {
    var size: nat
    const mSize: nat
    var head: Node?
    var tail: Node?
    /** The nodes from head on. */
    ghost var nodes: seq<Node>

    /** The nodes form one list ending in null; the tail is meaningful only while there are nodes. */
    ghost predicate Valid()
      reads this, nodes
    {
      && size == |nodes| <= mSize
      && (forall i, j :: 0 <= i < j < |nodes| ==> nodes[i] != nodes[j])
      && (forall i {:trigger Following(nodes, i)} :: 0 <= i < |nodes| ==> nodes[i].next == Following(nodes, i))
      && head == (if |nodes| == 0 then null else nodes[0])
      && (|nodes| > 0 ==> tail == nodes[|nodes| - 1])
    }

    /** What the queue holds, front first. */
    ghost function Contents(): (c: seq<nat>)
      reads this, nodes
      ensures |c| == |nodes|
    {
      seq(|nodes|, i requires 0 <= i < |nodes| reads this, nodes => nodes[i].req)
    }

    constructor (mSize: nat)
      ensures Valid() && Contents() == [] && this.mSize == mSize && nodes == []
    {
      this.mSize := mSize;
      size, head, tail, nodes := 0, null, null, [];
    }

    /** Appends at the back; refuses exactly when full. */
    method Enqueue(req: nat) returns (ok: bool)
      requires Valid()
      modifies this, nodes
      ensures Valid() && ok == (old(|Contents()|) < mSize)
      ensures Contents() == if ok then old(Contents()) + [req] else old(Contents())
      ensures forall n :: n in nodes ==> n in old(nodes) || fresh(n)
    {
      if size == mSize { return false; }
      var newNode := new Node(req);
      if size == 0 {
        head, tail := newNode, newNode;
      } else {
        tail.next := newNode;
        tail := newNode;
      }
      nodes := nodes + [newNode];
      size := size + 1;
      ok := true;
      forall i | 0 <= i < |nodes|
        ensures nodes[i].next == Following(nodes, i)
      {
        if i < |old(nodes)| { assert old(nodes[i].next) == Following(old(nodes), i); }
      }
    }

    /** Prepends at the front; refuses exactly when full. */
    method EnqueueFront(req: nat) returns (ok: bool)
      requires Valid()
      modifies this
      ensures Valid() && ok == (old(|Contents()|) < mSize)
      ensures Contents() == if ok then [req] + old(Contents()) else old(Contents())
      ensures forall n :: n in nodes ==> n in old(nodes) || fresh(n)
    {
      if size == mSize { return false; }
      var newNode := new Node(req);
      if size == 0 {
        head, tail := newNode, newNode;
      } else {
        newNode.next := head;
        head := newNode;
      }
      nodes := [newNode] + nodes;
      forall i | 0 <= i < |nodes|
        ensures nodes[i].next == Following(nodes, i)
      {
        if i > 0 {
          var k := i - 1;
          assert nodes[i] == old(nodes)[k] && old(nodes[k].next) == Following(old(nodes), k);
        }
      }
      size := size + 1;
      ok := true;
    }

    /** Takes from the front; None exactly when empty. Taking the last node leaves the tail as it was. */
    method Dequeue() returns (r: Option<nat>)
      requires Valid()
      modifies this
      ensures Valid()
      ensures old(Contents()) == [] ==> r == None && Contents() == []
      ensures old(Contents()) != [] ==> r == Some(old(Contents())[0]) && Contents() == old(Contents())[1..]
      ensures tail == old(tail)
      ensures forall n :: n in nodes ==> n in old(nodes)
    {
      if head == null || size == 0 { return None; }
      var target := head;
      head := head.next;
      r := Some(target.req);
      size := size - 1;
      assert old(nodes)[0].next == Following(old(nodes), 0);
      nodes := nodes[1..];
      forall i | 0 <= i < |nodes|
        ensures nodes[i].next == Following(nodes, i)
      {
        var k := i + 1;
        assert nodes[i] == old(nodes)[k] && old(nodes)[k].next == Following(old(nodes), k);
      }
    }

    /** Looks at the front without taking it. */
    method Pick() returns (r: Option<nat>)
      requires Valid()
      ensures r == if Contents() == [] then None else Some(Contents()[0])
    {
      if head == null || size == 0 { return None; }
      r := Some(head.req);
    }
  }

  // ---------- Any mix of operations behaves as a bounded sequence

  datatype Op = Back(req: nat) | Front(req: nat) | Take

  /** Contents and answers of a bounded sequence under a list of operations; a refusal answers None. */
  function Model(c: seq<nat>, bound: nat, ops: seq<Op>): (r: (seq<nat>, seq<Option<nat>>))
    decreases |ops|
  {
    if ops == [] then (c, [])
    else
      var last := |ops| - 1;
      var (d, answers) := Model(c, bound, ops[..last]);
      match ops[last]
      case Back(req) => if |d| < bound then (d + [req], answers + [Some(req)]) else (d, answers + [None])
      case Front(req) => if |d| < bound then ([req] + d, answers + [Some(req)]) else (d, answers + [None])
      case Take => if d != [] then (d[1..], answers + [Some(d[0])]) else (d, answers + [None])
  }

  /** Runs the operations on the linked list; a stale tail never shows. */
  method RunAll(q: Queue, ops: seq<Op>) returns (answers: seq<Option<nat>>)
    requires q.Valid()
    modifies q, q.nodes
    ensures q.Valid()
    ensures (q.Contents(), answers) == Model(old(q.Contents()), q.mSize, ops)
  {
    answers := [];
    for i := 0 to |ops|
      invariant q.Valid() && (q.Contents(), answers) == Model(old(q.Contents()), q.mSize, ops[..i])
      invariant forall n :: n in q.nodes ==> n in old(q.nodes) || fresh(n)
    {
      assert forall j :: 0 <= j < |q.nodes| ==> q.nodes[j] in q.nodes;
      assert ops[..i + 1][..i] == ops[..i];
      match ops[i]
      case Back(req) =>
        var ok := q.Enqueue(req);
        answers := answers + [if ok then Some(req) else None];
      case Front(req) =>
        var ok := q.EnqueueFront(req);
        answers := answers + [if ok then Some(req) else None];
      case Take =>
        var r := q.Dequeue();
        answers := answers + [r];
    }
    assert ops[..|ops|] == ops;
  }
}
