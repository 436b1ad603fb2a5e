/**
 * The bounded process queue of src/queue.c: a fixed array of MAX_QUEUE_SIZE
 * slots and a count of the slots in use.  The header that fixes the
 * capacity (queue.h) is not part of this model; the capacity below is a
 * chosen one.
 */
module ProcessQueue {
  import opened Wrappers

  const MAX_QUEUE_SIZE: nat := 10

  /** One queue; `proc[..size]` are the queued processes, oldest first. */
  class Queue<T(0)> {
    const proc: array<T>
    var size: int

    ghost predicate Valid()
      reads this
    {
      proc.Length == MAX_QUEUE_SIZE && 0 <= size <= MAX_QUEUE_SIZE
    }

    /** The queued processes, in slot order. */
    ghost function Contents(): seq<T>
      requires Valid()
      reads this, proc
    {
      proc[..size]
    }

    constructor ()
      ensures Valid() && size == 0 && fresh(proc)
    {
      proc := new T[MAX_QUEUE_SIZE];
      size := 0;
    }

    /**
     * enqueue: a full queue is left as it is; otherwise the process goes
     * into slot `size`, which then grows by one.
     */
    method Enqueue(p: T)
      requires Valid()
      modifies this, proc
      ensures Valid()
      ensures size == SizeAfter(old(size), Enq)
      ensures old(size) == MAX_QUEUE_SIZE ==> proc[..] == old(proc[..])
      ensures old(size) < MAX_QUEUE_SIZE ==> proc[..] == old(proc[..])[old(size) := p]
      ensures old(size) < MAX_QUEUE_SIZE ==> Contents() == old(Contents()) + [p]
    {
      if size == MAX_QUEUE_SIZE {
        return;
      }
      proc[size] := p;
      size := size + 1;
    }
  }

  /** empty: a missing queue counts as empty. */
  predicate Empty<T(0)>(q: Queue?<T>): (r: bool)
    reads q
    ensures q != null && q.Valid() ==> (r <==> q.Contents() == [])
  {
    q == null || q.size == 0
  }

  /**
   * dequeue as written: the head is returned, then a loop running from the
   * last slot down to slot 1 copies each slot into the one before it, so
   * the old last process ends up in every slot below the old size.
   */
  method Dequeue<T(0)>(q: Queue?<T>) returns (r: Option<T>)
    requires q != null ==> q.Valid()
    modifies q, if q == null then {} else {q.proc}
    ensures q != null ==> q.Valid()
    ensures r.None? <==> old(Empty(q))
    ensures r.None? ==> q == null || (q.size == old(q.size) && q.proc[..] == old(q.proc[..]))
    ensures r.Some? ==> q != null && r.value == old(q.proc[0]) && q.size == SizeAfter(old(q.size), Deq)
    ensures r.Some? ==> q != null && q.Contents() == Smeared(old(q.Contents()))
    ensures r.Some? ==> q != null && q.proc[old(q.size) - 1] == old(q.proc[q.size - 1])
    ensures r.Some? ==> q != null && q.proc[old(q.size)..] == old(q.proc[q.size..])
  {
    if Empty(q) {
      return None;
    }
    r := Some(q.proc[0]);
    ghost var last := q.proc[q.size - 1];
    ghost var before := q.proc[..];
    var i := q.size - 1;
    while i > 0
      invariant q.Valid() && q.size == old(q.size) && 0 <= i < q.size
      invariant forall k :: i <= k < q.size ==> q.proc[k] == last
      invariant forall k :: 0 <= k < i ==> q.proc[k] == before[k]
      invariant q.proc[q.size..] == before[q.size..]
    {
      q.proc[i - 1] := q.proc[i];
      i := i - 1;
    }
    q.size := q.size - 1;
  }

  /**
   * dequeue as evidently intended: the head is returned and every other
   * process moves one slot forward, keeping first-in first-out order.
   */
  method DequeueShifted<T(0)>(q: Queue?<T>) returns (r: Option<T>)
    requires q != null ==> q.Valid()
    modifies q, if q == null then {} else {q.proc}
    ensures q != null ==> q.Valid()
    ensures r.None? <==> old(Empty(q))
    ensures r.None? ==> q == null || (q.size == old(q.size) && q.proc[..] == old(q.proc[..]))
    ensures r.Some? ==> q != null && [r.value] + q.Contents() == old(q.Contents())
    ensures r.Some? ==> q != null && q.proc[old(q.size) - 1] == old(q.proc[q.size - 1])
    ensures r.Some? ==> q != null && q.proc[old(q.size)..] == old(q.proc[q.size..])
  {
    if Empty(q) {
      return None;
    }
    r := Some(q.proc[0]);
    ghost var before := q.proc[..];
    var i := 0;
    while i < q.size - 1
      invariant q.Valid() && q.size == old(q.size) && 0 <= i < q.size
      invariant forall k :: 0 <= k < i ==> q.proc[k] == before[k + 1]
      invariant forall k :: i <= k < q.proc.Length ==> q.proc[k] == before[k]
    {
      q.proc[i] := q.proc[i + 1];
      i := i + 1;
    }
    q.size := q.size - 1;
  }

  /** What dequeue as written leaves in the queue: the old last process in every remaining slot. */
  function Smeared<T>(s: seq<T>): (r: seq<T>)
    requires s != []
    ensures |r| == |s| - 1
    ensures forall k :: 0 <= k < |r| ==> r[k] == s[|s| - 1]
  {
    seq(|s| - 1, _ => s[|s| - 1])
  }

  /**
   * The smear keeps first-in first-out order exactly when every process
   * behind the head is the same as the last one; with two distinct
   * processes behind the head the order is lost.
   */
  lemma SmearedIsFifoIff<T>(s: seq<T>)
    requires s != []
    ensures Smeared(s) == s[1..] <==> forall k :: 1 <= k < |s| ==> s[k] == s[|s| - 1]
  {
    if Smeared(s) == s[1..] {
      forall k | 1 <= k < |s|
        ensures s[k] == s[|s| - 1]
      {
        assert s[1..][k - 1] == s[k];
      }
    } else {
      var r := Smeared(s);
      var k :| 0 <= k < |r| && r[k] != s[1..][k];
      assert s[k + 1] != s[|s| - 1];
    }
  }

  /** Three queued processes a, b, c: dequeue as written leaves c, c where b, c was due. */
  lemma SmearLosesSecond()
    ensures Smeared([1, 2, 3]) == [3, 3] && [1, 2, 3][1..] == [2, 3]
  {
    assert Smeared([1, 2, 3])[0] == 3 && Smeared([1, 2, 3])[1] == 3;
  }

  /** The two queue operations, for reasoning about sequences of them. */
  datatype QueueOp = Enq | Deq

  /** The count after one operation: enqueue stops at the capacity, dequeue at zero. */
  function SizeAfter(size: int, op: QueueOp): (r: int)
    ensures 0 <= size <= MAX_QUEUE_SIZE ==> 0 <= r <= MAX_QUEUE_SIZE
  {
    match op
    case Enq => if size == MAX_QUEUE_SIZE then size else size + 1
    case Deq => if size == 0 then size else size - 1
  }

  /** The count after a run of operations, first to last. */
  function SizeAfterAll(size: int, ops: seq<QueueOp>): int
    decreases ops
  {
    if ops == [] then size else SizeAfterAll(SizeAfter(size, ops[0]), ops[1..])
  }

  /** No run of enqueues and dequeues takes the count outside 0..MAX_QUEUE_SIZE. */
  lemma {:induction false} SizeStaysBounded(size: int, ops: seq<QueueOp>)
    requires 0 <= size <= MAX_QUEUE_SIZE
    ensures 0 <= SizeAfterAll(size, ops) <= MAX_QUEUE_SIZE
    decreases ops
  {
    if ops != [] {
      SizeStaysBounded(SizeAfter(size, ops[0]), ops[1..]);
    }
  }

  /** n enqueues add n to the count, up to the capacity and no further. */
  lemma {:induction false} EnqueuesFill(size: int, n: nat)
    requires 0 <= size <= MAX_QUEUE_SIZE
    ensures SizeAfterAll(size, seq(n, _ => Enq)) == if size + n <= MAX_QUEUE_SIZE then size + n else MAX_QUEUE_SIZE
    decreases n
  {
    if n > 0 {
      assert seq(n, _ => Enq)[1..] == seq(n - 1, _ => Enq);
      EnqueuesFill(SizeAfter(size, Enq), n - 1);
    }
  }
}
