/**
 The ring buffer inside cbase_threading.c's queue: the operations performed while the
 lock is held, on values and on the array that the queue updates in place.
 */
module Ring {
  import opened Options
  import opened Bits

  /** items[head], items[head + 1], ... modulo the capacity are the queued values. */
  datatype Ring<T> = Ring(items: seq<T>, head: nat, tail: nat, count: nat)

  ghost function Capacity<T>(r: Ring<T>): nat { |r.items| }

  ghost predicate Valid<T>(r: Ring<T>) {
    && r.count <= |r.items|
    && (r.items == [] ==> r.head == r.tail == 0)
    && (r.items != [] ==> r.head < |r.items| && r.tail == (r.head + r.count) % |r.items|)
  }

  ghost function Contents<T>(r: Ring<T>): (c: seq<T>)
    requires Valid(r)
    ensures |c| == r.count
    ensures forall k :: 0 <= k < r.count ==> c[k] == r.items[Wrap(r.head + k, |r.items|)]
  {
    seq(r.count, k requires 0 <= k < r.count => r.items[Wrap(r.head + k, |r.items|)])
  }

  /** i modulo n, for an i that has gone round at most once. */
  ghost function Wrap(i: nat, n: nat): (w: nat)
    requires i < 2 * n
    ensures w < n && w == i % n
  {
    WrapIsMod(i, n);
    if i < n then i else i - n
  }

  lemma WrapIsMod(i: nat, n: nat)
    requires i < 2 * n
    ensures i % n == if i < n then i else i - n
  {
    if i < n { DivUnique(i, n, 0, i); } else { DivUnique(i, n, 1, i - n); }
  }

  ghost function Enqueue<T>(r: Ring<T>, x: T): Ring<T>
    requires Valid(r) && r.count < Capacity(r)
  {
    Ring(r.items[r.tail := x], r.head, (r.tail + 1) % |r.items|, r.count + 1)
  }

  ghost function Front<T>(r: Ring<T>): T
    requires Valid(r) && r.count > 0
  {
    r.items[r.head]
  }

  ghost function Dequeue<T>(r: Ring<T>): Ring<T>
    requires Valid(r) && r.count > 0
  {
    Ring(r.items, (r.head + 1) % |r.items|, r.tail, r.count - 1)
  }

  /** The two updates are those of a first-in first-out queue. */
  lemma EnqueueAppends<T>(r: Ring<T>, x: T)
    requires Valid(r) && r.count < Capacity(r)
    ensures Valid(Enqueue(r, x)) && Contents(Enqueue(r, x)) == Contents(r) + [x]
    ensures Capacity(Enqueue(r, x)) == Capacity(r)
  {
    var n, r' := |r.items|, Enqueue(r, x);
    WrapIsMod(r.head + r.count, n);
    WrapIsMod(r.tail + 1, n);
    WrapIsMod(r.head + r.count + 1, n);
    forall k | 0 <= k < r'.count
      ensures Contents(r')[k] == (Contents(r) + [x])[k]
    {
      assert Wrap(r'.head + k, n) == r.tail <==> k == r.count;
    }
  }

  lemma DequeueValid<T>(r: Ring<T>)
    requires Valid(r) && r.count > 0
    ensures Valid(Dequeue(r)) && Capacity(Dequeue(r)) == Capacity(r)
  {
    var n, r' := |r.items|, Dequeue(r);
    WrapIsMod(r.head + 1, n);
    WrapIsMod(r.head + r.count, n);
    WrapIsMod(r'.head + r'.count, n);
  }

  lemma DequeueRemoves<T>(r: Ring<T>)
    requires Valid(r) && r.count > 0
    ensures Valid(Dequeue(r)) && Capacity(Dequeue(r)) == Capacity(r)
    ensures Contents(r) == [Front(r)] + Contents(Dequeue(r))
  {
    DequeueValid(r);
    var n, r' := |r.items|, Dequeue(r);
    WrapIsMod(r.head, n);
    WrapIsMod(r.head + 1, n);
    forall k | 0 <= k < r'.count
      ensures Contents(r')[k] == Contents(r)[k + 1]
    {
      NextPlace(r.head, k, n);
    }
    assert Wrap(r.head + 0, n) == r.head;
  }

  /** The place behind the next head. */
  lemma NextPlace(head: nat, k: nat, n: nat)
    requires head < n && k + 1 < n
    ensures (head + 1) % n < n && Wrap((head + 1) % n + k, n) == Wrap(head + (k + 1), n)
  {
    WrapIsMod(head + 1, n);
    WrapIsMod(head + (k + 1), n);
    WrapIsMod((head + 1) % n + k, n);
  }

  /** The queue's storage, updated in place by the critical sections. */
  class Buffer<T> {
    var items: array<T>
    const capacity: nat
    var count: nat
    var head: nat
    var tail: nat

    ghost function Value(): Ring<T> reads this, items {
      Ring(items[..], head, tail, count)
    }

    ghost predicate Ok() reads this, items {
      items.Length == capacity && Valid(Value())
    }

    constructor (capacity: nat, blank: T)
      ensures Ok() && fresh(items) && this.capacity == capacity
      ensures Contents(Value()) == []
    {
      this.capacity := capacity;
      count, head, tail := 0, 0, 0;
      items := new T[capacity](_ => blank);
      new;
      hide Wrap;
      assert |Contents(Value())| == 0;
    }

    /** cb_tsqueue_push between the wait loop and the signal. */
    method PushBody(x: T)
      requires Ok() && count < capacity
      modifies this, items
      ensures Ok() && items == old(items)
      ensures Value() == Enqueue(old(Value()), x)
      ensures Contents(Value()) == old(Contents(Value())) + [x]
    {
      EnqueueAppends(Value(), x);
      items[tail] := x;
      tail := (tail + 1) % capacity;
      count := count + 1;
    }

    /** cb_tsqueue_pop between the wait loop and the signal. */
    method PopBody() returns (x: T)
      requires Ok() && count > 0
      modifies this
      ensures Ok() && items == old(items)
      ensures x == Front(old(Value())) && Value() == Dequeue(old(Value()))
      ensures old(Contents(Value())) == [x] + Contents(Value())
    {
      DequeueRemoves(Value());
      x := items[head];
      head := (head + 1) % capacity;
      count := count - 1;
    }

    /** The critical section of cb_tsqueue_try_pop; it never waits. */
    method TryPopBody() returns (x: Option<T>)
      requires Ok()
      modifies this
      ensures Ok() && items == old(items)
      ensures x == None <==> old(Contents(Value())) == []
      ensures old(Contents(Value())) == (if x == None then [] else [x.value]) + Contents(Value())
    {
      if count == 0 { return None; }
      var front := PopBody();
      x := Some(front);
    }

    method Count() returns (c: nat)
      requires Ok()
      ensures c == |Contents(Value())|
    {
      c := count;
    }
  }
}
