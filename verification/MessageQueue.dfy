/** message_queue.c: a circular buffer whose locked regions are the atomic operations of a bounded FIFO. */
module MessageQueue {
  import opened SipTypes

  // ---------- the bounded FIFO ----------

  /** An item is accepted unless `capacity` items are held. */
  function Put<T>(held: seq<T>, x: T, capacity: nat): seq<T> {
    if |held| < capacity then held + [x] else held
  }

  /** One locked operation: an item offered by a producer, or the oldest item taken. */
  datatype Operation<T> = Offer(producer: nat, item: T) | Take

  datatype Trace<T> = Trace(held: seq<(nat, T)>, accepted: seq<(nat, T)>, taken: seq<(nat, T)>, refused: seq<(nat, T)>)

  /** A taker waits until an item is held. */
  function Apply<T>(t: Trace<T>, op: Operation<T>, capacity: nat): Trace<T> {
    match op
    case Offer(p, x) =>
      if |t.held| < capacity
      then t.(held := Put(t.held, (p, x), capacity), accepted := t.accepted + [(p, x)])
      else t.(refused := t.refused + [(p, x)])
    case Take =>
      if t.held == [] then t else t.(held := t.held[1..], taken := t.taken + [t.held[0]])
  }

  function Run<T>(ops: seq<Operation<T>>, capacity: nat): Trace<T> {
    if ops == [] then Trace([], [], [], []) else Apply(Run(ops[..|ops| - 1], capacity), ops[|ops| - 1], capacity)
  }

  /** The items of one producer, in order. */
  function From<T>(items: seq<(nat, T)>, p: nat): seq<T> {
    if items == [] then []
    else
      var rest := From(items[..|items| - 1], p);
      if items[|items| - 1].0 == p then rest + [items[|items| - 1].1] else rest
  }

  /** However the operations interleave, the items taken and then the items held are the items accepted,
      each once and in order, and never more than `capacity` items are held. */
  lemma {:induction false} FirstInFirstOut<T>(ops: seq<Operation<T>>, capacity: nat)
    ensures var t := Run(ops, capacity); t.accepted == t.taken + t.held && |t.held| <= capacity
  {
    if ops != [] {
      FirstInFirstOut(ops[..|ops| - 1], capacity);
      var s := Run(ops[..|ops| - 1], capacity);
      if ops[|ops| - 1].Take? && s.held != [] {
        assert s.held == [s.held[0]] + s.held[1..];
      }
    }
  }

  lemma {:induction false} FromSplits<T>(a: seq<(nat, T)>, b: seq<(nat, T)>, p: nat)
    ensures From(a + b, p) == From(a, p) + From(b, p)
  {
    if b == [] {
      assert a + b == a;
    } else {
      FromSplits(a, b[..|b| - 1], p);
      assert (a + b)[..|a + b| - 1] == a + b[..|b| - 1];
    }
  }

  /** Each producer's items come out in the order it offered them, whatever the others do. */
  lemma ProducersKeepOrder<T>(ops: seq<Operation<T>>, capacity: nat, p: nat)
    ensures var t := Run(ops, capacity); From(t.accepted, p) == From(t.taken, p) + From(t.held, p)
  {
    FirstInFirstOut(ops, capacity);
    var t := Run(ops, capacity);
    FromSplits(t.taken, t.held, p);
  }

  // ---------- the circular buffer ----------

  lemma Wrap(a: int, c: int)
    requires 0 <= a < 2 * c
    ensures a % c == if a < c then a else a - c
  {
    if a >= c {
      assert a == c + (a - c);
      assert a % c == (a - c) % c;
    }
  }

  /** The slot of the item at offset `i`. */
  function Slot(front: int, i: int, c: int): (r: int)
    requires 0 <= front < c && 0 <= i <= c
    ensures 0 <= r < c && r == if front + i < c then front + i else front + i - c
  {
    Wrap(front + i, c);
    (front + i) % c
  }

  class MessageQueue<T> {
    const messages: array<Option<T>>
    const capacity: int
    var size: int
    var front: int
    var rear: int

    // The items held, oldest first.
    ghost var held: seq<T>

    ghost predicate Valid()
      reads this, messages
    {
      && 1 <= capacity == messages.Length
      && 0 <= size <= capacity && 0 <= front < capacity && -1 <= rear < capacity
      && (rear + 1) % capacity == (front + size) % capacity
      && |held| == size && forall i :: 0 <= i < size ==> messages[Slot(front, i, capacity)] == Some(held[i])
    }

    /** initialize_message_queue */
    constructor (capacity: int)
      ensures Valid() && held == [] && fresh(messages)
      ensures this.capacity == if capacity <= 0 then 1 else capacity
    {
      var c := if capacity <= 0 then 1 else capacity;
      this.capacity := c;
      messages := new Option<T>[c](_ => None);
      size, front, rear := 0, 0, -1;
      held := [];
    }

    /** enqueue_message */
    method Enqueue(x: T) returns (ok: bool)
      requires Valid()
      modifies this, messages
      ensures Valid() && ok == (|old(held)| < capacity) && held == Put(old(held), x, capacity)
    {
      if size == capacity { return false; }
      assert (rear + 1) % capacity == Slot(front, size, capacity);
      rear := (rear + 1) % capacity;
      messages[rear] := Some(x);
      size := size + 1;
      held := held + [x];
      Wrap(front + size, capacity);
      Wrap(rear + 1, capacity);
      return true;
    }

    /** dequeue_message, once the queue is not empty. */
    method Dequeue() returns (x: T)
      requires Valid() && held != []
      modifies this
      ensures Valid() && x == old(held)[0] && held == old(held)[1..]
    {
      assert Slot(front, 0, capacity) == front;
      x := messages[front].value;
      ghost var next := Slot(front, 1, capacity);
      assert (front + size) % capacity == Slot(front, size, capacity);
      assert forall i :: 0 <= i < size - 1 ==> Slot(next, i, capacity) == Slot(front, i + 1, capacity);
      front := (front + 1) % capacity;
      size := size - 1;
      held := held[1..];
      assert (front + size) % capacity == Slot(front, size, capacity);
    }
  }
}
