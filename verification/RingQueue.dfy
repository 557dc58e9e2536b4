/** The ring queue of process numbers: a circular buffer in an array, refining a first-in first-out sequence of
    bounded length. */
module RingQueue {

  lemma Wrap(x: nat, capacity: nat)
    requires 0 < capacity && x <= capacity
    ensures x % capacity == if x == capacity then 0 else x
  {
    if x == capacity {
      assert capacity % capacity == 0;
    }
  }

  class Queue {
    const capacity: nat
    const items: array<nat>
    var front: int
    var rear: int
    var size: nat

    ghost predicate Valid()
      reads this
    {
      && items.Length == capacity && size <= capacity
      && (size == 0 ==> front == rear == -1)
      && (size > 0 ==> 0 <= front < capacity && rear == Place(size - 1))
    }

    /** Where the `i`-th element from the front lives. */
    ghost function Place(i: int): int
      reads this
    {
      if front + i < capacity then front + i else front + i - capacity
    }

    /** The queue, front first. */
    ghost function Contents(): (s: seq<nat>)
      requires Valid()
      reads this, items
      ensures |s| == size && forall i :: 0 <= i < size ==> s[i] == items[Place(i)]
    {
      seq(size, i requires 0 <= i < size && Valid() reads this, items => items[Place(i)])
    }

    constructor (capacity: nat)
      ensures Valid() && fresh(items) && Contents() == [] && this.capacity == capacity
    {
      this.capacity := capacity;
      items := new nat[capacity];
      front, rear, size := -1, -1, 0;
    }

    /** A full queue drops the item. */
    method Enqueue(item: nat)
      requires Valid()
      modifies this, items
      ensures Valid()
      ensures Contents() == if old(size) == capacity then old(Contents()) else old(Contents()) + [item]
    {
      if size == capacity { return; }
      ghost var was := Contents();
      if front == -1 { front := 0; }
      Wrap(rear + 1, capacity);
      rear := (rear + 1) % capacity;
      items[rear] := item;
      size := size + 1;
      assert Contents() == was + [item];
    }

    /** The front item, or -1 from an empty queue. */
    method Dequeue() returns (item: int)
      requires Valid()
      modifies this
      ensures Valid()
      ensures old(size) == 0 ==> item == -1 && Contents() == old(Contents())
      ensures old(size) > 0 ==> item == old(Contents())[0] && Contents() == old(Contents())[1..]
    {
      if size == 0 { return -1; }
      ghost var was := Contents();
      item := items[front];
      Wrap(front + 1, capacity);
      front := (front + 1) % capacity;
      size := size - 1;
      if size == 0 { front, rear := -1, -1; }
      assert Contents() == was[1..];
    }

    method IsEmpty() returns (empty: bool)
      requires Valid()
      ensures empty <==> Contents() == []
    {
      return size == 0;
    }
  }
}
