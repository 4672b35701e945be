/** The bounded deque under the dispatcher: its capacity is soft, and a full push drops the head silently. */
module CircularBuffers {
  class CircularBuffer<T> {
    var capacity: nat
    var items: seq<T>

    constructor ()
      ensures capacity == 0 && items == []
    {
      capacity, items := 0, [];
    }

    method Clear()
      modifies this`items
      ensures items == []
    {
      items := [];
    }

    method PopFront()
      requires items != []
      modifies this`items
      ensures items == old(items)[1..]
    {
      items := items[1..];
    }

    /** At capacity, zero included, the source pops before it pushes; popping an empty deque is undefined. */
    method PushBack(item: T)
      requires |items| >= capacity ==> items != []
      modifies this`items
      ensures items == (if |old(items)| >= capacity then old(items)[1..] else old(items)) + [item]
    {
      if |items| >= capacity {
        PopFront();
      }
      items := items + [item];
    }

    method SetCapacity(newCapacity: nat)
      modifies this`capacity
      ensures capacity == newCapacity
    {
      capacity := newCapacity;
    }
  }
}
