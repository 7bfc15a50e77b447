/** The bounded queue behind the asynchronous logger: a ring of slots with one spare, and its locked operations. */
module RingQueue {

  /** A queue that holds at most `capacity` items and drops its oldest when one too many arrives. */
  function Pushed<T>(s: seq<T>, item: T, capacity: nat): seq<T> {
    if |s| + 1 > capacity then (s + [item])[1..] else s + [item]
  }

  lemma WrapAround(x: nat, m: nat)
    requires 0 < m && x < 2 * m
    ensures x % m == if x < m then x else x - m
  {
  }

  /** The items between head and tail, around the end of the slots if need be. */
  function Ring<T>(v: seq<T>, head: nat, tail: nat): seq<T>
    requires head <= |v| && tail <= |v|
  {
    if head <= tail then v[head..tail] else v[head..] + v[..tail]
  }

  function Next(x: nat, m: nat): (y: nat)
    requires x < m
    ensures y < m
  {
    if x + 1 < m then x + 1 else 0
  }

  lemma NextIsModulo(x: nat, m: nat)
    requires x < m
    ensures (x + 1) % m == Next(x, m)
  {
  }

  lemma PushWithRoom<T>(v: seq<T>, head: nat, tail: nat, item: T)
    requires head < |v| && tail < |v| && Next(tail, |v|) != head
    ensures Ring(v[tail := item], head, Next(tail, |v|)) == Pushed(Ring(v, head, tail), item, |v| - 1)
  {
  }

  lemma PushOverSlots<T>(v: seq<T>, head: nat, tail: nat, item: T)
    requires head < |v| && tail < |v| && Next(tail, |v|) == head
    ensures Ring(v[tail := item], Next(head, |v|), head) == (Ring(v, head, tail) + [item])[1..]
    ensures |Ring(v, head, tail)| == |v| - 1
  {
  }

  lemma PushOver<T>(v: seq<T>, head: nat, tail: nat, item: T)
    requires head < |v| && tail < |v| && Next(tail, |v|) == head
    ensures Ring(v[tail := item], Next(head, |v|), head) == Pushed(Ring(v, head, tail), item, |v| - 1)
  {
    hide Ring;
    PushOverSlots(v, head, tail, item);
  }

  class CircularQ<T(0)> {
    var maxItems: nat
    var head: nat
    var tail: nat
    var overrunCounter: nat
    var v: array<T>

    /** A disabled queue, with no slot at all. */
    constructor Disabled()
      ensures Valid() && maxItems == 0 && Contents() == [] && overrunCounter == 0 && fresh(v)
    {
      maxItems, head, tail, overrunCounter := 0, 0, 0, 0;
      v := new T[0];
    }

    constructor (capacity: nat)
      ensures Valid() && maxItems == capacity + 1 && Contents() == [] && overrunCounter == 0 && fresh(v)
    {
      maxItems, head, tail, overrunCounter := capacity + 1, 0, 0, 0;
      v := new T[capacity + 1];
    }

    ghost predicate Valid()
      reads this
    {
      v.Length == maxItems && if maxItems == 0 then head == tail == 0 else head < maxItems && tail < maxItems
    }

    /** The items, oldest first. */
    ghost function Contents(): seq<T>
      requires Valid()
      reads this, v
    {
      Ring(v[..], head, tail)
    }

    method PushBack(item: T)
      requires Valid()
      modifies this`tail, this`head, this`overrunCounter, v
      ensures Valid()
      ensures maxItems == 0 ==> Contents() == old(Contents()) && overrunCounter == old(overrunCounter)
      ensures maxItems > 0 ==> Contents() == Pushed(old(Contents()), item, maxItems - 1)
      ensures maxItems > 0 ==> overrunCounter == old(overrunCounter) + if old(Full()) then 1 else 0
    {
      hide Ring, Pushed, Next;
      if maxItems > 0 {
        ghost var slots := v[..];
        NextIsModulo(tail, maxItems);
        NextIsModulo(head, maxItems);
        v[tail] := item;
        assert v[..] == slots[tail := item];
        if (tail + 1) % maxItems == head {
          PushOver(slots, head, tail, item);
        } else {
          PushWithRoom(slots, head, tail, item);
        }
        tail := (tail + 1) % maxItems;
        if tail == head {
          head := (head + 1) % maxItems;
          overrunCounter := overrunCounter + 1;
        }
      }
    }

    method Front() returns (item: T)
      requires Valid() && Contents() != []
      ensures item == Contents()[0]
    {
      item := v[head];
    }

    method Size() returns (n: nat)
      requires Valid()
      ensures n == |Contents()|
    {
      if tail >= head {
        n := tail - head;
      } else {
        n := maxItems - (head - tail);
      }
    }

    method Item(i: nat) returns (item: T)
      requires Valid() && i < |Contents()|
      ensures item == Contents()[i]
    {
      WrapAround(head + i, maxItems);
      item := v[(head + i) % maxItems];
    }

    method PopFront()
      requires Valid() && Contents() != []
      modifies this`head
      ensures Valid() && Contents() == old(Contents())[1..]
    {
      NextIsModulo(head, maxItems);
      head := (head + 1) % maxItems;
    }

    predicate Empty()
      reads this
    {
      tail == head
    }

    predicate Full()
      reads this
    {
      maxItems > 0 && (tail + 1) % maxItems == head
    }

    /** The two queries say what they are named for; the spare slot tells full from empty. */
    lemma EmptyOrFull()
      requires Valid()
      ensures Empty() <==> Contents() == []
      ensures Full() <==> maxItems > 0 && |Contents()| == maxItems - 1
      ensures maxItems > 0 ==> |Contents()| < maxItems
    {
      if maxItems > 0 {
        NextIsModulo(tail, maxItems);
      }
    }
  }

  /** The operations under the queue's lock; waiting is left to the caller's guard. */
  class MpmcBlockingQueue<T(0)> {
    const q: CircularQ<T>

    constructor (capacity: nat)
      ensures Valid() && fresh(q) && fresh(q.v) && Items() == [] && Capacity() == capacity && q.overrunCounter == 0
    {
      q := new CircularQ<T>(capacity);
    }

    ghost predicate Valid()
      reads this, q
    {
      q.Valid() && q.maxItems > 0
    }

    ghost function Items(): seq<T>
      requires Valid()
      reads this, q, q.v
    {
      q.Contents()
    }

    ghost function Capacity(): nat
      requires Valid()
      reads this, q
    {
      q.maxItems - 1
    }

    /** The step taken once the wait for room is over. */
    method Enqueue(item: T)
      requires Valid() && |Items()| < Capacity()
      modifies q, q.v
      ensures Valid() && q.v == old(q.v) && Capacity() == old(Capacity()) && q.overrunCounter == old(q.overrunCounter)
      ensures Items() == old(Items()) + [item]
    {
      q.EmptyOrFull();
      q.PushBack(item);
    }

    method EnqueueNowait(item: T)
      requires Valid()
      modifies q, q.v
      ensures Valid() && q.v == old(q.v) && Capacity() == old(Capacity())
      ensures Items() == Pushed(old(Items()), item, Capacity())
      ensures q.overrunCounter == old(q.overrunCounter) + if |old(Items())| == Capacity() then 1 else 0
    {
      q.EmptyOrFull();
      q.PushBack(item);
    }

    /** Fails only if the queue is still empty when the wait runs out. */
    method DequeueFor() returns (ok: bool, item: T)
      requires Valid()
      modifies q
      ensures Valid() && q.v == old(q.v) && Capacity() == old(Capacity()) && q.overrunCounter == old(q.overrunCounter)
      ensures ok == (old(Items()) != [])
      ensures if ok then [item] + Items() == old(Items()) else Items() == old(Items())
    {
      q.EmptyOrFull();
      item := *;
      if q.Empty() {
        return false, item;
      }
      item := q.Front();
      q.PopFront();
      ok := true;
    }
  }
}
