/** The fixed-capacity circular buffer behind every severity lane. */
module RingBuffers {
  import opened Options

  /** `x % capacity` for the positions a ring of that capacity ever computes. */
  function Wrap(x: nat, capacity: nat): nat {
    if x < capacity then x else x - capacity
  }

  lemma WrapIsMod(x: nat, capacity: nat)
    requires x < 2 * capacity
    ensures x % capacity == Wrap(x, capacity)
  {
    if x < capacity {
      assert x % capacity == x;
    } else {
      assert x == capacity + (x - capacity);
      assert (x - capacity) % capacity == x - capacity;
    }
  }

  /** How far slot `j` is behind the head, going round. */
  function Offset(j: nat, head: nat, n: nat): nat
    requires j < n && head < n
  {
    if j >= head then j - head else j - head + n
  }

  /** Going round from `head` the slots hold `contents`, and every other slot is vacant. */
  ghost predicate Lays<T(!new)>(slots: seq<Option<T>>, head: nat, contents: seq<T>) {
    && |contents| <= |slots|
    && (if |slots| == 0 then head == 0 else head < |slots|)
    && (forall j :: 0 <= j < |slots| ==>
          slots[j] == var k := Offset(j, head, |slots|); if k < |contents| then Some(contents[k]) else None)
  }

  lemma LaysPush<T(!new)>(slots: seq<Option<T>>, head: nat, contents: seq<T>, item: T)
    requires Lays(slots, head, contents) && |contents| < |slots|
    ensures Lays(slots[Wrap(head + |contents|, |slots|) := Some(item)], head, contents + [item])
  {
  }

  lemma LaysPop<T(!new)>(slots: seq<Option<T>>, head: nat, contents: seq<T>)
    requires Lays(slots, head, contents) && |contents| > 0
    ensures slots[head] == Some(contents[0])
    ensures Lays(slots[head := None], Wrap(head + 1, |slots|), contents[1..])
  {
  }

  class RingBuffer<T(!new)> {
    const capacity: nat
    const slots: array<Option<T>>
    var head: nat
    var count: nat
    ghost var Contents: seq<T>

    ghost predicate Valid()
      reads this, slots
    {
      slots.Length == capacity && count == |Contents| && Lays(slots[..], head, Contents)
    }

    constructor (capacity: nat)
      ensures Valid() && fresh(slots) && this.capacity == capacity && Contents == []
    {
      this.capacity := capacity;
      slots := new Option<T>[capacity](_ => None);
      head, count, Contents := 0, 0, [];
    }

    method Push(item: T) returns (ok: bool)
      requires Valid()
      modifies this`count, this`Contents, slots
      ensures Valid()
      ensures ok == (|old(Contents)| < capacity)
      ensures Contents == if ok then old(Contents) + [item] else old(Contents)
    {
      if count == capacity { return false; }
      WrapIsMod(head + count, capacity);
      LaysPush(slots[..], head, Contents, item);
      var tail := (head + count) % capacity;
      slots[tail] := Some(item);
      count := count + 1;
      Contents := Contents + [item];
      return true;
    }

    method PopOldest() returns (item: Option<T>)
      requires Valid()
      modifies this`head, this`count, this`Contents, slots
      ensures Valid()
      ensures old(Contents) == [] ==> item == None && Contents == []
      ensures old(Contents) != [] ==> item == Some(old(Contents)[0]) && Contents == old(Contents)[1..]
    {
      if count == 0 { return None; }
      LaysPop(slots[..], head, Contents);
      WrapIsMod(head + 1, capacity);
      item := slots[head];
      slots[head] := None;
      head := (head + 1) % capacity;
      count := count - 1;
      Contents := Contents[1..];
    }

    /** The oldest `min(maxItems, size)` items, in order; nothing when `maxItems` is negative. */
    method PopBatch(maxItems: int) returns (batch: seq<T>)
      requires Valid()
      modifies this`head, this`count, this`Contents, slots
      ensures Valid()
      ensures |batch| == if maxItems <= 0 then 0 else if maxItems < |old(Contents)| then maxItems else |old(Contents)|
      ensures batch + Contents == old(Contents)
    {
      var n := if maxItems < count then maxItems else count;
      batch := [];
      var i := 0;
      while i < n
        invariant Valid() && |batch| == i <= (if n < 0 then 0 else n) <= |old(Contents)|
        invariant batch + Contents == old(Contents)
      {
        var item := PopOldest();
        if item.Some? { batch := batch + [item.value]; }
        i := i + 1;
      }
    }
  }
}
