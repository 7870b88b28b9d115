/** The fixed-size circular FIFO of automate_catch_crv/queue.h: an array of
    SIZE slots with a front index, a rear index and a count. Enqueueing into a
    full queue first drops the oldest entry, so the queue always keeps the
    newest SIZE values. */
module CircularQueue {

  /** SIZE: the number of slots. */
  const Size := 5

  /** What dequeue and peek return when there is nothing to return. */
  const EmptyResult := -1

  /** The `n` slots of a ring buffer `buf` read from `start` on, oldest first. */
  function Ring(buf: seq<int>, start: int, n: nat): (r: seq<int>)
    requires |buf| > 0 && 0 <= start < |buf| && n <= |buf|
    ensures |r| == n
  {
    seq(n, i requires 0 <= i < n => buf[(start + i) % |buf|])
  }

  /** The newest `Size` values of `s` (all of `s` if it is not longer). */
  function Newest(s: seq<int>): (r: seq<int>)
    ensures |r| <= Size
  {
    if |s| <= Size then s else s[|s| - Size..]
  }

  /** What `enqueue` does to the queue's contents: drop the oldest value when
      the queue is full, then append. */
  function Enqueued(q: seq<int>, value: int): (r: seq<int>)
    requires |q| <= Size
    ensures r == Newest(q + [value])
  {
    (if |q| == Size then q[1..] else q) + [value]
  }

  /** Contents after enqueueing every value of `vs`, in order. */
  function EnqueueAll(q: seq<int>, vs: seq<int>): (r: seq<int>)
    requires |q| <= Size
    ensures |r| <= Size
    decreases |vs|
  {
    if vs == [] then q else EnqueueAll(Enqueued(q, vs[0]), vs[1..])
  }

  /** Dropping `k` values and then `|t|` more from the front of `s + t`
      is dropping `k + |t|` at once. */
  lemma SuffixOfSuffix(s: seq<int>, t: seq<int>, k: nat)
    requires k + Size == |s|
    ensures (s[k..] + t)[|t|..] == (s + t)[k + |t|..]
  {
    var lhs := (s[k..] + t)[|t|..];
    var rhs := (s + t)[k + |t|..];
    assert |lhs| == Size == |rhs|;
    forall i | 0 <= i < Size
      ensures lhs[i] == rhs[i]
    {
      if |t| + i < Size {
        assert lhs[i] == s[k + |t| + i];
      }
    }
  }

  lemma NewestOfNewest(s: seq<int>, t: seq<int>)
    ensures Newest(Newest(s) + t) == Newest(s + t)
  {
    if |s| > Size {
      var k := |s| - Size;
      var u := s[k..];
      assert Newest(s) == u;
      if t == [] {
        assert s + t == s && u + t == u;
      } else {
        assert |u + t| - Size == |t|;
        assert Newest(u + t) == (u + t)[|t|..];
        assert |s + t| - Size == k + |t|;
        assert Newest(s + t) == (s + t)[k + |t|..];
        SuffixOfSuffix(s, t, k);
      }
    }
  }

  lemma SplitFirst(q: seq<int>, vs: seq<int>)
    requires vs != []
    ensures q + [vs[0]] + vs[1..] == q + vs
  {
  }

  /** Whatever the queue held and however many values are enqueued, the
      queue ends up holding exactly the newest `Size` of all of them, in
      arrival order: eviction loses the oldest values and only those. */
  lemma {:induction false} EnqueueAllKeepsNewest(q: seq<int>, vs: seq<int>)
    requires |q| <= Size
    ensures EnqueueAll(q, vs) == Newest(q + vs)
    decreases |vs|
  {
    if vs == [] {
      assert q + vs == q;
    } else {
      EnqueueAllKeepsNewest(Enqueued(q, vs[0]), vs[1..]);
      NewestOfNewest(q + [vs[0]], vs[1..]);
      SplitFirst(q, vs);
    }
  }

  /** `%` by SIZE on the sums of two slot indices. */
  lemma ModSize(x: int)
    requires 0 <= x < 2 * Size
    ensures x % Size == if x < Size then x else x - Size
  {
  }

  /** Writing the slot after rear appends to the ring, and advancing rear
      keeps it just before the slot after the last entry. */
  lemma RingAppend(buf: seq<int>, start: int, n: nat, rear: int, value: int)
    requires |buf| == Size && 0 <= start < Size && n < Size && -1 <= rear < Size
    requires (rear + 1) % Size == (start + n) % Size
    ensures 0 <= (rear + 1) % Size < Size
    ensures Ring(buf[(rear + 1) % Size := value], start, n + 1) == Ring(buf, start, n) + [value]
    ensures ((rear + 1) % Size + 1) % Size == (start + n + 1) % Size
  {
    var slot := (rear + 1) % Size;
    ModSize(rear + 1);
    ModSize(start + n);
    ModSize(start + n + 1);
    ModSize(slot + 1);
    assert slot == (start + n) % Size;
    var after := Ring(buf[slot := value], start, n + 1);
    forall i | 0 <= i < n + 1
      ensures after[i] == (Ring(buf, start, n) + [value])[i]
    {
      ModSize(start + i);
    }
  }

  /** Advancing the start by one slot drops the oldest entry of the ring,
      which is the one in the start slot, and keeps the slot after the last
      entry where it was. */
  lemma RingAdvance(buf: seq<int>, start: int, n: nat)
    requires |buf| == Size && 0 <= start < Size && 0 < n <= Size
    ensures 0 <= (start + 1) % Size < Size
    ensures Ring(buf, start, n)[0] == buf[start]
    ensures Ring(buf, (start + 1) % Size, n - 1) == Ring(buf, start, n)[1..]
    ensures ((start + 1) % Size + (n - 1)) % Size == (start + n) % Size
  {
    ModSize(start);
    ModSize(start + 1);
    ModSize(start + n);
    ModSize((start + 1) % Size + (n - 1));
    var after := Ring(buf, (start + 1) % Size, n - 1);
    forall i | 0 <= i < n - 1
      ensures after[i] == Ring(buf, start, n)[i + 1]
    {
      ModSize((start + 1) % Size + i);
      ModSize(start + i + 1);
    }
  }

  /** The queue struct: `data[SIZE]`, `front`, `rear`, `count`. */
  class Queue {
    var data: array<int>
    var front: int
    var rear: int
    var count: int

    /** front and count locate the entries; rear is the slot before the one
        the next enqueue fills, i.e. the slot of the newest entry (-1 after
        initialisation). */
    ghost predicate Valid()
      reads this
    {
      && data.Length == Size
      && 0 <= front < Size
      && -1 <= rear < Size
      && 0 <= count <= Size
      && (rear + 1) % Size == (front + count) % Size
    }

    /** The entries, oldest first. */
    ghost function Contents(): (s: seq<int>)
      reads this, data
      requires Valid()
      ensures |s| == count
    {
      Ring(data[..], front, count)
    }

    /** Allocating the struct and calling initQueue on it. */
    constructor ()
      ensures Valid() && fresh(data)
      ensures front == 0 && rear == -1 && count == 0 && Contents() == []
    {
      data := new int[Size];
      new;
      InitQueue();
    }

    /** initQueue: the queue becomes empty with front 0 and rear -1. */
    method InitQueue()
      requires data.Length == Size
      modifies this
      ensures Valid() && data == old(data)
      ensures front == 0 && rear == -1 && count == 0 && Contents() == []
    {
      front := 0;
      rear := -1;
      count := 0;
    }

    /** isEmpty */
    method IsEmpty() returns (empty: bool)
      requires Valid()
      ensures empty <==> count == 0
      ensures empty <==> Contents() == []
    {
      empty := count == 0;
    }

    /** isFull */
    method IsFull() returns (full: bool)
      requires Valid()
      ensures full <==> count == Size
      ensures full <==> |Contents()| == Size
    {
      full := count == Size;
    }

    /** dequeue: on an empty queue returns -1 and changes nothing; otherwise
        returns the oldest entry, advances front modulo SIZE and decrements
        count. */
    method Dequeue() returns (val: int)
      requires Valid()
      modifies this
      ensures Valid() && data == old(data) && rear == old(rear)
      ensures old(count) == 0 ==> val == EmptyResult && front == old(front) && count == 0
      ensures old(count) > 0 ==>
                && val == old(Contents())[0]
                && Contents() == old(Contents())[1..]
                && front == (old(front) + 1) % Size
                && count == old(count) - 1
    {
      var empty := IsEmpty();
      if empty {
        return EmptyResult;
      }
      val := RemoveAtFront();
    }

    /** The second half of dequeue, on a queue with an entry: take the value
        at front, advance front modulo SIZE and uncount it. */
    method RemoveAtFront() returns (val: int)
      requires Valid() && count > 0
      modifies this
      ensures Valid() && data == old(data) && rear == old(rear)
      ensures val == old(Contents())[0]
      ensures Contents() == old(Contents())[1..]
      ensures front == (old(front) + 1) % Size
      ensures count == old(count) - 1
    {
      ghost var before := Contents();
      ghost var buf := data[..];
      RingAdvance(buf, front, count);
      val := data[front];
      front := (front + 1) % Size;
      count := count - 1;
      assert data[..] == buf;
      assert Contents() == Ring(buf, front, count) == before[1..];
      assert (rear + 1) % Size == (front + count) % Size;
    }

    /** enqueue: a full queue first drops its oldest entry; then value is
        written after rear and becomes the newest entry. */
    method Enqueue(value: int)
      requires Valid()
      modifies this, data
      ensures Valid() && data == old(data)
      ensures Contents() == Enqueued(old(Contents()), value)
      ensures count == if old(count) == Size then Size else old(count) + 1
      ensures rear == (old(rear) + 1) % Size
    {
      ghost var before := Contents();
      ghost var kept := if |before| == Size then before[1..] else before;
      var full := IsFull();
      if full {
        var _ := Dequeue();
      }
      assert Contents() == kept;
      AppendAtRear(value);
      assert Contents() == kept + [value] == Enqueued(before, value);
    }

    /** The second half of enqueue, on a queue with a free slot: advance
        rear modulo SIZE, store value there and count it. */
    method AppendAtRear(value: int)
      requires Valid() && count < Size
      modifies this, data
      ensures Valid() && data == old(data) && front == old(front)
      ensures Contents() == old(Contents()) + [value]
      ensures count == old(count) + 1
      ensures rear == (old(rear) + 1) % Size
    {
      ghost var before := Contents();
      ghost var slot := (rear + 1) % Size;
      RingAppend(data[..], front, count, rear, value);
      rear := (rear + 1) % Size;
      data[rear] := value;
      count := count + 1;
      assert data[..] == old(data[..])[slot := value];
      assert Contents() == before + [value];
    }

    /** peek: the oldest entry, or -1 on an empty queue; nothing changes. */
    method Peek() returns (val: int)
      requires Valid()
      ensures val == if count == 0 then EmptyResult else Contents()[0]
    {
      var empty := IsEmpty();
      if empty {
        return EmptyResult;
      }
      val := data[front];
    }
  }
}
