/** The double-ended queue of the event loop: a growing circular buffer, refined to a sequence. */
module RingBuffer {
  const MAX_CAPACITY := 0x7FFFFFF

  /** The items of a circular buffer, first one first; with head behind tail they wrap around. */
  ghost function Ring<T>(data: seq<T>, head: nat, tail: nat): seq<T>
    requires head <= |data| && tail <= |data|
  {
    if head <= tail then data[head..tail] else data[head..] + data[..tail]
  }

  function Next(i: nat, capacity: nat): nat {
    if i + 1 < capacity then i + 1 else 0
  }

  /** While the buffer is not full, a write at the tail appends. */
  lemma RingPush<T>(data: seq<T>, head: nat, tail: nat, item: T)
    requires head < |data| && tail < |data| && |Ring(data, head, tail)| + 1 < |data|
    ensures Ring(data[tail := item], head, Next(tail, |data|)) == Ring(data, head, tail) + [item]
  {
    var after := data[tail := item];
    if head <= tail {
      assert after[head..tail + 1] == data[head..tail] + [item];
      assert tail + 1 == |data| ==> after[head..] == after[head..tail + 1];
    } else {
      assert after[head..] == data[head..] && after[..tail + 1] == data[..tail] + [item];
    }
  }

  /** While the buffer is not full, a write before the head puts an item in front. */
  lemma RingPushHead<T>(data: seq<T>, head: nat, tail: nat, item: T)
    requires head < |data| && tail < |data| && |Ring(data, head, tail)| + 1 < |data|
    ensures var newhead := if head == 0 then |data| - 1 else head - 1;
            Ring(data[newhead := item], newhead, tail) == [item] + Ring(data, head, tail)
  {
    var newhead := if head == 0 then |data| - 1 else head - 1;
    var after := data[newhead := item];
    if head == 0 {
      assert after[newhead..] == [item];
      assert after[..tail] == data[0..tail];
    } else if head <= tail {
      assert after[newhead..tail] == [item] + after[head..tail];
      assert after[head..tail] == data[head..tail];
    } else {
      assert after[newhead..] == [item] + after[head..];
      assert after[head..] == data[head..] && after[..tail] == data[..tail];
      assert [item] + data[head..] + data[..tail] == [item] + (data[head..] + data[..tail]);
    }
  }

  lemma RingPop<T>(data: seq<T>, head: nat, tail: nat)
    requires head < |data| && tail < |data| && head != tail
    ensures Ring(data, head, tail) == [data[head]] + Ring(data, Next(head, |data|), tail)
  {
  }

  class Queue<T(0)> {
    var data: array<T>
    var head: nat
    var tail: nat

    ghost predicate Valid()
      reads this, data
    {
      && data.Length <= MAX_CAPACITY
      && (if data.Length == 0 then head == 0 && tail == 0 else head < data.Length && tail < data.Length)
    }

    ghost function Contents(): seq<T>
      requires Valid()
      reads this, data
    {
      Ring(data[..], head, tail)
    }

    constructor ()
      ensures Valid() && Contents() == [] && fresh(data)
    {
      data, head, tail := new T[0], 0, 0;
    }

    function Count(): (n: nat)
      requires Valid()
      reads this, data
      ensures n == |Contents()|
    {
      if head > tail then tail + data.Length - head else tail - head
    }

    /** One place of the buffer is always free. */
    lemma Bounded()
      requires Valid()
      ensures |Contents()| < MAX_CAPACITY
    {
    }

    /** Makes room for one more item; the items of a wrapped buffer before its end move to the new end.
        Fails only when the buffer is at its largest. */
    method MaybeResize() returns (full: bool)
      requires Valid()
      modifies this, data
      ensures Valid() && Contents() == old(Contents()) && (data == old(data) || fresh(data))
      ensures full <==> |old(Contents())| + 1 >= MAX_CAPACITY
      ensures !full ==> |Contents()| + 1 < data.Length
    {
      var count := Count();
      if count + 1 >= data.Length {
        if count + 1 >= MAX_CAPACITY { return true; }
        var newcap := (count + 2) * 2;
        if newcap > MAX_CAPACITY { newcap := MAX_CAPACITY; }
        Grow(newcap);
      }
      full := false;
    }

    method Grow(newcap: nat)
      requires Valid() && data.Length < newcap <= MAX_CAPACITY && newcap > 1
      modifies this
      ensures Valid() && fresh(data) && data.Length == newcap && Contents() == old(Contents())
    {
      var grown := new T[newcap];
      var capacity := data.Length;
      forall i | 0 <= i < capacity {
        grown[i] := data[i];
      }
      if head > tail {
        var newhead := head + (newcap - capacity);
        forall i | 0 <= i < capacity - head {
          grown[newhead + i] := grown[head + i];
        }
        assert grown[..][newhead..] == data[..][head..] && grown[..][..tail] == data[..][..tail];
        head := newhead;
      } else {
        assert grown[..][head..tail] == data[..][head..tail];
      }
      data := grown;
    }

    method Push(item: T) returns (full: bool)
      requires Valid()
      modifies this, data
      ensures Valid() && (data == old(data) || fresh(data))
      ensures full <==> |old(Contents())| + 1 >= MAX_CAPACITY
      ensures Contents() == if full then old(Contents()) else old(Contents()) + [item]
    {
      full := MaybeResize();
      if full { return; }
      RingPush(data[..], head, tail, item);
      data[tail] := item;
      tail := if tail + 1 < data.Length then tail + 1 else 0;
    }

    method PushHead(item: T) returns (full: bool)
      requires Valid()
      modifies this, data
      ensures Valid() && (data == old(data) || fresh(data))
      ensures full <==> |old(Contents())| + 1 >= MAX_CAPACITY
      ensures Contents() == if full then old(Contents()) else [item] + old(Contents())
    {
      full := MaybeResize();
      if full { return; }
      RingPushHead(data[..], head, tail, item);
      var newhead: int := head - 1;
      if newhead < 0 {
        newhead := newhead + data.Length;
      }
      data[newhead] := item;
      head := newhead;
    }

    method Pop(default: T) returns (empty: bool, item: T)
      requires Valid()
      modifies this`head
      ensures Valid() && (empty <==> old(Contents()) == [])
      ensures if empty then item == default && Contents() == [] else old(Contents()) == [item] + Contents()
    {
      if head == tail { return true, default; }
      RingPop(data[..], head, tail);
      empty, item := false, data[head];
      head := if head + 1 < data.Length then head + 1 else 0;
    }
  }
}
