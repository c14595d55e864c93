/** An unthreaded channel as it runs: three circular buffers, updated in place. */
module Channels {
  import opened Options
  import opened RingBuffer
  import opened Scheduler

  /** The fibers that wait to read, or to write. */
  function Waiting(ch: Chan, reading: bool): seq<Pending> {
    if reading then ch.readers else ch.writers
  }

  function WithWaiting(ch: Chan, reading: bool, ps: seq<Pending>): Chan {
    if reading then ch.(readers := ps) else ch.(writers := ps)
  }

  class Channel {
    const items: Queue<Value>
    const readers: Queue<Pending>
    const writers: Queue<Pending>
    const limit: nat
    var closed: bool
    ghost var Repr: set<object>

    ghost predicate Valid()
      reads this, Repr
    {
      && this in Repr && items in Repr && items.data in Repr
      && readers in Repr && readers.data in Repr && writers in Repr && writers.data in Repr
      && items.Valid() && readers.Valid() && writers.Valid()
      && readers != writers && readers.data != writers.data
    }

    /** The channel as a value. */
    ghost function View(): Chan
      requires Valid()
      reads this, Repr
    {
      Chan(items.Contents(), readers.Contents(), writers.Contents(), limit, closed)
    }

    constructor (limit: nat)
      ensures Valid() && View() == Chan([], [], [], limit, false) && fresh(Repr)
    {
      items := new Queue<Value>();
      readers := new Queue<Pending>();
      writers := new Queue<Pending>();
      this.limit := limit;
      closed := false;
      new;
      Repr := {this, items, items.data, readers, readers.data, writers, writers.data};
    }

    /** Takes readers off the queue up to and including the first whose entry is fresh. */
    method PopReader(fibers: map<Fid, Fiber>) returns (reader: Option<Pending>)
      requires Valid()
      modifies Repr
      ensures Valid() && Repr == old(Repr)
      ensures var left := SkipStale(fibers, old(View()).readers);
              if left == [] then reader == None && View() == old(View()).(readers := [])
              else reader == Some(left[0]) && View() == old(View()).(readers := left[1..])
    {
      ghost var all := readers.Contents();
      var empty, p := readers.Pop(Pending(0, 0));
      while !empty && !(p.fiber in fibers && p.schedId == fibers[p.fiber].schedId)
        invariant Valid() && Repr == old(Repr) && closed == old(closed) && items.Contents() == old(items.Contents())
        invariant writers.Contents() == old(writers.Contents())
        invariant empty ==> readers.Contents() == []
        invariant SkipStale(fibers, all) == SkipStale(fibers, if empty then [] else [p] + readers.Contents())
        decreases !empty, |readers.Contents()|
      {
        empty, p := readers.Pop(Pending(0, 0));
      }
      reader := if empty then None else Some(p);
    }

    /** Puts an item at the end, unless the queue is as large as it can be. A giver over the limit is
        queued as well; that this can fail goes unnoticed. */
    method PushItem(v: Value, giver: Pending) returns (full: bool, blocks: bool)
      requires Valid()
      modifies Repr
      ensures Valid() && fresh(Repr - old(Repr))
      ensures var ch := old(View());
              && (full <==> |ch.items| + 1 >= MAX_CAPACITY)
              && (blocks <==> !full && |ch.items| + 1 > limit)
              && View() == if full then ch
                           else if blocks then ch.(items := ch.items + [v], writers := Enqueue(ch.writers, giver))
                           else ch.(items := ch.items + [v])
    {
      blocks := false;
      full := items.Push(v);
      Repr := Repr + {items.data};
      if full { return; }
      if items.Count() > limit {
        var _ := writers.Push(giver);
        Repr := Repr + {writers.data};
        blocks := true;
      }
    }

    /** Takes the first item and the first giver that waits; with no item, queues the taker. */
    method PopItem(taker: Pending) returns (item: Option<Value>, writer: Option<Pending>)
      requires Valid()
      modifies Repr
      ensures Valid() && fresh(Repr - old(Repr))
      ensures var ch := old(View());
              if ch.items == [] then
                item == None && writer == None && View() == ch.(readers := Enqueue(ch.readers, taker))
              else && item == Some(ch.items[0]) && writer == (if ch.writers == [] then None else Some(ch.writers[0]))
                   && View() == ch.(items := ch.items[1..], writers := if ch.writers == [] then [] else ch.writers[1..])
    {
      var empty, v := items.Pop(Nil);
      if empty {
        var _ := readers.Push(taker);
        Repr := Repr + {readers.data};
        return None, None;
      }
      item := Some(v);
      var none, w := writers.Pop(taker);
      writer := if none then None else Some(w);
    }

    /** Takes the first entry off the queue of readers or of writers. */
    method PopWaiting(reading: bool) returns (p: Option<Pending>)
      requires Valid()
      modifies Repr
      ensures Valid() && Repr == old(Repr)
      ensures var ps := Waiting(old(View()), reading);
              && p == (if ps == [] then None else Some(ps[0]))
              && View() == WithWaiting(old(View()), reading, if ps == [] then [] else ps[1..])
    {
      var empty, first;
      if reading {
        empty, first := readers.Pop(Pending(0, 0));
      } else {
        empty, first := writers.Pop(Pending(0, 0));
      }
      p := if empty then None else Some(first);
    }
  }
}
