/** The event loop as it runs, over circular buffers and a timer heap that are updated in place. */
module EventLoop {
  import opened Options
  import opened RingBuffer
  import opened TimerHeap
  import opened Scheduler
  import opened SchedulerRuns
  import opened Channels

  /** What the timeouts that are due do, one after the other. */
  function ExpireAll(s: State, due: seq<Timeout>): Result {
    if due == [] then Result(s, [])
    else
      var r := ExpireAll(s, due[..|due| - 1]);
      var e := Expire(r.s, due[|due| - 1]);
      Result(e.s, r.events + e.events)
  }

  lemma ExpireAllNext(s: State, due: seq<Timeout>, i: nat, r: Result)
    requires i < |due| && r == ExpireAll(s, due[..i])
    ensures var e := Expire(r.s, due[i]); ExpireAll(s, due[..i + 1]) == Result(e.s, r.events + e.events)
    ensures |Expire(r.s, due[i]).s.spawn| <= |ExpireAll(s, due).s.spawn|
  {
    assert due[..i + 1][..i] == due[..i];
    ExpireAllLonger(s, due, i + 1);
  }

  lemma {:induction false} ExpireAllLonger(s: State, due: seq<Timeout>, i: nat)
    requires i <= |due|
    ensures |ExpireAll(s, due[..i]).s.spawn| <= |ExpireAll(s, due).s.spawn|
    decreases |due|
  {
    if i == |due| {
      assert due[..i] == due;
    } else {
      assert due[..|due| - 1][..i] == due[..i];
      ExpireAllLonger(s, due[..|due| - 1], i);
    }
  }

  /** Closing wakes a fiber if its entry is fresh and it has not ended. */
  function WakeIf(s: State, p: Pending): Result {
    if Fresh(s.fibers, p) && !s.fibers[p.fiber].done then Wake(s, p.fiber, Nil, Ok) else Result(s, [])
  }

  lemma WakeAllNext(s: State, ps: seq<Pending>, i: nat, r: Result)
    requires i < |ps| && r == WakeAll(s, ps[..i])
    ensures var w := WakeIf(r.s, ps[i]); WakeAll(s, ps[..i + 1]) == Result(w.s, r.events + w.events)
    ensures |r.s.spawn| <= |WakeIf(r.s, ps[i]).s.spawn| <= |WakeAll(s, ps).s.spawn|
  {
    assert ps[..i + 1][..i] == ps[..i] && r.events + [] == r.events;
    WakeAllLonger(s, ps, i + 1);
  }

  lemma {:induction false} WakeAllLonger(s: State, ps: seq<Pending>, i: nat)
    requires i <= |ps|
    ensures |WakeAll(s, ps[..i]).s.spawn| <= |WakeAll(s, ps).s.spawn|
    decreases |ps|
  {
    if i == |ps| {
      assert ps[..i] == ps;
    } else {
      assert ps[..|ps| - 1][..i] == ps[..i];
      WakeAllLonger(s, ps[..|ps| - 1], i);
    }
  }

  /** The state after the stale readers and the first fresh one were taken off. */
  function AfterPop(s: State, c: Cid): State
    requires c in s.channels
  {
    var left := SkipStale(s.fibers, s.channels[c].readers);
    Put(s, c, s.channels[c].(readers := if left == [] then [] else left[1..]))
  }

  /** The state after an item was taken: the giver goes on and the taker gets the item. */
  function AfterTake(s: State, f: Fid, c: Cid, item: Value, writer: Option<Pending>): State
    requires f in s.fibers
  {
    var s2 := if writer.None? || writer.value.fiber !in s.fibers then s
              else Schedule(s, writer.value.fiber, Value.Channel(c), Ok, false);
    Schedule(s2, f, item, Ok, false)
  }

  lemma TakeSplits(s: State, f: Fid, c: Cid)
    requires f in s.fibers && c in s.channels && !s.channels[c].closed
    ensures var ch := s.channels[c];
            Take(s, f, c).s
            == if ch.items == [] then
              Put(s, c, ch.(readers := Enqueue(ch.readers, Pending(f, s.fibers[f].schedId)))).(current := None)
               else AfterTake(Put(s, c,
                 ch.(items := ch.items[1..], writers := if ch.writers == [] then [] else ch.writers[1..])), f, c,
                              ch.items[0], if ch.writers == [] then None else Some(ch.writers[0])).(current := None)
  {
  }

  /** A give is the search for a reader and what follows from it. */
  lemma GiveSplits(s: State, f: Fid, c: Cid, v: Value)
    requires f in s.fibers && c in s.channels && !s.channels[c].closed
    ensures var left := SkipStale(s.fibers, s.channels[c].readers);
            Give(s, f, c, v).s == if left == [] then Give(AfterPop(s, c), f, c, v).s
              else Wake(AfterPop(s, c), left[0].fiber, v, Ok).s
  {
    assert AfterPop(s, c).channels[c := s.channels[c]] == s.channels;
  }

  class EventLoop {
    var fibers: map<Fid, Fiber>
    const spawn: Queue<Task>
    const timers: TimerHeap
    var current: Option<Fid>
    /** The task queue was full, which ends the program. */
    var aborted: bool
    ghost var events: seq<Event>

    ghost predicate Valid()
      reads spawn, spawn.data, timers
    {
      spawn.Valid() && Heap(timers.tq)
    }

    /** A channel that shares nothing with the loop. */
    ghost predicate Beside(ch: Channel)
      reads this, spawn, ch, ch.Repr
    {
      ch.Valid() && ch.Repr !! {this, spawn, spawn.data, timers}
    }

    /** The state of the loop as a value, when the channels are these. */
    ghost function State(channels: map<Cid, Chan>): State
      requires Valid()
      reads this, spawn, spawn.data, timers
    {
      Scheduler.State(fibers, spawn.Contents(), channels, multiset(timers.tq), current)
    }

    constructor ()
      ensures Valid() && !aborted && State(map[]) == EMPTY && events == []
      ensures fresh(spawn) && fresh(spawn.data) && fresh(timers)
    {
      fibers, current, aborted, events := map[], None, false, [];
      spawn := new Queue<Task>();
      timers := new TimerHeap();
    }

    /** Queues a task for the fiber, unless a cancellation is already queued. */
    method ScheduleGeneral(f: Fid, v: Value, sig: Signal, soon: bool, ghost channels: map<Cid, Chan>)
      requires Valid() && f in fibers && !aborted
      modifies this`fibers, this`aborted, spawn, spawn.data
      ensures Valid() && (spawn.data == old(spawn.data) || fresh(spawn.data))
      ensures var s := Schedule(old(State(channels)), f, v, sig, soon);
              if |s.spawn| < MAX_CAPACITY then !aborted && State(channels) == s else aborted
    {
      spawn.Bounded();
      if fibers[f].canceled { return; }
      var id := fibers[f].schedId + 1;
      fibers := fibers[f := fibers[f].(schedId := id, canceled := sig.Error?, root := true)];
      aborted := PushTask(Task(f, v, sig, id), soon);
    }

    method PushTask(task: Task, soon: bool) returns (full: bool)
      requires Valid()
      modifies spawn, spawn.data
      ensures Valid() && (spawn.data == old(spawn.data) || fresh(spawn.data))
      ensures full <==> |old(spawn.Contents())| + 1 >= MAX_CAPACITY
      ensures !full ==> spawn.Contents() == if soon then [task] + old(spawn.Contents())
              else old(spawn.Contents()) + [task]
    {
      if soon {
        full := spawn.PushHead(task);
      } else {
        full := spawn.Push(task);
      }
    }

    /** Schedules a fiber on behalf of an entry that carries its present generation. */
    method WakeFiber(f: Fid, v: Value, sig: Signal, ghost channels: map<Cid, Chan>) returns (ghost woken: seq<Event>)
      requires Valid() && f in fibers && !aborted
      modifies this`fibers, this`aborted, spawn, spawn.data
      ensures Valid() && (spawn.data == old(spawn.data) || fresh(spawn.data))
      ensures var r := Wake(old(State(channels)), f, v, sig);
              woken == r.events && if |r.s.spawn| < MAX_CAPACITY then !aborted && State(channels) == r.s else aborted
    {
      woken := if fibers[f].canceled then [] else [Woken(f, fibers[f].schedId)];
      ScheduleGeneral(f, v, sig, false, channels);
    }

    /** A blocking give: the value goes to the first reader whose entry is fresh, or into the channel; the
        fiber waits when that is over its limit then. */
    method ChannelGive(c: Cid, ch: Channel, v: Value, ghost channels: map<Cid, Chan>) returns (panicked: bool)
      requires Valid() && Beside(ch) && current.Some? && current.value in fibers && !aborted
      requires c in channels && channels[c] == ch.View()
      modifies this, spawn, spawn.data, ch.Repr
      ensures Valid() && Beside(ch) && fresh(ch.Repr - old(ch.Repr))
      ensures spawn.data == old(spawn.data) || fresh(spawn.data)
      ensures var r := Give(old(State(channels)), old(current).value, c, v);
              if |r.s.spawn| < MAX_CAPACITY
              then !aborted && State(channels[c := ch.View()]) == r.s && events == old(events) + r.events
              else aborted
      ensures panicked <==> var chan := channels[c];
                            chan.closed || (SkipStale(old(fibers), chan.readers) == []
                              && |chan.items| + 1 >= MAX_CAPACITY)
    {
      ghost var r := Give(State(channels), current.value, c, v);
      spawn.Bounded();
      panicked := true;
      if ch.closed {
        assert channels[c := ch.View()] == channels;
      } else {
        panicked := GiveOpen(c, ch, v, channels);
      }
      events := events + r.events;
    }

    method GiveOpen(c: Cid, ch: Channel, v: Value, ghost channels: map<Cid, Chan>) returns (panicked: bool)
      requires Valid() && Beside(ch) && current.Some? && current.value in fibers && !aborted
      requires c in channels && channels[c] == ch.View() && !ch.closed
      modifies this`fibers, this`current, this`aborted, spawn, spawn.data, ch.Repr
      ensures Valid() && Beside(ch) && fresh(ch.Repr - old(ch.Repr))
      ensures spawn.data == old(spawn.data) || fresh(spawn.data)
      ensures var s := Give(old(State(channels)), old(current).value, c, v).s;
              if |s.spawn| < MAX_CAPACITY then !aborted && State(channels[c := ch.View()]) == s else aborted
      ensures panicked <==> SkipStale(old(fibers), channels[c].readers) == [] && |channels[c].items| + 1 >= MAX_CAPACITY
    {
      GiveSplits(State(channels), current.value, c, v);
      var reader := ch.PopReader(fibers);
      panicked := GiveTo(c, ch, reader, v, channels[c := ch.View()]);
    }

    /** The value goes to the reader, or into the channel where no reader waits. */
    method GiveTo(c: Cid, ch: Channel, reader: Option<Pending>, v: Value, ghost channels: map<Cid, Chan>)
      returns (panicked: bool)
      requires Valid() && Beside(ch) && current.Some? && current.value in fibers && !aborted
      requires c in channels && channels[c] == ch.View() && !ch.closed
      requires if reader.None? then channels[c].readers == [] else reader.value.fiber in fibers
      modifies this`fibers, this`current, this`aborted, spawn, spawn.data, ch.Repr
      ensures Valid() && Beside(ch) && fresh(ch.Repr - old(ch.Repr))
      ensures spawn.data == old(spawn.data) || fresh(spawn.data)
      ensures var s := if reader.None? then Give(old(State(channels)), old(current).value, c, v).s
                       else Wake(old(State(channels)), reader.value.fiber, v, Ok).s;
              if |s.spawn| < MAX_CAPACITY then !aborted && State(channels[c := ch.View()]) == s else aborted
      ensures panicked <==> reader.None? && |channels[c].items| + 1 >= MAX_CAPACITY
    {
      if reader.None? {
        panicked := GiveItem(c, ch, v, channels);
        spawn.Bounded();
      } else {
        panicked := false;
        ghost var woken := WakeFiber(reader.value.fiber, v, Ok, channels);
        assert channels[c := ch.View()] == channels;
      }
    }

    method GiveItem(c: Cid, ch: Channel, v: Value, ghost channels: map<Cid, Chan>) returns (panicked: bool)
      requires Valid() && Beside(ch) && current.Some? && current.value in fibers && !aborted
      requires c in channels && channels[c] == ch.View() && ch.View().readers == [] && !ch.closed
      modifies this`current, ch.Repr
      ensures Valid() && Beside(ch) && fresh(ch.Repr - old(ch.Repr))
      ensures spawn.data == old(spawn.data) || fresh(spawn.data)
      ensures panicked <==> |channels[c].items| + 1 >= MAX_CAPACITY
      ensures State(channels[c := ch.View()]) == Give(old(State(channels)), old(current).value, c, v).s
    {
      var blocks;
      panicked, blocks := ch.PushItem(v, Pending(current.value, fibers[current.value].schedId));
      if blocks { current := None; }
    }

    /** A blocking take: with no item the fiber queues itself as a reader. */
    method ChannelTake(c: Cid, ch: Channel, ghost channels: map<Cid, Chan>)
      requires Valid() && Beside(ch) && current.Some? && current.value in fibers && !aborted
      requires c in channels && channels[c] == ch.View()
      modifies this, spawn, spawn.data, ch.Repr
      ensures Valid() && Beside(ch) && fresh(ch.Repr - old(ch.Repr))
      ensures spawn.data == old(spawn.data) || fresh(spawn.data)
      ensures var r := Take(old(State(channels)), old(current).value, c);
              if |r.s.spawn| < MAX_CAPACITY
              then !aborted && State(channels[c := ch.View()]) == r.s && events == old(events) + r.events
              else aborted
    {
      ghost var r := Take(State(channels), current.value, c);
      if ch.closed {
        ScheduleGeneral(current.value, Nil, Ok, false, channels);
        assert channels[c := ch.View()] == channels;
      } else {
        TakeOpen(c, ch, channels);
      }
      current := None;
      events := events + r.events;
    }

    method TakeOpen(c: Cid, ch: Channel, ghost channels: map<Cid, Chan>)
      requires Valid() && Beside(ch) && current.Some? && current.value in fibers && !aborted
      requires c in channels && channels[c] == ch.View() && !ch.closed
      modifies this`fibers, this`aborted, spawn, spawn.data, ch.Repr
      ensures Valid() && Beside(ch) && fresh(ch.Repr - old(ch.Repr))
      ensures spawn.data == old(spawn.data) || fresh(spawn.data)
      ensures var s := Take(old(State(channels)), current.value, c).s;
              if |s.spawn| < MAX_CAPACITY then !aborted && State(channels[c := ch.View()]).(current := None) == s
                else aborted
    {
      var f := current.value;
      ghost var s := State(channels);
      TakeSplits(s, f, c);
      spawn.Bounded();
      var item, writer := ch.PopItem(Pending(f, fibers[f].schedId));
      if item.Some? {
        TakeItem(f, c, item.value, writer, channels[c := ch.View()]);
      }
    }

    /** The giver that waited may go on, and the taker gets the item. */
    method TakeItem(f: Fid, c: Cid, item: Value, writer: Option<Pending>, ghost channels: map<Cid, Chan>)
      requires Valid() && f in fibers && !aborted
      modifies this`fibers, this`aborted, spawn, spawn.data
      ensures Valid() && (spawn.data == old(spawn.data) || fresh(spawn.data))
      ensures var s := AfterTake(old(State(channels)), f, c, item, writer);
              if |s.spawn| < MAX_CAPACITY then !aborted && State(channels) == s else aborted
    {
      if writer.Some? && writer.value.fiber in fibers {
        ScheduleGeneral(writer.value.fiber, Value.Channel(c), Ok, false, channels);
        if aborted { return; }
      }
      ScheduleGeneral(f, item, Ok, false, channels);
    }

    method WakeOne(p: Pending, ghost channels: map<Cid, Chan>) returns (ghost woken: seq<Event>)
      requires Valid() && !aborted
      modifies this`fibers, this`aborted, spawn, spawn.data
      ensures Valid() && (spawn.data == old(spawn.data) || fresh(spawn.data))
      ensures var r := WakeIf(old(State(channels)), p);
              woken == r.events && if |r.s.spawn| < MAX_CAPACITY then !aborted && State(channels) == r.s else aborted
    {
      woken := [];
      spawn.Bounded();
      if p.fiber in fibers && p.schedId == fibers[p.fiber].schedId && !fibers[p.fiber].done {
        woken := WakeFiber(p.fiber, Nil, Ok, channels);
      }
    }

    /** The first i of the entries ps have been dealt with, starting from state s; p is the next one. */
    ghost predicate Waking(ch: Channel, reading: bool, channels: map<Cid, Chan>, s: State, chan: Chan, i: nat,
                           woken: seq<Event>, p: Option<Pending>)
      reads this, spawn, spawn.data, timers, ch, ch.Repr
    {
      var ps := Waiting(chan, reading);
      && Valid() && Beside(ch)
      && i <= |ps| && p == (if i == |ps| then None else Some(ps[i]))
      && ch.View() == WithWaiting(chan, reading, if i == |ps| then [] else ps[i + 1..])
      && if aborted then |WakeAll(s, ps).s.spawn| >= MAX_CAPACITY
           else Result(State(channels), woken) == WakeAll(s, ps[..i])
    }

    method WakeThenPop(p: Pending, ch: Channel, reading: bool, ghost channels: map<Cid, Chan>, ghost s: State,
                       ghost chan: Chan,
                       ghost i: nat, ghost woken: seq<Event>)
      returns (ghost woken': seq<Event>, next: Option<Pending>)
      requires Waking(ch, reading, channels, s, chan, i, woken, Some(p)) && !aborted
      modifies this`fibers, this`aborted, spawn, spawn.data, ch.Repr
      ensures Waking(ch, reading, channels, s, chan, i + 1, woken', next)
      ensures ch.Repr == old(ch.Repr) && (spawn.data == old(spawn.data) || fresh(spawn.data))
    {
      WakeAllNext(s, Waiting(chan, reading), i, Result(State(channels), woken));
      ghost var w := WakeOne(p, channels);
      next := ch.PopWaiting(reading);
      woken' := woken + w;
    }

    /** Wakes the fibers of a queue whose entries are fresh, emptying it. */
    method WakePending(ch: Channel, reading: bool, ghost channels: map<Cid, Chan>) returns (ghost woken: seq<Event>)
      requires Valid() && Beside(ch) && !aborted
      modifies this`fibers, this`aborted, spawn, spawn.data, ch.Repr
      ensures Valid() && Beside(ch) && ch.Repr == old(ch.Repr) && (spawn.data == old(spawn.data) || fresh(spawn.data))
      ensures var r := WakeAll(old(State(channels)), Waiting(old(ch.View()), reading));
              if |r.s.spawn| < MAX_CAPACITY
              then !aborted && State(channels) == r.s && woken == r.events
                && ch.View() == WithWaiting(old(ch.View()), reading, [])
              else aborted
    {
      ghost var s, chan, i := State(channels), ch.View(), 0;
      woken := [];
      var p := ch.PopWaiting(reading);
      while p.Some? && !aborted
        invariant Waking(ch, reading, channels, s, chan, i, woken, p)
        invariant ch.Repr == old(ch.Repr) && (spawn.data == old(spawn.data) || fresh(spawn.data))
        decreases |Waiting(chan, reading)| - i
      {
        woken, p := WakeThenPop(p.value, ch, reading, channels, s, chan, i, woken);
        i := i + 1;
      }
      assert Waiting(chan, reading)[..i] == Waiting(chan, reading) || aborted;
      spawn.Bounded();
    }

    method ChannelClose(c: Cid, ch: Channel, ghost channels: map<Cid, Chan>)
      requires Valid() && Beside(ch) && !aborted && c in channels && channels[c] == ch.View()
      modifies this, spawn, spawn.data, ch.Repr
      ensures Valid() && Beside(ch) && fresh(ch.Repr - old(ch.Repr))
      ensures spawn.data == old(spawn.data) || fresh(spawn.data)
      ensures var r := Close(old(State(channels)), c);
              if |r.s.spawn| < MAX_CAPACITY
              then !aborted && State(channels[c := ch.View()]) == r.s && events == old(events) + r.events
              else aborted
    {
      ghost var r := Close(State(channels), c);
      spawn.Bounded();
      if ch.closed {
        assert channels[c := ch.View()] == channels;
      } else {
        CloseOpen(c, ch, channels);
      }
      events := events + r.events;
    }

    method CloseOpen(c: Cid, ch: Channel, ghost channels: map<Cid, Chan>)
      requires Valid() && Beside(ch) && !aborted && c in channels && channels[c] == ch.View() && !ch.closed
      modifies this`fibers, this`aborted, spawn, spawn.data, ch.Repr
      ensures Valid() && Beside(ch) && fresh(ch.Repr - old(ch.Repr))
      ensures spawn.data == old(spawn.data) || fresh(spawn.data)
      ensures var s := Close(old(State(channels)), c).s;
              if |s.spawn| < MAX_CAPACITY then !aborted && State(channels[c := ch.View()]) == s else aborted
    {
      ghost var s, end := State(channels), channels[c := channels[c].(closed := true, readers := [], writers := [])];
      WakeAllLonger(WakeAll(Put(s, c, end[c]), channels[c].writers).s, channels[c].readers, 0);
      ch.closed := true;
      ghost var w := WakePending(ch, false, end);
      if aborted { return; }
      ghost var r := WakePending(ch, true, end);
    }

    /** A timeout that is due takes effect. */
    method ExpireTimeout(to: Timeout, ghost channels: map<Cid, Chan>) returns (ghost woken: seq<Event>)
      requires Valid() && !aborted
      modifies this`fibers, this`aborted, spawn, spawn.data
      ensures Valid() && (spawn.data == old(spawn.data) || fresh(spawn.data))
      ensures var r := Expire(old(State(channels)), to);
              woken == r.events && if |r.s.spawn| < MAX_CAPACITY then !aborted && State(channels) == r.s else aborted
    {
      woken := [];
      spawn.Bounded();
      if to.fiber !in fibers { return; }
      if to.watched.Some? {
        if to.watched.value in fibers && !fibers[to.watched.value].done && fibers[to.fiber].root {
          ScheduleGeneral(to.fiber, Message("deadline expired"), Error, false, channels);
        }
      } else if fibers[to.fiber].schedId == to.schedId {
        if to.isError {
          woken := WakeFiber(to.fiber, Message("timeout"), Error, channels);
        } else {
          woken := WakeFiber(to.fiber, Nil, Ok, channels);
        }
      }
    }

    /** The first half of a turn of the loop: every timeout that is due takes effect, earliest first. */
    method ExpireTimers(now: int, ghost channels: map<Cid, Chan>) returns (due: seq<Timeout>)
      requires Valid() && !aborted
      modifies this, spawn, spawn.data, timers
      ensures spawn.data == old(spawn.data) || fresh(spawn.data)
      ensures Valid() && Sorted(due) && multiset(due) + multiset(timers.tq) == old(multiset(timers.tq))
      ensures (forall to :: to in due ==> to.when_ <= now) && (forall to :: to in timers.tq ==> to.when_ > now)
      ensures var r := ExpireAll(old(State(channels)).(timeouts := multiset(timers.tq)), due);
              if |r.s.spawn| < MAX_CAPACITY then !aborted && State(channels) == r.s && events == old(events) + r.events
              else aborted
    {
      due := timers.Expire(now);
      ghost var out := ExpireDue(due, channels);
      events := events + out;
    }

    method ExpireDue(due: seq<Timeout>, ghost channels: map<Cid, Chan>) returns (ghost out: seq<Event>)
      requires Valid() && !aborted
      modifies this`fibers, this`aborted, spawn, spawn.data
      ensures Valid() && (spawn.data == old(spawn.data) || fresh(spawn.data))
      ensures var r := ExpireAll(old(State(channels)), due);
              if |r.s.spawn| < MAX_CAPACITY then !aborted && State(channels) == r.s && out == r.events else aborted
    {
      ghost var s := State(channels);
      out := [];
      for i := 0 to |due|
        invariant Valid() && (spawn.data == old(spawn.data) || fresh(spawn.data))
        invariant !aborted && Result(State(channels), out) == ExpireAll(s, due[..i])
      {
        ExpireAllNext(s, due, i, Result(State(channels), out));
        ghost var w := ExpireTimeout(due[i], channels);
        if aborted { return; }
        out := out + w;
      }
      assert due[..|due|] == due;
      spawn.Bounded();
    }

    /** One round of the second half: the next task runs if its fiber has not been scheduled since. */
    method RunNext(ghost channels: map<Cid, Chan>)
      requires Valid() && !aborted && spawn.Contents() != [] && spawn.Contents()[0].fiber in fibers
      modifies this, spawn`head
      ensures Valid() && !aborted
      ensures var r := RunTask(old(State(channels)));
              State(channels) == r.s && events == old(events) + r.events
    {
      var empty, task := spawn.Pop(Task(0, Nil, Ok, 0));
      fibers := fibers[task.fiber := fibers[task.fiber].(canceled := false)];
      if task.expected != fibers[task.fiber].schedId {
        events := events + [Dropped(task)];
      } else if fibers[task.fiber].done {
        events := events + [Refused(task)];
      } else {
        current := Some(task.fiber);
        events := events + [Resumed(task)];
      }
    }
  }
}
