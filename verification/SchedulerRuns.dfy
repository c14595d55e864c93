/** What every run of the scheduler keeps. */
module SchedulerRuns {
  import opened Options
  import opened RingBuffer
  import opened TimerHeap
  import opened Scheduler

  ghost predicate TaskOk(fibers: map<Fid, Fiber>, t: Task) {
    t.fiber in fibers && t.expected <= fibers[t.fiber].schedId
  }

  /** Queued tasks of one fiber have different generations, none beyond that of the fiber. */
  ghost predicate Tasks(fibers: map<Fid, Fiber>, spawn: seq<Task>) {
    && (forall i {:trigger spawn[i]} :: 0 <= i < |spawn| ==> TaskOk(fibers, spawn[i]))
    && (forall i, j :: 0 <= i < j < |spawn| && spawn[i].fiber == spawn[j].fiber ==>
         spawn[i].expected != spawn[j].expected)
  }

  /** A task has left the queue. */
  predicate Settled(e: Event) {
    e.Resumed? || e.Refused? || e.Dropped?
  }

  /** What was seen of a fiber lies before its generation, and the task of a generation that has left the
      queue is not there any more. */
  ghost predicate EventOk(fibers: map<Fid, Fiber>, spawn: seq<Task>, e: Event) {
    && (e.Woken? ==> e.f in fibers && e.id < fibers[e.f].schedId)
    && (Settled(e) ==> TaskOk(fibers, e.task) && forall t :: t in spawn && t.fiber == e.task.fiber ==>
         t.expected != e.task.expected)
  }

  /** The same generation of the same fiber. */
  predicate Alike(d: Event, e: Event) {
    || (d.Woken? && d == e)
    || (Settled(d) && Settled(e) && d.task.fiber == e.task.fiber && d.task.expected == e.task.expected)
  }

  /** No generation of a fiber is woken twice, and its task leaves the queue once. */
  ghost predicate Once(tr: seq<Event>) {
    forall i, j :: 0 <= i < j < |tr| ==> !Alike(tr[i], tr[j])
  }

  ghost predicate Core(fibers: map<Fid, Fiber>, spawn: seq<Task>, tr: seq<Event>) {
    && Tasks(fibers, spawn) && Once(tr)
    && forall i {:trigger tr[i]} :: 0 <= i < |tr| ==> EventOk(fibers, spawn, tr[i])
  }

  lemma CoreSchedule(s: State, f: Fid, v: Value, sig: Signal, soon: bool, tr: seq<Event>)
    requires f in s.fibers && Core(s.fibers, s.spawn, tr)
    ensures var s' := Schedule(s, f, v, sig, soon); Core(s'.fibers, s'.spawn, tr)
  {
  }

  /** Events that say nothing about generations. */
  lemma CoreQuiet(fibers: map<Fid, Fiber>, spawn: seq<Task>, tr: seq<Event>, more: seq<Event>)
    requires Core(fibers, spawn, tr) && forall e :: e in more ==> !e.Woken? && !Settled(e)
    ensures Core(fibers, spawn, tr + more)
  {
  }

  lemma CoreWake(s: State, f: Fid, v: Value, sig: Signal, tr: seq<Event>)
    requires f in s.fibers && Core(s.fibers, s.spawn, tr)
    ensures var r := Wake(s, f, v, sig); Core(r.s.fibers, r.s.spawn, tr + r.events)
  {
    CoreSchedule(s, f, v, sig, false, tr);
    if s.fibers[f].canceled {
      assert tr + [] == tr;
    } else {
      var e := Woken(f, s.fibers[f].schedId);
      assert forall i :: 0 <= i < |tr| ==> EventOk(s.fibers, s.spawn, tr[i]) && tr[i] != e;
    }
  }

  lemma {:induction false} CoreWakeAll(s: State, ps: seq<Pending>, tr: seq<Event>)
    requires Core(s.fibers, s.spawn, tr)
    ensures var r := WakeAll(s, ps); Core(r.s.fibers, r.s.spawn, tr + r.events)
  {
    if ps == [] {
      assert tr + [] == tr;
    } else {
      CoreWakeAll(s, ps[..|ps| - 1], tr);
      var r, p := WakeAll(s, ps[..|ps| - 1]), ps[|ps| - 1];
      if Fresh(r.s.fibers, p) && !r.s.fibers[p.fiber].done {
        CoreWake(r.s, p.fiber, Nil, Ok, tr + r.events);
        var w := Wake(r.s, p.fiber, Nil, Ok);
        assert tr + (r.events + w.events) == tr + r.events + w.events;
      }
    }
  }

  /** Only the flags of a fiber change. */
  lemma CoreFlags(fibers: map<Fid, Fiber>, spawn: seq<Task>, tr: seq<Event>, f: Fid, fiber: Fiber)
    requires Core(fibers, spawn, tr) && f in fibers && fiber.schedId == fibers[f].schedId
    ensures Core(fibers[f := fiber], spawn, tr)
  {
  }

  lemma CoreNew(fibers: map<Fid, Fiber>, spawn: seq<Task>, tr: seq<Event>, f: Fid, fiber: Fiber)
    requires Core(fibers, spawn, tr) && f !in fibers
    ensures Core(fibers[f := fiber], spawn, tr)
  {
  }

  lemma CoreRun(s: State, tr: seq<Event>)
    requires s.spawn != [] && s.spawn[0].fiber in s.fibers && Core(s.fibers, s.spawn, tr)
    ensures var r := RunTask(s); Core(r.s.fibers, r.s.spawn, tr + r.events)
  {
    var task, rest := s.spawn[0], s.spawn[1..];
    assert Core(s.fibers, rest, tr);
    CoreFlags(s.fibers, rest, tr, task.fiber, s.fibers[task.fiber].(canceled := false));
    var e := RunTask(s).events[0];
    assert forall i :: 0 <= i < |tr| ==> EventOk(s.fibers, s.spawn, tr[i]) && !Alike(tr[i], e);
    assert forall t :: t in rest && t.fiber == task.fiber ==> t.expected != task.expected;
  }

  lemma CoreGive(s: State, f: Fid, c: Cid, v: Value, tr: seq<Event>)
    requires f in s.fibers && c in s.channels && Core(s.fibers, s.spawn, tr)
    ensures var r := Give(s, f, c, v); Core(r.s.fibers, r.s.spawn, tr + r.events)
  {
    var ch := s.channels[c];
    var r := Give(s, f, c, v);
    if ch.closed || SkipStale(s.fibers, ch.readers) == [] {
      CoreQuiet(s.fibers, s.spawn, tr, r.events);
    } else {
      var readers := SkipStale(s.fibers, ch.readers);
      var w := Wake(Put(s, c, ch.(readers := readers[1..])), readers[0].fiber, v, Ok);
      var quiet := [Given(c, v), if w.events == [] then Lost(c, v) else Handed(c, v, TaskFor(s, readers[0].fiber, v))];
      CoreQuiet(s.fibers, s.spawn, tr, quiet);
      CoreWake(Put(s, c, ch.(readers := readers[1..])), readers[0].fiber, v, Ok, tr + quiet);
      assert tr + (quiet + w.events) == tr + quiet + w.events;
    }
  }

  lemma CoreTake(s: State, f: Fid, c: Cid, tr: seq<Event>)
    requires f in s.fibers && c in s.channels && Core(s.fibers, s.spawn, tr)
    ensures var r := Take(s, f, c); Core(r.s.fibers, r.s.spawn, tr + r.events)
  {
    var ch := s.channels[c];
    var r := Take(s, f, c);
    if ch.closed {
      CoreSchedule(s, f, Nil, Ok, false, tr);
    } else if ch.items != [] {
      var s1 := Put(s, c, ch.(items := ch.items[1..], writers := if ch.writers == [] then [] else ch.writers[1..]));
      if ch.writers != [] && ch.writers[0].fiber in s.fibers {
        CoreSchedule(s1, ch.writers[0].fiber, Channel(c), Ok, false, tr);
        CoreSchedule(Schedule(s1, ch.writers[0].fiber, Channel(c), Ok, false), f, ch.items[0], Ok, false, tr);
      } else {
        CoreSchedule(s1, f, ch.items[0], Ok, false, tr);
      }
    }
    CoreQuiet(r.s.fibers, r.s.spawn, tr, r.events);
  }

  lemma CoreClose(s: State, c: Cid, tr: seq<Event>)
    requires c in s.channels && Core(s.fibers, s.spawn, tr)
    ensures var r := Close(s, c); Core(r.s.fibers, r.s.spawn, tr + r.events)
  {
    var ch := s.channels[c];
    if ch.closed {
      assert tr + [] == tr;
    } else {
      var s1 := Put(s, c, ch.(closed := true, readers := [], writers := []));
      CoreWakeAll(s1, ch.writers, tr);
      var w := WakeAll(s1, ch.writers);
      CoreWakeAll(w.s, ch.readers, tr + w.events);
      assert tr + (w.events + WakeAll(w.s, ch.readers).events) == tr + w.events + WakeAll(w.s, ch.readers).events;
    }
  }

  lemma CoreExpire(s: State, to: Timeout, tr: seq<Event>)
    requires Core(s.fibers, s.spawn, tr)
    ensures var r := Expire(s, to); Core(r.s.fibers, r.s.spawn, tr + r.events)
  {
    assert tr + [] == tr;
    if to.fiber in s.fibers {
      if to.watched.Some? {
        CoreSchedule(s, to.fiber, Message("deadline expired"), Error, false, tr);
      } else if to.isError {
        CoreWake(s, to.fiber, Message("timeout"), Error, tr);
      } else {
        CoreWake(s, to.fiber, Nil, Ok, tr);
      }
    }
  }

  lemma CoreStep(s: State, a: Action, tr: seq<Event>)
    requires Enabled(s, a) && Core(s.fibers, s.spawn, tr)
    ensures var r := Step(s, a); Core(r.s.fibers, r.s.spawn, tr + r.events)
  {
    assert tr + [] == tr;
    match a {
      case Go(g) =>
        var fiber := Fiber(0, false, false, false);
        CoreNew(s.fibers, s.spawn, tr, g, fiber);
        CoreSchedule(s.(fibers := s.fibers[g := fiber]), g, Nil, Ok, false, tr);
      case GiveTo(c, v) => CoreGive(s, s.current.value, c, v, tr);
      case TakeFrom(c) => CoreTake(s, s.current.value, c, tr);
      case CloseChannel(c) => CoreClose(s, c, tr);
      case Cancel(g) => CoreSchedule(s, g, Message("cancel"), Error, false, tr);
      case Rewake(g, soon) => CoreSchedule(s, g, Nil, Ok, soon, tr);
      case Finish => CoreFlags(s.fibers, s.spawn, tr, s.current.value, s.fibers[s.current.value].(done := true));
      case TimeUp(to) => CoreExpire(s.(timeouts := s.timeouts - multiset{to}), to, tr);
      case Run => CoreRun(s, tr);
      case NewChannel(_, _) =>
      case AddTimeout(_) =>
      case Await =>
    }
  }

  /** The values that went into a channel, and those that came out of it. */
  function GivenTo(tr: seq<Event>, c: Cid): seq<Value> {
    if tr == [] then []
    else
      var e := tr[|tr| - 1];
      GivenTo(tr[..|tr| - 1], c) + if e.Given? && e.c == c then [e.v] else []
  }

  function OutOf(tr: seq<Event>, c: Cid): seq<Value> {
    if tr == [] then []
    else
      var e := tr[|tr| - 1];
      OutOf(tr[..|tr| - 1], c) + if (e.Handed? || e.Lost?) && e.c == c then [e.v] else []
  }

  lemma {:induction false} Flows(tr: seq<Event>, more: seq<Event>, c: Cid)
    ensures GivenTo(tr + more, c) == GivenTo(tr, c) + GivenTo(more, c)
    ensures OutOf(tr + more, c) == OutOf(tr, c) + OutOf(more, c)
  {
    if more == [] {
      assert tr + more == tr;
    } else {
      var rest := more[..|more| - 1];
      assert (tr + more)[..|tr + more| - 1] == tr + rest;
      Flows(tr, rest, c);
    }
  }

  ghost predicate Silent(events: seq<Event>, c: Cid) {
    forall i :: 0 <= i < |events| && (events[i].Given? || events[i].Handed? || events[i].Lost?) ==> events[i].c != c
  }

  lemma {:induction false} NoFlow(tr: seq<Event>, c: Cid)
    requires Silent(tr, c)
    ensures GivenTo(tr, c) == [] && OutOf(tr, c) == []
  {
    if tr != [] {
      NoFlow(tr[..|tr| - 1], c);
    }
  }

  lemma FlowOne(e: Event, c: Cid)
    ensures GivenTo([e], c) == (if e.Given? && e.c == c then [e.v] else [])
    ensures OutOf([e], c) == (if (e.Handed? || e.Lost?) && e.c == c then [e.v] else [])
  {
    assert [e][..0] == [];
  }

  /** Nobody waits to read while there are items, and the writers that wait are those beyond the limit. */
  ghost predicate ShapeOk(ch: Chan) {
    && (ch.items == [] || ch.readers == [])
    && |ch.items| < MAX_CAPACITY
    && if ch.closed then ch.readers == [] && ch.writers == []
       else |ch.writers| == if |ch.items| > ch.limit then |ch.items| - ch.limit else 0
  }

  /** What came out of a channel followed by its items is what went in. */
  ghost predicate FlowOk(items: seq<Value>, tr: seq<Event>, c: Cid) {
    OutOf(tr, c) + items == GivenTo(tr, c)
  }

  ghost function ItemsOf(s: State, c: Cid): seq<Value> {
    if c in s.channels then s.channels[c].items else []
  }

  lemma FlowMore(items: seq<Value>, items': seq<Value>, tr: seq<Event>, more: seq<Event>, c: Cid)
    requires FlowOk(items, tr, c) && OutOf(more, c) + items' == items + GivenTo(more, c)
    ensures FlowOk(items', tr + more, c)
  {
    Flows(tr, more, c);
    assert OutOf(tr, c) + OutOf(more, c) + items' == OutOf(tr, c) + (OutOf(more, c) + items');
    assert OutOf(tr, c) + (items + GivenTo(more, c)) == OutOf(tr, c) + items + GivenTo(more, c);
  }

  lemma ShapeGive(s: State, f: Fid, c: Cid, v: Value)
    requires f in s.fibers && c in s.channels && ShapeOk(s.channels[c])
    ensures ShapeOk(Give(s, f, c, v).s.channels[c])
  {
    var ch := s.channels[c];
    if SkipStale(s.fibers, ch.readers) != [] {
      assert ch.readers != [];
    }
  }

  lemma ShapeTake(s: State, f: Fid, c: Cid)
    requires f in s.fibers && c in s.channels && ShapeOk(s.channels[c])
    ensures ShapeOk(Take(s, f, c).s.channels[c])
  {
  }

  /** Of what a give or take makes visible, a channel keeps the balance. */
  lemma BalanceGive(s: State, f: Fid, c: Cid, v: Value)
    requires f in s.fibers && c in s.channels && ShapeOk(s.channels[c])
    ensures var r := Give(s, f, c, v);
            OutOf(r.events, c) + r.s.channels[c].items == s.channels[c].items + GivenTo(r.events, c)
  {
    var ch := s.channels[c];
    var r := Give(s, f, c, v);
    var readers := SkipStale(s.fibers, ch.readers);
    FlowOne(Given(c, v), c);
    if !ch.closed && readers != [] {
      assert ch.readers != [] && ch.items == [];
      var w := Wake(Put(s, c, ch.(readers := readers[1..])), readers[0].fiber, v, Ok);
      BalanceHanded(c, v, r.events[1], w.events);
      assert r.events == [Given(c, v), r.events[1]] + w.events;
    }
  }

  lemma BalanceHanded(c: Cid, v: Value, e: Event, woken: seq<Event>)
    requires (e.Lost? || e.Handed?) && e.c == c && e.v == v
    requires Silent(woken, c)
    ensures GivenTo([Given(c, v), e] + woken, c) == [v] == OutOf([Given(c, v), e] + woken, c)
  {
    FlowOne(Given(c, v), c);
    FlowOne(e, c);
    assert [Given(c, v), e] == [Given(c, v)] + [e];
    Flows([Given(c, v)], [e], c);
    Flows([Given(c, v), e], woken, c);
    NoFlow(woken, c);
  }

  lemma TakeOne(s: State, f: Fid, c: Cid)
    requires f in s.fibers && c in s.channels
    ensures var ch, r := s.channels[c], Take(s, f, c);
            c in r.s.channels
            && if ch.closed || ch.items == [] then r.events == [] && r.s.channels[c].items == ch.items
               else r.s.channels[c].items == ch.items[1..]
                    && |r.events| == 1 && (r.events[0].Lost? || r.events[0].Handed?)
                    && r.events[0].c == c && r.events[0].v == ch.items[0]
  {
  }

  lemma BalanceTake(s: State, f: Fid, c: Cid)
    requires f in s.fibers && c in s.channels
    ensures var r := Take(s, f, c);
            OutOf(r.events, c) + r.s.channels[c].items == s.channels[c].items + GivenTo(r.events, c)
  {
    TakeOne(s, f, c);
    var items, r := s.channels[c].items, Take(s, f, c);
    if r.events == [] {
      BalanceNothing(items);
    } else {
      FlowOne(r.events[0], c);
      BalanceFirst(items);
    }
  }

  lemma BalanceNothing(items: seq<Value>)
    ensures [] + items == items + []
  {
  }

  lemma BalanceFirst(items: seq<Value>)
    requires items != []
    ensures [items[0]] + items[1..] == items + []
  {
  }

  lemma {:induction false} WakeAllChannels(s: State, ps: seq<Pending>, c: Cid)
    ensures WakeAll(s, ps).s.channels == s.channels && WakeAll(s, ps).s.current == s.current
    ensures Silent(WakeAll(s, ps).events, c)
  {
    if ps != [] {
      WakeAllChannels(s, ps[..|ps| - 1], c);
    }
  }

  lemma CloseChannels(s: State, d: Cid, c: Cid)
    requires d in s.channels
    ensures var r := Close(s, d);
            && Silent(r.events, c) && r.s.channels.Keys == s.channels.Keys
            && (c in s.channels && (c != d || s.channels[d].closed) ==> r.s.channels[c] == s.channels[c])
            && (c == d && !s.channels[d].closed ==>
                 r.s.channels[c] == s.channels[c].(closed := true, readers := [], writers := []))
  {
    var ch := s.channels[d];
    if !ch.closed {
      var s1 := Put(s, d, ch.(closed := true, readers := [], writers := []));
      WakeAllChannels(s1, ch.writers, c);
      WakeAllChannels(WakeAll(s1, ch.writers).s, ch.readers, c);
    }
  }

  /** Steps other than a give or take on the channel itself. */
  lemma OtherChannel(s: State, a: Action, c: Cid)
    requires Enabled(s, a) && !(a.GiveTo? && a.c == c) && !(a.TakeFrom? && a.c == c) && !a.CloseChannel?
    requires !a.NewChannel?
    ensures var r := Step(s, a);
            && Silent(r.events, c) && (c in s.channels <==> c in r.s.channels)
            && (c in s.channels ==> r.s.channels[c] == s.channels[c])
  {
    if a.GiveTo? {
      OtherGive(s, s.current.value, a.c, a.v, c);
    }
  }

  lemma OtherGive(s: State, f: Fid, d: Cid, v: Value, c: Cid)
    requires f in s.fibers && d in s.channels && c != d
    ensures var r := Give(s, f, d, v);
            && Silent(r.events, c) && (c in s.channels <==> c in r.s.channels)
            && (c in s.channels ==> r.s.channels[c] == s.channels[c])
  {
  }

  /** What the channels keep through every step. */
  ghost predicate ChannelOk(s: State, tr: seq<Event>, c: Cid) {
    (c in s.channels ==> ShapeOk(s.channels[c])) && FlowOk(ItemsOf(s, c), tr, c)
  }

  lemma ChannelQuiet(s: State, a: Action, tr: seq<Event>, c: Cid)
    requires Enabled(s, a) && ChannelOk(s, tr, c) && !(a.GiveTo? && a.c == c) && !(a.TakeFrom? && a.c == c)
    ensures var r := Step(s, a); ChannelOk(r.s, tr + r.events, c)
  {
    var r := Step(s, a);
    if a.CloseChannel? {
      CloseChannels(s, a.c, c);
    } else if !a.NewChannel? {
      OtherChannel(s, a, c);
    }
    NoFlow(r.events, c);
    assert ItemsOf(r.s, c) == ItemsOf(s, c);
    FlowMore(ItemsOf(s, c), ItemsOf(r.s, c), tr, r.events, c);
  }

  lemma ChannelStep(s: State, a: Action, tr: seq<Event>, c: Cid)
    requires Enabled(s, a) && ChannelOk(s, tr, c)
    ensures var r := Step(s, a); ChannelOk(r.s, tr + r.events, c)
  {
    if a.GiveTo? && a.c == c {
      var r := Give(s, s.current.value, c, a.v);
      ShapeGive(s, s.current.value, c, a.v);
      BalanceGive(s, s.current.value, c, a.v);
      FlowMore(ItemsOf(s, c), ItemsOf(r.s, c), tr, r.events, c);
    } else if a.TakeFrom? && a.c == c {
      var r := Take(s, s.current.value, c);
      ShapeTake(s, s.current.value, c);
      BalanceTake(s, s.current.value, c);
      FlowMore(ItemsOf(s, c), ItemsOf(r.s, c), tr, r.events, c);
    } else {
      ChannelQuiet(s, a, tr, c);
    }
  }

  const EMPTY := State(map[], [], map[], multiset{}, None)

  /** The state and the events after a sequence of steps; None when one of them cannot be taken. */
  function Execute(actions: seq<Action>): Option<Result> {
    if actions == [] then Some(Result(EMPTY, []))
    else match Execute(actions[..|actions| - 1])
         case None => None
         case Some(r) =>
           var a := actions[|actions| - 1];
           if Enabled(r.s, a) then Some(Result(Step(r.s, a).s, r.events + Step(r.s, a).events)) else None
  }

  lemma ExecuteNext(actions: seq<Action>, a: Action)
    requires Execute(actions).Some? && Enabled(Execute(actions).value.s, a)
    ensures var r := Execute(actions).value;
            Execute(actions + [a]) == Some(Result(Step(r.s, a).s, r.events + Step(r.s, a).events))
  {
    assert (actions + [a])[..|actions|] == actions;
  }

  lemma {:induction false} RunsKeep(actions: seq<Action>)
    requires Execute(actions).Some?
    ensures var r := Execute(actions).value;
            Core(r.s.fibers, r.s.spawn, r.events)
              && forall c {:trigger ChannelOk(r.s, r.events, c)} :: ChannelOk(r.s, r.events, c)
  {
    if actions != [] {
      var r, a := Execute(actions[..|actions| - 1]).value, actions[|actions| - 1];
      RunsKeep(actions[..|actions| - 1]);
      CoreStep(r.s, a, r.events);
      forall c {
        ChannelStep(r.s, a, r.events, c);
      }
    }
  }

  /** A queued task that would resume its fiber. */
  predicate Runnable(s: State, t: Task) {
    t.fiber in s.fibers && t.expected == s.fibers[t.fiber].schedId
  }

  /** In every run at most one queued task of a fiber is runnable. */
  lemma OneRunnable(actions: seq<Action>, i: nat, j: nat)
    requires Execute(actions).Some?
    requires var s := Execute(actions).value.s;
             i < j < |s.spawn| && s.spawn[i].fiber == s.spawn[j].fiber && Runnable(s, s.spawn[i])
    ensures var s := Execute(actions).value.s; !Runnable(s, s.spawn[j])
  {
    RunsKeep(actions);
  }

  /** In every run the entries tagged with one generation of a fiber wake it at most once, and the task
      of a generation of a fiber leaves the queue at most once, to resume it or not. */
  lemma WokenOnce(actions: seq<Action>, i: nat, j: nat)
    requires Execute(actions).Some?
    requires var tr := Execute(actions).value.events;
             i < j < |tr| && ((tr[i].Woken? && tr[j].Woken?) || (Settled(tr[i]) && Settled(tr[j])))
    ensures var tr := Execute(actions).value.events;
            if tr[i].Woken? then tr[i].f != tr[j].f || tr[i].id != tr[j].id
            else tr[i].task.fiber != tr[j].task.fiber || tr[i].task.expected != tr[j].task.expected
  {
    RunsKeep(actions);
    var tr := Execute(actions).value.events;
    assert !Alike(tr[i], tr[j]);
  }

  /** In every run a channel either has no items or no waiting readers, as many waiting writers as items
      beyond its limit, and hands out what was given in the order it was given. */
  lemma ChannelsInOrder(actions: seq<Action>, c: Cid)
    requires Execute(actions).Some? && c in Execute(actions).value.s.channels
    ensures var r := Execute(actions).value;
            var ch := r.s.channels[c];
            && (ch.items == [] || ch.readers == [])
            && (!ch.closed ==> |ch.writers| == if |ch.items| > ch.limit then |ch.items| - ch.limit else 0)
            && OutOf(r.events, c) + ch.items == GivenTo(r.events, c)
  {
    RunsKeep(actions);
    var r := Execute(actions).value;
    assert ChannelOk(r.s, r.events, c);
  }

  /** Every reader that waits would accept a value, and the fiber that runs is not to be cancelled. */
  ghost predicate Attentive(s: State) {
    && (s.current.Some? && s.current.value in s.fibers ==> !s.fibers[s.current.value].canceled)
    && forall c, p {:trigger p in s.channels[c].readers} :: c in s.channels && p in s.channels[c].readers ==>
         Listening(s.fibers, p)
  }

  ghost predicate Listening(fibers: map<Fid, Fiber>, p: Pending) {
    p.fiber in fibers && p.schedId <= fibers[p.fiber].schedId
      && (fibers[p.fiber].canceled ==> p.schedId < fibers[p.fiber].schedId)
  }

  /** The running fiber cancels itself. */
  predicate SelfCancel(s: State, a: Action) {
    a.Cancel? && s.current == Some(a.g)
  }

  lemma AttentiveSchedule(s: State, f: Fid, v: Value, sig: Signal, soon: bool)
    requires f in s.fibers && Attentive(s) && (sig.Error? ==> s.current != Some(f))
    ensures Attentive(Schedule(s, f, v, sig, soon))
  {
  }

  lemma {:induction false} AttentiveWakeAll(s: State, ps: seq<Pending>)
    requires Attentive(s)
    ensures Attentive(WakeAll(s, ps).s)
  {
    if ps != [] {
      AttentiveWakeAll(s, ps[..|ps| - 1]);
      var r, p := WakeAll(s, ps[..|ps| - 1]), ps[|ps| - 1];
      if Fresh(r.s.fibers, p) {
        AttentiveSchedule(r.s, p.fiber, Nil, Ok, false);
      }
    }
  }

  lemma {:induction false} SkipStaleIn(fibers: map<Fid, Fiber>, ps: seq<Pending>)
    ensures forall p :: p in SkipStale(fibers, ps) ==> p in ps
  {
    if ps != [] && !Fresh(fibers, ps[0]) {
      SkipStaleIn(fibers, ps[1..]);
    }
  }

  lemma AttentiveGive(s: State, f: Fid, c: Cid, v: Value)
    requires f in s.fibers && c in s.channels && Attentive(s)
    ensures var r := Give(s, f, c, v); Attentive(r.s) && forall e :: e in r.events ==> !e.Lost?
  {
    var ch := s.channels[c];
    SkipStaleIn(s.fibers, ch.readers);
    var readers := SkipStale(s.fibers, ch.readers);
    if !ch.closed && readers != [] {
      assert readers[0] in ch.readers;
      var s1 := Put(s, c, ch.(readers := readers[1..]));
      assert forall p :: p in readers[1..] ==> p in readers;
      AttentiveSchedule(s1, readers[0].fiber, v, Ok, false);
    }
  }

  lemma AttentiveTake(s: State, f: Fid, c: Cid)
    requires f in s.fibers && c in s.channels && Attentive(s) && s.current == Some(f)
    ensures var r := Take(s, f, c); Attentive(r.s) && forall e :: e in r.events ==> !e.Lost?
  {
    var ch := s.channels[c];
    if ch.closed {
      AttentiveSchedule(s, f, Nil, Ok, false);
    } else if ch.items != [] {
      var s1 := Put(s, c, ch.(items := ch.items[1..], writers := if ch.writers == [] then [] else ch.writers[1..]));
      if ch.writers != [] && ch.writers[0].fiber in s.fibers {
        AttentiveSchedule(s1, ch.writers[0].fiber, Channel(c), Ok, false);
        AttentiveSchedule(Schedule(s1, ch.writers[0].fiber, Channel(c), Ok, false), f, ch.items[0], Ok, false);
      } else {
        AttentiveSchedule(s1, f, ch.items[0], Ok, false);
      }
    }
  }

  lemma AttentiveStep(s: State, a: Action)
    requires Enabled(s, a) && Attentive(s) && !SelfCancel(s, a)
    ensures Attentive(Step(s, a).s) && forall e :: e in Step(s, a).events ==> !e.Lost?
  {
    match a {
      case Go(g) =>
        AttentiveSchedule(s.(fibers := s.fibers[g := Fiber(0, false, false, false)]), g, Nil, Ok, false);
      case GiveTo(c, v) => AttentiveGive(s, s.current.value, c, v);
      case TakeFrom(c) => AttentiveTake(s, s.current.value, c);
      case CloseChannel(c) => AttentiveClose(s, c);
      case Cancel(g) => AttentiveSchedule(s, g, Message("cancel"), Error, false);
      case Rewake(g, soon) => AttentiveSchedule(s, g, Nil, Ok, soon);
      case TimeUp(to) => AttentiveExpire(s.(timeouts := s.timeouts - multiset{to}), to);
      case Run =>
      case Finish =>
      case NewChannel(_, _) =>
      case AddTimeout(_) =>
      case Await =>
    }
  }

  lemma AttentiveClose(s: State, c: Cid)
    requires c in s.channels && Attentive(s)
    ensures var r := Close(s, c); Attentive(r.s) && forall e :: e in r.events ==> !e.Lost?
  {
    var ch := s.channels[c];
    if !ch.closed {
      var s1 := Put(s, c, ch.(closed := true, readers := [], writers := []));
      AttentiveWakeAll(s1, ch.writers);
      AttentiveWakeAll(WakeAll(s1, ch.writers).s, ch.readers);
      WakesOnly(s1, ch.writers);
      WakesOnly(WakeAll(s1, ch.writers).s, ch.readers);
    }
  }

  lemma {:induction false} WakesOnly(s: State, ps: seq<Pending>)
    ensures forall e :: e in WakeAll(s, ps).events ==> e.Woken?
  {
    if ps != [] {
      WakesOnly(s, ps[..|ps| - 1]);
    }
  }

  lemma AttentiveExpire(s: State, to: Timeout)
    requires s.current.None? && Attentive(s)
    ensures var r := Expire(s, to); Attentive(r.s) && forall e :: e in r.events ==> !e.Lost?
  {
    if to.fiber in s.fibers {
      AttentiveSchedule(s, to.fiber, Message("deadline expired"), Error, false);
      AttentiveSchedule(s, to.fiber, Message("timeout"), Error, false);
      AttentiveSchedule(s, to.fiber, Nil, Ok, false);
    }
  }

  /** No running fiber ever cancels itself. */
  ghost predicate Gentle(actions: seq<Action>) {
    forall n :: 0 <= n < |actions| && Execute(actions[..n]).Some? ==>
      !SelfCancel(Execute(actions[..n]).value.s, actions[n])
  }

  /** Without a fiber that cancels itself, no channel gives a value out to nobody. */
  lemma {:induction false} LostNeedsSelfCancel(actions: seq<Action>)
    requires Execute(actions).Some? && Gentle(actions)
    ensures Attentive(Execute(actions).value.s) && forall e :: e in Execute(actions).value.events ==> !e.Lost?
  {
    if actions != [] {
      var before := actions[..|actions| - 1];
      assert forall n :: 0 <= n < |before| ==> before[..n] == actions[..n];
      LostNeedsSelfCancel(before);
      AttentiveStep(Execute(before).value.s, actions[|actions| - 1]);
    }
  }
}
