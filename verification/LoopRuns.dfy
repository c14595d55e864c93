/** Whole runs of the event loop that is updated in place: each is a run of the scheduler. */
module LoopRuns {
  import opened Options
  import opened RingBuffer
  import opened TimerHeap
  import opened Scheduler
  import opened SchedulerRuns
  import opened Channels
  import opened EventLoop

  /** What happens to the loop: a fiber or other code does something, a task runs, or time goes by. */
  datatype Input = Does(a: Action) | Clock(now: int)

  /** The channels, but for c, are well formed in a set of objects and share nothing. */
  ghost predicate Together(chans: map<Cid, Channel>, c: Option<Cid>, all: set<object>)
    reads all
  {
    && (forall d :: d in chans && c != Some(d) ==> chans[d] in all && chans[d].Repr <= all && chans[d].Valid())
    && (forall d, e :: d in chans && e in chans && c != Some(d) && c != Some(e) && d != e ==>
          chans[d].Repr !! chans[e].Repr)
  }

  /** What they hold then. */
  ghost function Held(chans: map<Cid, Channel>, c: Option<Cid>, all: set<object>): Option<map<Cid, Chan>>
    reads all
  {
    if Together(chans, c, all) then Some(map d | d in chans && c != Some(d) :: chans[d].View()) else None
  }

  /** A loop that shares nothing with the objects of its channels, which hold what the values say. */
  ghost predicate Sound(loop: EventLoop, chans: map<Cid, Channel>, views: map<Cid, Chan>, all: set<object>)
    reads loop, loop.spawn, loop.spawn.data, loop.timers, all
  {
    && loop.Valid() && all !! {loop, loop.spawn, loop.spawn.data, loop.timers}
    && Held(chans, None, all) == Some(views)
  }

  /** Values for just these channels. */
  ghost predicate Describes(chans: map<Cid, Channel>, c: Option<Cid>, views: map<Cid, Chan>, all: set<object>)
    reads all
    requires Together(chans, c, all)
  {
    && (forall d :: d in views <==> d in chans && c != Some(d))
    && (forall d :: d in views ==> chans[d].View() == views[d])
  }

  lemma HeldExactly(chans: map<Cid, Channel>, c: Option<Cid>, views: map<Cid, Chan>, all: set<object>)
    ensures Held(chans, c, all) == Some(views) <==> Together(chans, c, all) && Describes(chans, c, views, all)
  {
    if Together(chans, c, all) {
      var held := Held(chans, c, all).value;
      if Describes(chans, c, views, all) {
        assert held.Keys == views.Keys;
        assert held == views;
      }
    }
  }

  lemma Without(loop: EventLoop, chans: map<Cid, Channel>, c: Cid, views: map<Cid, Chan>, all: set<object>)
    requires Sound(loop, chans, views, all) && c in chans
    ensures loop.Beside(chans[c]) && c in views && chans[c].View() == views[c] && chans[c].Repr <= all
    ensures Held(chans, Some(c), all - chans[c].Repr) == Some(views - {c})
  {
    HeldExactly(chans, None, views, all);
    TogetherWithout(chans, c, all);
    HeldExactly(chans, Some(c), views - {c}, all - chans[c].Repr);
  }

  lemma TogetherWithout(chans: map<Cid, Channel>, c: Cid, all: set<object>)
    requires c in chans && Together(chans, None, all)
    ensures Together(chans, Some(c), all - chans[c].Repr)
  {
  }

  lemma With(chans: map<Cid, Channel>, c: Cid, views: map<Cid, Chan>, rest: set<object>)
    requires c in chans && chans[c].Valid() && rest !! chans[c].Repr && c in views
    requires Held(chans, Some(c), rest) == Some(views - {c})
    ensures Held(chans, None, rest + chans[c].Repr) == Some(views[c := chans[c].View()])
  {
    HeldExactly(chans, Some(c), views - {c}, rest);
    TogetherWith(chans, c, rest);
    var views' := views[c := chans[c].View()];
    assert forall d :: d in views && d != c ==> d in views - {c} && (views - {c})[d] == views[d];
    HeldExactly(chans, None, views', rest + chans[c].Repr);
  }

  lemma TogetherWith(chans: map<Cid, Channel>, c: Cid, rest: set<object>)
    requires c in chans && chans[c].Valid() && rest !! chans[c].Repr && Together(chans, Some(c), rest)
    ensures Together(chans, None, rest + chans[c].Repr)
  {
  }

  /** The loop is where a step has led, unless the task queue is full. */
  ghost predicate Reached(loop: EventLoop, views: map<Cid, Chan>, r: Result, before: seq<Event>)
    requires loop.Valid()
    reads loop, loop.spawn, loop.spawn.data, loop.timers
  {
    if |r.s.spawn| < MAX_CAPACITY
    then !loop.aborted && loop.State(views) == r.s && loop.events == before + r.events
    else loop.aborted
  }

  method OneChannel(loop: EventLoop, c: Cid, ch: Channel, a: Action, ghost views: map<Cid, Chan>,
                    ghost rest: set<object>)
    requires rest !! ch.Repr && rest !! {loop, loop.spawn, loop.spawn.data, loop.timers}
    requires loop.Valid() && loop.Beside(ch) && !loop.aborted && Enabled(loop.State(views), a)
    requires (a.GiveTo? || a.TakeFrom? || a.CloseChannel?) && a.c == c && views[c] == ch.View()
    modifies loop, loop.spawn, loop.spawn.data, ch.Repr
    ensures loop.Valid() && loop.Beside(ch) && fresh(ch.Repr - old(ch.Repr))
    ensures rest !! ch.Repr && rest !! {loop, loop.spawn, loop.spawn.data, loop.timers}
    ensures loop.spawn.data == old(loop.spawn.data) || fresh(loop.spawn.data)
    ensures Reached(loop, views[c := ch.View()], Step(old(loop.State(views)), a), old(loop.events))
  {
    match a
    case GiveTo(_, v) =>
      var panicked := loop.ChannelGive(c, ch, v, views);
    case TakeFrom(_) =>
      loop.ChannelTake(c, ch, views);
    case CloseChannel(_) =>
      loop.ChannelClose(c, ch, views);
  }

  /** A channel operation of the current fiber. */
  method ChannelStep(loop: EventLoop, chans: map<Cid, Channel>, a: Action, ghost views: map<Cid, Chan>,
                     ghost all: set<object>)
    returns (ghost views': map<Cid, Chan>, ghost all': set<object>)
    requires Sound(loop, chans, views, all) && !loop.aborted && Enabled(loop.State(views), a)
    requires a.GiveTo? || a.TakeFrom? || a.CloseChannel?
    modifies loop, loop.spawn, loop.spawn.data, all
    ensures Sound(loop, chans, views', all') && fresh(all' - all)
    ensures loop.spawn.data == old(loop.spawn.data) || fresh(loop.spawn.data)
    ensures Reached(loop, views', Step(old(loop.State(views)), a), old(loop.events))
  {
    var c := a.c;
    Without(loop, chans, c, views, all);
    ghost var rest := all - chans[c].Repr;
    OneChannel(loop, c, chans[c], a, views, rest);
    With(chans, c, views, rest);
    views', all' := views[c := chans[c].View()], rest + chans[c].Repr;
  }

  /** A step that schedules a fiber. */
  method ScheduleStep(loop: EventLoop, a: Action, ghost views: map<Cid, Chan>)
    requires loop.Valid() && !loop.aborted && Enabled(loop.State(views), a) && (a.Go? || a.Cancel? || a.Rewake?)
    modifies loop, loop.spawn, loop.spawn.data
    ensures loop.Valid() && (loop.spawn.data == old(loop.spawn.data) || fresh(loop.spawn.data))
    ensures Reached(loop, views, Step(old(loop.State(views)), a), old(loop.events))
  {
    match a
    case Go(g) =>
      loop.fibers := loop.fibers[g := Fiber(0, false, false, false)];
      loop.ScheduleGeneral(g, Nil, Ok, false, views);
    case Cancel(g) =>
      loop.ScheduleGeneral(g, Message("cancel"), Error, false, views);
    case Rewake(g, soon) =>
      loop.ScheduleGeneral(g, Nil, Ok, soon, views);
  }

  /** A step of the current fiber or of the loop that schedules nothing. */
  method QuietStep(loop: EventLoop, a: Action, ghost views: map<Cid, Chan>)
    requires loop.Valid() && !loop.aborted && Enabled(loop.State(views), a)
    requires a.AddTimeout? || a.Await? || a.Finish? || a.Run?
    modifies loop, loop.spawn, loop.timers
    ensures loop.Valid() && loop.spawn.data == old(loop.spawn.data)
    ensures Reached(loop, views, Step(old(loop.State(views)), a), old(loop.events))
  {
    loop.spawn.Bounded();
    match a
    case AddTimeout(to) =>
      loop.timers.Add(to);
    case Await =>
      loop.current := None;
    case Finish =>
      var f := loop.current.value;
      loop.fibers := loop.fibers[f := loop.fibers[f].(done := true)];
      loop.current := None;
    case Run =>
      loop.RunNext(views);
  }

  lemma Beyond(loop: EventLoop, chans: map<Cid, Channel>, views: map<Cid, Chan>, all: set<object>, c: Cid, ch: Channel)
    requires Sound(loop, chans, views, all) && c !in chans && loop.Beside(ch) && ch.Repr !! all
    ensures Sound(loop, chans[c := ch], views[c := ch.View()], all + ch.Repr)
  {
    var chans', views' := chans[c := ch], views[c := ch.View()];
    HeldExactly(chans, None, views, all);
    assert Together(chans', Some(c), all) && Describes(chans', Some(c), views, all);
    HeldExactly(chans', Some(c), views, all);
    assert views' - {c} == views && views'[c := ch.View()] == views';
    With(chans', c, views', all);
  }

  method NewChannelStep(loop: EventLoop, chans: map<Cid, Channel>, a: Action, ghost views: map<Cid, Chan>,
                        ghost all: set<object>)
    returns (chans': map<Cid, Channel>, ghost views': map<Cid, Chan>, ghost all': set<object>)
    requires Sound(loop, chans, views, all) && !loop.aborted && Enabled(loop.State(views), a) && a.NewChannel?
    ensures Sound(loop, chans', views', all') && fresh(all' - all)
    ensures Reached(loop, views', Step(old(loop.State(views)), a), loop.events)
  {
    loop.spawn.Bounded();
    var ch := new Channel(a.limit);
    Beyond(loop, chans, views, all, a.c, ch);
    chans', views', all' := chans[a.c := ch], views[a.c := ch.View()], all + ch.Repr;
  }

  method LoopStep(loop: EventLoop, chans: map<Cid, Channel>, a: Action, ghost views: map<Cid, Chan>,
                  ghost all: set<object>)
    requires Sound(loop, chans, views, all) && !loop.aborted && Enabled(loop.State(views), a)
    requires a.Go? || a.Cancel? || a.Rewake? || a.AddTimeout? || a.Await? || a.Finish? || a.Run?
    modifies loop, loop.spawn, loop.spawn.data, loop.timers
    ensures Sound(loop, chans, views, all)
    ensures loop.spawn.data == old(loop.spawn.data) || fresh(loop.spawn.data)
    ensures Reached(loop, views, Step(old(loop.State(views)), a), old(loop.events))
  {
    if a.Go? || a.Cancel? || a.Rewake? {
      ScheduleStep(loop, a, views);
    } else {
      QuietStep(loop, a, views);
    }
  }

  /** Any step but the expiry of a timeout. */
  method Perform(loop: EventLoop, chans: map<Cid, Channel>, a: Action, ghost views: map<Cid, Chan>,
                 ghost all: set<object>)
    returns (chans': map<Cid, Channel>, ghost views': map<Cid, Chan>, ghost all': set<object>)
    requires Sound(loop, chans, views, all) && !loop.aborted && Enabled(loop.State(views), a) && !a.TimeUp?
    modifies loop, loop.spawn, loop.spawn.data, loop.timers, all
    ensures Sound(loop, chans', views', all') && fresh(all' - all)
    ensures loop.spawn.data == old(loop.spawn.data) || fresh(loop.spawn.data)
    ensures Reached(loop, views', Step(old(loop.State(views)), a), old(loop.events))
  {
    chans', views', all' := chans, views, all;
    if a.NewChannel? {
      chans', views', all' := NewChannelStep(loop, chans, a, views, all);
    } else if a.GiveTo? || a.TakeFrom? || a.CloseChannel? {
      views', all' := ChannelStep(loop, chans, a, views, all);
    } else {
      LoopStep(loop, chans, a, views, all);
    }
  }

  // Time goes by

  function TimeUps(due: seq<Timeout>): seq<Action> {
    seq(|due|, i requires 0 <= i < |due| => TimeUp(due[i]))
  }

  /** What a timeout does has nothing to do with the timeouts that are left. */
  lemma ExpireBeside(s: State, to: Timeout, left: multiset<Timeout>)
    ensures var e, e' := Expire(s, to), Expire(s.(timeouts := left), to);
            e'.s == e.s.(timeouts := left) && e'.events == e.events && e.s.current == s.current
            && e.s.timeouts == s.timeouts
  {
  }

  lemma {:induction false} ExpireAllBeside(s: State, due: seq<Timeout>, left: multiset<Timeout>)
    ensures var r, r' := ExpireAll(s, due), ExpireAll(s.(timeouts := left), due);
            r'.s == r.s.(timeouts := left) && r'.events == r.events && r.s.current == s.current
            && r.s.timeouts == s.timeouts
    decreases |due|
  {
    if due != [] {
      var n := |due| - 1;
      ExpireAllBeside(s, due[..n], left);
      ExpireBeside(ExpireAll(s, due[..n]).s, due[n], left);
    }
  }

  lemma TimeUpNext(run: seq<Action>, s: State, events: seq<Event>, to: Timeout)
    requires Execute(run) == Some(Result(s, events)) && s.current.None? && to in s.timeouts
    ensures var e := Expire(s.(timeouts := s.timeouts - multiset{to}), to);
            Execute(run + [TimeUp(to)]) == Some(Result(e.s, events + e.events))
  {
    ExecuteNext(run, TimeUp(to));
  }

  /** One timeout more, when that leaves others. */
  lemma ExpireOneMore(s: State, before: seq<Timeout>, to: Timeout, left: multiset<Timeout>)
    ensures var r := ExpireAll(s, before);
            var e := Expire(r.s.(timeouts := left), to);
            ExpireAll(s.(timeouts := left), before + [to]) == Result(e.s, r.events + e.events)
  {
    assert (before + [to])[..|before|] == before;
    ExpireAllBeside(s, before, left);
  }

  /** The state in which the timeouts that are due have been taken out. */
  function TakenOut(s: State, due: seq<Timeout>): State {
    s.(timeouts := s.timeouts - multiset(due))
  }

  /** Expiring timeouts that were taken out together is expiring them one by one. */
  lemma {:induction false} ExpireRuns(run: seq<Action>, s: State, events: seq<Event>, due: seq<Timeout>)
    requires Execute(run) == Some(Result(s, events)) && s.current.None? && multiset(due) <= s.timeouts
    ensures var r := ExpireAll(TakenOut(s, due), due);
            Execute(run + TimeUps(due)) == Some(Result(r.s, events + r.events))
    decreases |due|
  {
    if due == [] {
      assert run + TimeUps(due) == run && TakenOut(s, due) == s && events + [] == events;
    } else {
      var n := |due| - 1;
      assert due == due[..n] + [due[n]];
      ExpireRuns(run, s, events, due[..n]);
      ExpireLast(run, s, events, due[..n], due[n]);
    }
  }

  lemma ExpireLast(run: seq<Action>, s: State, events: seq<Event>, before: seq<Timeout>, to: Timeout)
    requires s.current.None? && multiset(before + [to]) <= s.timeouts
    requires var r := ExpireAll(TakenOut(s, before), before);
             Execute(run + TimeUps(before)) == Some(Result(r.s, events + r.events))
    ensures var r := ExpireAll(TakenOut(s, before + [to]), before + [to]);
            Execute(run + TimeUps(before + [to])) == Some(Result(r.s, events + r.events))
  {
    var out, left := TakenOut(s, before), s.timeouts - multiset(before + [to]);
    var r := ExpireAll(out, before);
    TakenOutNext(s, before, to);
    ExpireAllBeside(out, before, left);
    ExpireOneMore(out, before, to, left);
    Append(run, before, to);
    ExpireNext(run + TimeUps(before), r.s, events, r.events, to, left);
  }

  lemma ExpireNext(run: seq<Action>, s: State, events: seq<Event>, more: seq<Event>, to: Timeout,
                   left: multiset<Timeout>)
    requires Execute(run) == Some(Result(s, events + more)) && s.current.None?
    requires to in s.timeouts && left == s.timeouts - multiset{to}
    ensures var e := Expire(s.(timeouts := left), to);
            Execute(run + [TimeUp(to)]) == Some(Result(e.s, events + (more + e.events)))
  {
    TimeUpNext(run, s, events + more, to);
    var e := Expire(s.(timeouts := left), to);
    assert events + more + e.events == events + (more + e.events);
  }

  lemma TakenOutNext(s: State, before: seq<Timeout>, to: Timeout)
    requires multiset(before + [to]) <= s.timeouts
    ensures var out, left := TakenOut(s, before), s.timeouts - multiset(before + [to]);
            && left == out.timeouts - multiset{to} && to in out.timeouts
            && TakenOut(s, before + [to]) == out.(timeouts := left)
  {
    assert multiset(before + [to]) == multiset(before) + multiset{to};
  }

  lemma Append(run: seq<Action>, before: seq<Timeout>, to: Timeout)
    ensures run + TimeUps(before + [to]) == run + TimeUps(before) + [TimeUp(to)]
  {
  }

  /** A turn of the clock as steps of the scheduler. */
  lemma ClockRuns(run: seq<Action>, s: State, events: seq<Event>, due: seq<Timeout>, left: multiset<Timeout>, now: int)
    returns (run': seq<Action>)
    requires Execute(run) == Some(Result(s, events)) && s.current.None? && multiset(due) + left == s.timeouts
    requires forall to :: to in due ==> to.when_ <= now
    ensures var r := ExpireAll(s.(timeouts := left), due);
            Execute(run') == Some(Result(r.s, events + r.events))
    ensures run <= run' && forall i :: |run| <= i < |run'| ==> run'[i].TimeUp? && run'[i].to.when_ <= now
  {
    run' := run + TimeUps(due);
    assert TakenOut(s, due) == s.(timeouts := left);
    ExpireRuns(run, s, events, due);
    AllDue(run, due, now);
  }

  lemma AllDue(run: seq<Action>, due: seq<Timeout>, now: int)
    requires forall to :: to in due ==> to.when_ <= now
    ensures var run' := run + TimeUps(due);
            run <= run' && forall i :: |run| <= i < |run'| ==> run'[i].TimeUp? && run'[i].to.when_ <= now
  {
    var run' := run + TimeUps(due);
    forall i | |run| <= i < |run'|
      ensures run'[i].TimeUp? && run'[i].to.when_ <= now
    {
      assert run'[i] == TimeUp(due[i - |run|]);
    }
  }

  method ClockStep(loop: EventLoop, chans: map<Cid, Channel>, now: int, ghost views: map<Cid, Chan>,
                   ghost all: set<object>, ghost run: seq<Action>)
    returns (ghost run': seq<Action>)
    requires Sound(loop, chans, views, all) && !loop.aborted && loop.current.None?
    requires Execute(run) == Some(Result(loop.State(views), loop.events))
    modifies loop, loop.spawn, loop.spawn.data, loop.timers
    ensures Sound(loop, chans, views, all)
    ensures loop.spawn.data == old(loop.spawn.data) || fresh(loop.spawn.data)
    ensures !loop.aborted ==> Execute(run') == Some(Result(loop.State(views), loop.events))
    ensures run <= run' && forall i :: |run| <= i < |run'| ==> run'[i].TimeUp? && run'[i].to.when_ <= now
    ensures forall to :: to in loop.timers.tq ==> to.when_ > now
  {
    ghost var s, events := loop.State(views), loop.events;
    var due := loop.ExpireTimers(now, views);
    run' := ClockRuns(run, s, events, due, multiset(loop.timers.tq), now);
  }

  // Whole runs

  predicate Accepts(s: State, input: Input) {
    match input
    case Does(a) => !a.TimeUp? && Enabled(s, a)
    case Clock(_) => s.current.None?
  }

  /** The steps that an input stands for. */
  predicate Spelled(input: Input, part: seq<Action>) {
    match input
    case Does(a) => part == [a]
    case Clock(now) => forall i :: 0 <= i < |part| ==> part[i].TimeUp? && part[i].to.when_ <= now
  }

  /** A run that is made of the steps of the inputs, in order. */
  ghost predicate Spells(inputs: seq<Input>, run: seq<Action>) {
    if inputs == [] then run == []
    else
      var n := |inputs| - 1;
      exists k :: 0 <= k <= |run| && Spells(inputs[..n], run[..k]) && Spelled(inputs[n], run[k..])
  }

  lemma SpellsNext(inputs: seq<Input>, i: nat, run: seq<Action>, run': seq<Action>)
    requires i < |inputs| && Spells(inputs[..i], run) && run <= run' && Spelled(inputs[i], run'[|run|..])
    ensures Spells(inputs[..i + 1], run')
  {
    var more := inputs[..i + 1];
    assert more[..i] == inputs[..i] && run'[..|run|] == run;
    assert Spells(more[..i], run'[..|run|]) && Spelled(more[i], run'[|run|..]);
  }

  /** The loop is in the state that a run of the scheduler leads to. */
  ghost predicate Follows(loop: EventLoop, views: map<Cid, Chan>, run: seq<Action>)
    requires loop.Valid()
    reads loop, loop.spawn, loop.spawn.data, loop.timers
  {
    Execute(run) == Some(Result(loop.State(views), loop.events))
  }

  lemma SameKeys(chans: map<Cid, Channel>, views: map<Cid, Chan>, all: set<object>)
    requires Held(chans, None, all) == Some(views)
    ensures views.Keys == chans.Keys
  {
    HeldExactly(chans, None, views, all);
  }

  method CanDo(loop: EventLoop, chans: map<Cid, Channel>, a: Action, ghost views: map<Cid, Chan>,
               ghost all: set<object>)
    returns (ok: bool)
    requires Sound(loop, chans, views, all)
    ensures ok <==> Accepts(loop.State(views), Does(a))
  {
    SameKeys(chans, views, all);
    if loop.current.Some? && loop.current.value !in loop.fibers { return false; }
    match a
    case Go(g) => ok := g !in loop.fibers;
    case NewChannel(c, _) => ok := c !in chans;
    case GiveTo(c, _) => ok := loop.current.Some? && c in chans;
    case TakeFrom(c) => ok := loop.current.Some? && c in chans;
    case CloseChannel(c) => ok := loop.current.Some? && c in chans;
    case AddTimeout(to) => ok := to.fiber in loop.fibers && to.schedId == loop.fibers[to.fiber].schedId;
    case Cancel(g) => ok := g in loop.fibers && loop.fibers[g].root;
    case Rewake(g, _) => ok := g in loop.fibers;
    case Await => ok := loop.current.Some?;
    case Finish => ok := loop.current.Some?;
    case TimeUp(_) => ok := false;
    case Run => ok := CanRun(loop, views);
  }

  method CanRun(loop: EventLoop, ghost views: map<Cid, Chan>) returns (ok: bool)
    requires loop.Valid() && (loop.current.Some? ==> loop.current.value in loop.fibers)
    ensures ok <==> Enabled(loop.State(views), Run)
  {
    ok := false;
    if loop.current.None? && loop.spawn.Count() > 0 {
      RingPop(loop.spawn.data[..], loop.spawn.head, loop.spawn.tail);
      ok := loop.spawn.data[loop.spawn.head].fiber in loop.fibers;
    }
  }

  /** One input; nothing happens if it is not possible. */
  method Accept(loop: EventLoop, chans: map<Cid, Channel>, input: Input, ghost views: map<Cid, Chan>,
                ghost all: set<object>, ghost run: seq<Action>)
    returns (ok: bool, chans': map<Cid, Channel>, ghost views': map<Cid, Chan>, ghost all': set<object>,
             ghost run': seq<Action>)
    requires Sound(loop, chans, views, all) && !loop.aborted && Follows(loop, views, run)
    modifies loop, loop.spawn, loop.spawn.data, loop.timers, all
    ensures Sound(loop, chans', views', all') && fresh(all' - all)
    ensures loop.spawn.data == old(loop.spawn.data) || fresh(loop.spawn.data)
    ensures ok <==> Accepts(old(loop.State(views)), input)
    ensures ok ==> run <= run' && Spelled(input, run'[|run|..])
    ensures !ok ==> run' == run && loop.State(views') == old(loop.State(views)) && !loop.aborted
    ensures !loop.aborted ==> Follows(loop, views', run')
  {
    chans', views', all', run' := chans, views, all, run;
    match input
    case Clock(now) =>
      ok := loop.current.None?;
      if ok {
        run' := ClockStep(loop, chans, now, views, all, run);
      }
    case Does(a) =>
      ok := CanDo(loop, chans, a, views, all);
      if ok {
        ExecuteNext(run, a);
        run' := run + [a];
        chans', views', all' := Perform(loop, chans, a, views, all);
      }
  }

  /** Runs a fresh loop on inputs up to the first that is not possible. Unless the task queue gets full, the
      loop ends in the state, and has shown the events, of a run of the scheduler that the inputs spell. */
  method Drive(inputs: seq<Input>)
    returns (loop: EventLoop, chans: map<Cid, Channel>, done: nat, ghost views: map<Cid, Chan>, ghost all: set<object>,
             ghost run: seq<Action>)
    ensures done <= |inputs| && Sound(loop, chans, views, all)
    ensures !loop.aborted ==> Follows(loop, views, run) && Spells(inputs[..done], run)
    ensures !loop.aborted && done < |inputs| ==> !Accepts(loop.State(views), inputs[done])
  {
    loop := new EventLoop();
    chans, views, all, run, done := map[], map[], {}, [], 0;
    HeldExactly(chans, None, views, all);
    while done < |inputs|
      invariant done <= |inputs| && Sound(loop, chans, views, all) && !loop.aborted
      invariant Follows(loop, views, run) && Spells(inputs[..done], run)
      invariant fresh(loop) && fresh(loop.spawn) && fresh(loop.spawn.data) && fresh(loop.timers) && fresh(all)
    {
      ghost var before := run;
      var ok;
      ok, chans, views, all, run := Accept(loop, chans, inputs[done], views, all, run);
      if loop.aborted || !ok { return; }
      SpellsNext(inputs, done, before, run);
      done := done + 1;
    }
  }
}
