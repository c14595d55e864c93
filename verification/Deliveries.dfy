/** What becomes of a value that leaves a channel. */
module Deliveries {
  import opened Options
  import opened Scheduler
  import opened SchedulerRuns

  /** Queued tasks stay and generations do not go back. */
  ghost predicate Grows(s: State, s': State) {
    && (forall t :: t in s.spawn ==> t in s'.spawn)
    && forall f :: f in s.fibers ==> f in s'.fibers && s.fibers[f].schedId <= s'.fibers[f].schedId
  }

  lemma ScheduleGrows(s: State, f: Fid, v: Value, sig: Signal, soon: bool)
    requires f in s.fibers
    ensures Grows(s, Schedule(s, f, v, sig, soon))
  {
  }

  lemma {:induction false} WakeAllGrows(s: State, ps: seq<Pending>)
    ensures Grows(s, WakeAll(s, ps).s)
  {
    if ps != [] {
      WakeAllGrows(s, ps[..|ps| - 1]);
      var r, p := WakeAll(s, ps[..|ps| - 1]), ps[|ps| - 1];
      if Fresh(r.s.fibers, p) {
        ScheduleGrows(r.s, p.fiber, Nil, Ok, false);
      }
    }
  }

  lemma GiveGrows(s: State, f: Fid, c: Cid, v: Value)
    requires f in s.fibers && c in s.channels
    ensures Grows(s, Give(s, f, c, v).s)
  {
    var ch := s.channels[c];
    var readers := SkipStale(s.fibers, ch.readers);
    if readers != [] {
      ScheduleGrows(Put(s, c, ch.(readers := readers[1..])), readers[0].fiber, v, Ok, false);
    }
  }

  lemma TakeGrows(s: State, f: Fid, c: Cid)
    requires f in s.fibers && c in s.channels
    ensures Grows(s, Take(s, f, c).s)
  {
    var ch := s.channels[c];
    if ch.closed {
      ScheduleGrows(s, f, Nil, Ok, false);
    } else if ch.items != [] {
      var s1 := Put(s, c, ch.(items := ch.items[1..], writers := if ch.writers == [] then [] else ch.writers[1..]));
      if ch.writers != [] && ch.writers[0].fiber in s.fibers {
        ScheduleGrows(s1, ch.writers[0].fiber, Channel(c), Ok, false);
        ScheduleGrows(Schedule(s1, ch.writers[0].fiber, Channel(c), Ok, false), f, ch.items[0], Ok, false);
      } else {
        ScheduleGrows(s1, f, ch.items[0], Ok, false);
      }
    }
  }

  lemma StepGrows(s: State, a: Action)
    requires Enabled(s, a) && !a.Run?
    ensures Grows(s, Step(s, a).s)
  {
    match a {
      case Go(g) =>
        ScheduleGrows(s.(fibers := s.fibers[g := Fiber(0, false, false, false)]), g, Nil, Ok, false);
      case GiveTo(c, v) => GiveGrows(s, s.current.value, c, v);
      case TakeFrom(c) => TakeGrows(s, s.current.value, c);
      case CloseChannel(c) =>
        var ch := s.channels[c];
        var s1 := Put(s, c, ch.(closed := true, readers := [], writers := []));
        WakeAllGrows(s1, ch.writers);
        WakeAllGrows(WakeAll(s1, ch.writers).s, ch.readers);
      case Cancel(g) => ScheduleGrows(s, g, Message("cancel"), Error, false);
      case Rewake(g, soon) => ScheduleGrows(s, g, Nil, Ok, soon);
      case TimeUp(to) =>
        if to.fiber in s.fibers {
          var s1 := s.(timeouts := s.timeouts - multiset{to});
          ScheduleGrows(s1, to.fiber, Message("deadline expired"), Error, false);
          ScheduleGrows(s1, to.fiber, Message("timeout"), Error, false);
          ScheduleGrows(s1, to.fiber, Nil, Ok, false);
        }
      case Finish =>
      case NewChannel(_, _) =>
      case AddTimeout(_) =>
      case Await =>
    }
  }

  /** What a step keeps: all tasks but one that is run, and the order of generations. */
  lemma StepKeeps(s: State, a: Action, t: Task, f: Fid)
    requires Enabled(s, a)
    ensures t in s.spawn && !(a.Run? && s.spawn[0] == t) ==> t in Step(s, a).s.spawn
    ensures f in s.fibers ==> f in Step(s, a).s.fibers && s.fibers[f].schedId <= Step(s, a).s.fibers[f].schedId
  {
    if !a.Run? {
      StepGrows(s, a);
    } else {
      assert s.spawn == [s.spawn[0]] + s.spawn[1..];
    }
  }

  /** A value that is handed out travels with a task of the present generation of its fiber. */
  lemma HandedQueued(s: State, a: Action, c: Cid, v: Value, t: Task)
    requires Enabled(s, a) && Handed(c, v, t) in Step(s, a).events
    ensures var s' := Step(s, a).s;
            t.value == v && t.sig == Ok && t in s'.spawn && t.fiber in s'.fibers
              && s'.fibers[t.fiber].schedId == t.expected
  {
    if a.CloseChannel? {
      var ch := s.channels[a.c];
      var s1 := Put(s, a.c, ch.(closed := true, readers := [], writers := []));
      WakesOnly(s1, ch.writers);
      WakesOnly(WakeAll(s1, ch.writers).s, ch.readers);
    } else if a.GiveTo? {
      HandedByGive(s, s.current.value, a.c, a.v, t);
    } else if a.TakeFrom? {
      HandedByTake(s, s.current.value, a.c, t);
    }
  }

  lemma HandedByGive(s: State, f: Fid, c: Cid, v: Value, t: Task)
    requires f in s.fibers && c in s.channels
    ensures forall d, w :: Handed(d, w, t) in Give(s, f, c, v).events ==>
              var s' := Give(s, f, c, v).s;
              w == v == t.value && t.sig == Ok && t in s'.spawn && t.fiber in s'.fibers
                && s'.fibers[t.fiber].schedId == t.expected
  {
  }

  lemma HandedByTake(s: State, f: Fid, c: Cid, t: Task)
    requires f in s.fibers && c in s.channels
    ensures forall d, w :: Handed(d, w, t) in Take(s, f, c).events ==>
              var s' := Take(s, f, c).s;
              w == t.value && t.sig == Ok && t in s'.spawn && t.fiber in s'.fibers
                && s'.fibers[t.fiber].schedId == t.expected
  {
  }

  /** A run from the empty scheduler: the actions, the states before, between and after them, and what each
      action makes visible. */
  datatype History = History(actions: seq<Action>, states: seq<State>, seen: seq<seq<Event>>)
  {
    ghost predicate Valid() {
      && |states| == |actions| + 1 && |seen| == |actions| && states[0] == EMPTY
      && forall n: nat {:trigger MovesAt(n)} :: n < |actions| ==> MovesAt(n)
    }

    predicate MovesAt(n: nat)
      requires n < |actions| && |states| == |actions| + 1 && |seen| == |actions|
    {
      Enabled(states[n], actions[n]) && Step(states[n], actions[n]) == Result(states[n + 1], seen[n])
    }

    function Upto(n: nat): History
      requires n <= |actions| && |states| == |actions| + 1 && |seen| == |actions|
    {
      History(actions[..n], states[..n + 1], seen[..n])
    }

    /** Step n takes the task off the queue. */
    predicate Dequeues(n: nat, t: Task)
      requires |states| == |actions| + 1
    {
      n < |actions| && actions[n].Run? && states[n].spawn != [] && states[n].spawn[0] == t
    }

    /** How often the fiber has been scheduled before step n. */
    function GenerationAt(n: nat, f: Fid): int
      requires n < |states|
    {
      if f in states[n].fibers then states[n].fibers[f].schedId else -1
    }

    /** Step k schedules the fiber. */
    predicate Schedules(k: nat, f: Fid)
      requires |states| == |actions| + 1
    {
      k < |actions| && GenerationAt(k, f) < GenerationAt(k + 1, f)
    }

    /** The fiber is scheduled after step m and before step n. */
    predicate Overtaken(m: nat, n: nat, f: Fid)
      requires |states| == |actions| + 1
    {
      exists k {:trigger Schedules(k, f)} :: m < k < n && Schedules(k, f)
    }
  }

  lemma UptoValid(h: History, n: nat)
    requires h.Valid() && n <= |h.actions|
    ensures h.Upto(n).Valid()
  {
    forall k: nat | k < n
      ensures h.Upto(n).MovesAt(k)
    {
      assert h.MovesAt(k);
    }
  }

  function All(seen: seq<seq<Event>>): seq<Event> {
    if seen == [] then [] else All(seen[..|seen| - 1]) + seen[|seen| - 1]
  }

  lemma {:induction false} InAll(seen: seq<seq<Event>>, n: nat, e: Event)
    requires n < |seen| && e in seen[n]
    ensures e in All(seen)
  {
    if n + 1 < |seen| {
      InAll(seen[..|seen| - 1], n, e);
    }
  }

  lemma RunsNext(h: History, last: nat, events: seq<Event>)
    requires h.Valid() && last + 1 == |h.actions| && Execute(h.actions[..last]) == Some(Result(h.states[last], events))
    ensures Execute(h.actions) == Some(Result(h.states[last + 1], events + h.seen[last]))
  {
    assert h.MovesAt(last);
    assert h.actions[..last] + [h.actions[last]] == h.actions;
    ExecuteNext(h.actions[..last], h.actions[last]);
  }

  /** A run is what Execute makes of its actions. */
  lemma {:induction false} HistoryRuns(h: History)
    requires h.Valid()
    ensures Execute(h.actions) == Some(Result(h.states[|h.actions|], All(h.seen)))
    decreases |h.actions|
  {
    if h.actions != [] {
      var last := |h.actions| - 1;
      UptoValid(h, last);
      HistoryRuns(h.Upto(last));
      RunsNext(h, last, All(h.seen[..last]));
    }
  }

  /** Everything that Execute runs has a history. */
  lemma {:induction false} HasHistory(actions: seq<Action>) returns (h: History)
    requires Execute(actions).Some?
    ensures h.Valid() && h.actions == actions
  {
    if actions == [] {
      h := History([], [EMPTY], []);
    } else {
      var last := |actions| - 1;
      var before := HasHistory(actions[..last]);
      HistoryRuns(before);
      h := MoreHistory(before, actions[last]);
      assert before.actions + [actions[last]] == actions;
    }
  }

  lemma MoreHistory(before: History, a: Action) returns (h: History)
    requires before.Valid() && Enabled(before.states[|before.actions|], a)
    ensures h.Valid() && h.actions == before.actions + [a]
  {
    var r := Step(before.states[|before.actions|], a);
    h := History(before.actions + [a], before.states + [r.s], before.seen + [r.events]);
    forall n: nat | n < |h.actions|
      ensures h.MovesAt(n)
    {
      if n < |before.actions| {
        assert before.MovesAt(n);
      }
    }
  }

  lemma GenerationGrows(h: History, n: nat, f: Fid)
    requires h.Valid() && n < |h.actions|
    ensures h.GenerationAt(n, f) <= h.GenerationAt(n + 1, f)
  {
    assert h.MovesAt(n);
    StepKeeps(h.states[n], h.actions[n], Task(f, Nil, Ok, 0), f);
  }

  lemma {:induction false} GenerationsGrow(h: History, m: nat, n: nat, f: Fid)
    requires h.Valid() && m <= n <= |h.actions|
    ensures h.GenerationAt(m, f) <= h.GenerationAt(n, f)
    ensures (forall k :: m <= k < n ==> !h.Schedules(k, f)) ==> h.GenerationAt(m, f) == h.GenerationAt(n, f)
    decreases n
  {
    if m < n {
      GenerationsGrow(h, m, n - 1, f);
      GenerationGrows(h, n - 1, f);
      assert h.Schedules(n - 1, f) <==> h.GenerationAt(n - 1, f) < h.GenerationAt(n, f);
    }
  }

  /** The generation is the same exactly if no step has scheduled the fiber. */
  lemma OvertakenExactly(h: History, m: nat, n: nat, f: Fid)
    requires h.Valid() && m < n <= |h.actions|
    ensures h.Overtaken(m, n, f) <==> h.GenerationAt(m + 1, f) < h.GenerationAt(n, f)
  {
    GenerationsGrow(h, m + 1, n, f);
    if h.Overtaken(m, n, f) {
      var k :| m < k < n && h.Schedules(k, f);
      GenerationsGrow(h, m + 1, k, f);
      GenerationsGrow(h, k + 1, n, f);
    }
  }

  /** A task stays in the queue until a step takes it off. */
  lemma {:induction false} Waits(h: History, m: nat, n: nat, t: Task)
    requires h.Valid() && m <= n <= |h.actions| && t in h.states[m].spawn && forall k :: m <= k < n ==>
             !h.Dequeues(k, t)
    ensures t in h.states[n].spawn
    decreases n
  {
    if m < n {
      Waits(h, m, n - 1, t);
      assert h.MovesAt(n - 1) && !h.Dequeues(n - 1, t);
      StepKeeps(h.states[n - 1], h.actions[n - 1], t, t.fiber);
    }
  }

  /** What becomes of a task that leaves the queue at step n. */
  function Fate(h: History, n: nat, t: Task, overtaken: bool): Event
    requires n < |h.states| && t.fiber in h.states[n].fibers
  {
    if overtaken then Dropped(t) else if h.states[n].fibers[t.fiber].done then Refused(t) else Resumed(t)
  }

  lemma StateKeeps(h: History, n: nat)
    requires h.Valid() && n <= |h.actions|
    ensures Tasks(h.states[n].fibers, h.states[n].spawn)
    ensures forall k, e :: 0 <= k < n && e in h.seen[k] ==> EventOk(h.states[n].fibers, h.states[n].spawn, e)
  {
    UptoValid(h, n);
    HistoryRuns(h.Upto(n));
    RunsKeep(h.actions[..n]);
    var r := Execute(h.actions[..n]).value;
    assert r.s == h.states[n];
    forall k, e | 0 <= k < n && e in h.seen[k]
      ensures EventOk(r.s.fibers, r.s.spawn, e)
    {
      InAll(h.seen[..n], k, e);
      var i :| 0 <= i < |r.events| && r.events[i] == e;
    }
  }

  lemma DequeueSeen(h: History, n: nat, t: Task)
    requires h.Valid() && h.Dequeues(n, t)
    ensures t.fiber in h.states[n].fibers && t.expected <= h.GenerationAt(n, t.fiber)
    ensures h.seen[n] == [Fate(h, n, t, h.GenerationAt(n, t.fiber) > t.expected)]
  {
    StateKeeps(h, n);
    assert h.MovesAt(n);
  }

  /** A task that was taken off the queue does not come back. */
  lemma Gone(h: History, n: nat, k: nat, t: Task)
    requires h.Valid() && h.Dequeues(n, t) && n < k <= |h.actions|
    ensures t !in h.states[k].spawn
  {
    DequeueSeen(h, n, t);
    StateKeeps(h, k);
    var e := h.seen[n][0];
    assert e in h.seen[n] && Settled(e) && EventOk(h.states[k].fibers, h.states[k].spawn, e);
  }

  lemma SettledExactly(h: History, m: nat, n: nat, t: Task)
    requires h.Valid() && m < n < |h.actions| && h.Dequeues(n, t) && h.GenerationAt(m + 1, t.fiber) == t.expected
    ensures t.fiber in h.states[n].fibers && h.seen[n] == [Fate(h, n, t, h.Overtaken(m, n, t.fiber))]
    ensures t !in h.states[|h.actions|].spawn && forall k :: n < k < |h.actions| ==> !h.Dequeues(k, t)
  {
    DequeueSeen(h, n, t);
    OvertakenExactly(h, m, n, t.fiber);
    Gone(h, n, |h.actions|, t);
    forall k | n < k < |h.actions|
      ensures !h.Dequeues(k, t)
    {
      Gone(h, n, k, t);
    }
  }

  /** In every run a value handed out by step m travels with a task that is still queued, or has left the
      queue once. When it leaves, the value is dropped exactly if the fiber was scheduled again in the
      meantime; otherwise it reaches the fiber, unless that has ended. */
  lemma HandedFate(h: History, m: nat, c: Cid, v: Value, t: Task)
    requires h.Valid() && m < |h.actions| && Handed(c, v, t) in h.seen[m]
    ensures t.value == v && t.sig == Ok
    ensures t in h.states[|h.actions|].spawn <==> forall n :: m < n < |h.actions| ==> !h.Dequeues(n, t)
    ensures forall n, k :: m < n < k < |h.actions| && h.Dequeues(n, t) ==> !h.Dequeues(k, t)
    ensures forall n :: m < n < |h.actions| && h.Dequeues(n, t) ==>
              t.fiber in h.states[n].fibers && h.seen[n] == [Fate(h, n, t, h.Overtaken(m, n, t.fiber))]
  {
    assert h.MovesAt(m);
    HandedQueued(h.states[m], h.actions[m], c, v, t);
    if forall n :: m < n < |h.actions| ==> !h.Dequeues(n, t) {
      Waits(h, m + 1, |h.actions|, t);
    }
    forall n | m < n < |h.actions| && h.Dequeues(n, t)
      ensures t.fiber in h.states[n].fibers && h.seen[n] == [Fate(h, n, t, h.Overtaken(m, n, t.fiber))]
      ensures t !in h.states[|h.actions|].spawn && forall k :: n < k < |h.actions| ==> !h.Dequeues(k, t)
    {
      SettledExactly(h, m, n, t);
    }
  }

  /** The step takes the value out of the channel while the fiber that should get it is to be cancelled:
      the one that takes, or the first reader that waits. */
  predicate Loses(s: State, a: Action, c: Cid, v: Value) {
    && (a == TakeFrom(c) || a == GiveTo(c, v)) && s.current.Some? && s.current.value in s.fibers && c in s.channels
    && !s.channels[c].closed
    && if a.TakeFrom? then
         s.channels[c].items != [] && s.channels[c].items[0] == v && s.fibers[s.current.value].canceled
       else var readers := SkipStale(s.fibers, s.channels[c].readers);
            readers != [] && s.fibers[readers[0].fiber].canceled
  }

  lemma LosesExactly(s: State, a: Action, c: Cid, v: Value)
    requires Enabled(s, a)
    ensures Lost(c, v) in Step(s, a).events <==> Loses(s, a, c, v)
  {
    if a.CloseChannel? {
      var ch := s.channels[a.c];
      var s1 := Put(s, a.c, ch.(closed := true, readers := [], writers := []));
      WakesOnly(s1, ch.writers);
      WakesOnly(WakeAll(s1, ch.writers).s, ch.readers);
    } else if a.GiveTo? {
      GiveLoses(s, s.current.value, a.c, a.v, c, v);
    } else if a.TakeFrom? {
      TakeLoses(s, s.current.value, a.c, c, v);
    }
  }

  lemma GiveLoses(s: State, f: Fid, d: Cid, w: Value, c: Cid, v: Value)
    requires f in s.fibers && d in s.channels
    ensures var ch := s.channels[d];
            var readers := SkipStale(s.fibers, ch.readers);
            Lost(c, v) in Give(s, f, d, w).events
            <==> c == d && v == w && !ch.closed && readers != [] && s.fibers[readers[0].fiber].canceled
  {
  }

  lemma TakeLoses(s: State, f: Fid, d: Cid, c: Cid, v: Value)
    requires f in s.fibers && d in s.channels
    ensures var ch := s.channels[d];
            Lost(c, v) in Take(s, f, d).events
            <==> c == d && !ch.closed && ch.items != [] && v == ch.items[0] && s.fibers[f].canceled
  {
  }

  /** In every run, the values given out to nobody are those of the steps that lose them. */
  lemma LostExactly(h: History, n: nat, c: Cid, v: Value)
    requires h.Valid() && n < |h.actions|
    ensures Lost(c, v) in h.seen[n] <==> Loses(h.states[n], h.actions[n], c, v)
  {
    assert h.MovesAt(n);
    LosesExactly(h.states[n], h.actions[n], c, v);
  }

  lemma HistoryGentle(h: History)
    requires h.Valid() && forall n :: 0 <= n < |h.actions| ==> !SelfCancel(h.states[n], h.actions[n])
    ensures Gentle(h.actions)
  {
    forall n | 0 <= n < |h.actions| && Execute(h.actions[..n]).Some?
      ensures !SelfCancel(Execute(h.actions[..n]).value.s, h.actions[n])
    {
      UptoValid(h, n);
      HistoryRuns(h.Upto(n));
    }
  }

  const ITEM := Item(7)
  const LIVE := Fiber(1, false, true, false)
  const START := Task(0, Nil, Ok, 1)
  const OTHER := Task(1, Nil, Ok, 1)
  const CANCEL := Task(0, Message("cancel"), Error, 2)

  /** A state without timeouts and with one channel. */
  function Small(fibers: map<Fid, Fiber>, spawn: seq<Task>, ch: Chan, current: Option<Fid>): State {
    State(fibers, spawn, map[0 := ch], multiset{}, current)
  }

  function LosingStates(): seq<State> {
    var ch, doomed := Chan([], [], [], 1, false), Fiber(2, true, true, false);
    [EMPTY,
     State(map[0 := LIVE], [START], map[], multiset{}, None),
     Small(map[0 := LIVE], [START], ch, None),
     Small(map[0 := LIVE], [], ch, Some(0)),
     Small(map[0 := LIVE], [], ch.(items := [ITEM]), Some(0)),
     Small(map[0 := doomed], [CANCEL], ch.(items := [ITEM]), Some(0)),
     Small(map[0 := doomed], [CANCEL], ch, None)]
  }

  function LosingActions(): seq<Action> {
    [Go(0), NewChannel(0, 1), Run, GiveTo(0, ITEM), Cancel(0), TakeFrom(0)]
  }

  function LosingSeen(): seq<seq<Event>> {
    [[], [], [Resumed(START)], [Given(0, ITEM)], [], [Lost(0, ITEM)]]
  }

  function Losing(): History {
    History(LosingActions(), LosingStates(), LosingSeen())
  }

  lemma LosingStarts()
    ensures var h := Losing(); h.MovesAt(0) && h.MovesAt(1) && h.MovesAt(2)
  {
    assert [START] == [] + [START] && [START][1..] == [];
  }

  lemma LosingEnds()
    ensures var h := Losing(); h.MovesAt(3) && h.MovesAt(4) && h.MovesAt(5)
  {
    assert [] + [ITEM] == [ITEM] && [CANCEL] == [] + [CANCEL] && [ITEM][1..] == [];
  }

  lemma LosingMoves()
    ensures Losing().Valid()
  {
    LosingStarts();
    LosingEnds();
  }

  /** A fiber that cancels itself and then takes an item loses it. */
  lemma SelfCancelLoses()
    ensures Execute(Losing().actions).Some? && Lost(0, ITEM) in Execute(Losing().actions).value.events
  {
    LosingMoves();
    var h := Losing();
    HistoryRuns(h);
    InAll(h.seen, 5, Lost(0, ITEM));
  }

  const GIVEN := Task(0, ITEM, Ok, 2)
  const CANCEL_AGAIN := Task(0, Message("cancel"), Error, 3)

  function DroppingActions(): seq<Action> {
    [Go(0), Go(1), NewChannel(0, 0), Run, TakeFrom(0), Run, GiveTo(0, ITEM), Cancel(0), Await, Run, Run]
  }

  function DroppingStates(): seq<State> {
    var ch := Chan([], [], [], 0, false);
    var both := map[0 := LIVE, 1 := LIVE];
    var given := map[0 := Fiber(2, false, true, false), 1 := LIVE];
    var doomed := map[0 := Fiber(3, true, true, false), 1 := LIVE];
    [EMPTY,
     State(map[0 := LIVE], [START], map[], multiset{}, None),
     State(both, [START, OTHER], map[], multiset{}, None),
     Small(both, [START, OTHER], ch, None),
     Small(both, [OTHER], ch, Some(0)),
     Small(both, [OTHER], ch.(readers := [Pending(0, 1)]), None),
     Small(both, [], ch.(readers := [Pending(0, 1)]), Some(1)),
     Small(given, [GIVEN], ch, Some(1)),
     Small(doomed, [GIVEN, CANCEL_AGAIN], ch, Some(1)),
     Small(doomed, [GIVEN, CANCEL_AGAIN], ch, None),
     Small(map[0 := Fiber(3, false, true, false), 1 := LIVE], [CANCEL_AGAIN], ch, None),
     Small(map[0 := Fiber(3, false, true, false), 1 := LIVE], [], ch, Some(0))]
  }

  function DroppingSeen(): seq<seq<Event>> {
    [[], [], [], [Resumed(START)], [], [Resumed(OTHER)], [Given(0, ITEM), Handed(0, ITEM, GIVEN), Woken(0, 1)],
     [], [], [Dropped(GIVEN)], [Resumed(CANCEL_AGAIN)]]
  }

  function Dropping(): History {
    History(DroppingActions(), DroppingStates(), DroppingSeen())
  }

  lemma DroppingStarts()
    ensures var h := Dropping(); h.MovesAt(0) && h.MovesAt(1) && h.MovesAt(2) && h.MovesAt(3)
  {
    assert [START] == [] + [START] && [START, OTHER] == [START] + [OTHER] && [START, OTHER][1..] == [OTHER];
  }

  lemma DroppingWaits()
    ensures var h := Dropping(); h.MovesAt(4) && h.MovesAt(5)
  {
    assert [OTHER][1..] == [] && [] + [Pending(0, 1)] == [Pending(0, 1)];
  }

  lemma DroppingGives()
    ensures Dropping().MovesAt(6)
  {
    assert [Pending(0, 1)][1..] == [] && [] + [GIVEN] == [GIVEN];
  }

  lemma DroppingEnds()
    ensures var h := Dropping(); h.MovesAt(7) && h.MovesAt(8) && h.MovesAt(9) && h.MovesAt(10)
  {
    assert [GIVEN, CANCEL_AGAIN] == [GIVEN] + [CANCEL_AGAIN] && [GIVEN, CANCEL_AGAIN][1..] == [CANCEL_AGAIN]
      && [CANCEL_AGAIN][1..] == [];
  }

  lemma DroppingMoves()
    ensures Dropping().Valid()
  {
    DroppingStarts();
    DroppingWaits();
    DroppingGives();
    DroppingEnds();
  }

  /** A fiber that is cancelled by another one between the give and its turn does not get the value. */
  lemma CancelDrops()
    ensures Execute(Dropping().actions).Some? && Gentle(Dropping().actions)
    ensures var r := Execute(Dropping().actions).value;
            && Handed(0, ITEM, GIVEN) in r.events && Dropped(GIVEN) in r.events
            && r.s.spawn == [] && ItemsOf(r.s, 0) == []
  {
    DroppingMoves();
    var h := Dropping();
    HistoryRuns(h);
    HistoryGentle(h);
    InAll(h.seen, 6, Handed(0, ITEM, GIVEN));
    InAll(h.seen, 9, Dropped(GIVEN));
  }

  const LATE := Task(0, ITEM, Ok, 3)

  function RefusingActions(): seq<Action> {
    [Go(0), NewChannel(0, 0), Run, Cancel(0), TakeFrom(0), Run, Finish, Go(1), Run, GiveTo(0, ITEM), Await, Run]
  }

  function RefusingStates(): seq<State> {
    var ch := Chan([], [], [], 0, false);
    var waiting := ch.(readers := [Pending(0, 2)]);
    var ended := Fiber(2, false, true, true);
    var last := map[0 := Fiber(3, false, true, true), 1 := LIVE];
    [EMPTY,
     State(map[0 := LIVE], [START], map[], multiset{}, None),
     Small(map[0 := LIVE], [START], ch, None),
     Small(map[0 := LIVE], [], ch, Some(0)),
     Small(map[0 := Fiber(2, true, true, false)], [CANCEL], ch, Some(0)),
     Small(map[0 := Fiber(2, true, true, false)], [CANCEL], waiting, None),
     Small(map[0 := Fiber(2, false, true, false)], [], waiting, Some(0)),
     Small(map[0 := ended], [], waiting, None),
     Small(map[0 := ended, 1 := LIVE], [OTHER], waiting, None),
     Small(map[0 := ended, 1 := LIVE], [], waiting, Some(1)),
     Small(last, [LATE], ch, Some(1)),
     Small(last, [LATE], ch, None),
     Small(last, [], ch, None)]
  }

  function RefusingSeen(): seq<seq<Event>> {
    [[], [], [Resumed(START)], [], [], [Resumed(CANCEL)], [], [], [Resumed(OTHER)],
     [Given(0, ITEM), Handed(0, ITEM, LATE), Woken(0, 2)], [], [Refused(LATE)]]
  }

  function Refusing(): History {
    History(RefusingActions(), RefusingStates(), RefusingSeen())
  }

  lemma RefusingStarts()
    ensures var h := Refusing(); h.MovesAt(0) && h.MovesAt(1) && h.MovesAt(2) && h.MovesAt(3)
  {
    assert [START] == [] + [START] && [START][1..] == [] && [CANCEL] == [] + [CANCEL];
  }

  lemma RefusingWaits()
    ensures var h := Refusing(); h.MovesAt(4) && h.MovesAt(5) && h.MovesAt(6) && h.MovesAt(7)
  {
    assert [CANCEL][1..] == [] && [] + [Pending(0, 2)] == [Pending(0, 2)] && [OTHER] == [] + [OTHER];
  }

  lemma RefusingGives()
    ensures var h := Refusing(); h.MovesAt(8) && h.MovesAt(9)
  {
    assert [OTHER][1..] == [] && [Pending(0, 2)][1..] == [] && [LATE] == [] + [LATE];
  }

  lemma RefusingEnds()
    ensures var h := Refusing(); h.MovesAt(10) && h.MovesAt(11)
  {
    assert [LATE][1..] == [];
  }

  lemma RefusingMoves()
    ensures Refusing().Valid()
  {
    RefusingStarts();
    RefusingWaits();
    RefusingGives();
    RefusingEnds();
  }

  /** A fiber that waits while its own cancellation is queued leaves an entry that outlives it: a value
      given later goes to a fiber that has ended. */
  lemma EndedRefuses()
    ensures Execute(Refusing().actions).Some?
    ensures var r := Execute(Refusing().actions).value;
            && Handed(0, ITEM, LATE) in r.events && Refused(LATE) in r.events
            && r.s.spawn == [] && ItemsOf(r.s, 0) == []
  {
    RefusingMoves();
    var h := Refusing();
    HistoryRuns(h);
    InAll(h.seen, 9, Handed(0, ITEM, LATE));
    InAll(h.seen, 11, Refused(LATE));
  }
}
