/** No wakeup is lost: a fiber that waits on a channel stays in its queue until it is scheduled. */
module Wakeups {
  import opened Options
  import opened RingBuffer
  import opened TimerHeap
  import opened Scheduler
  import opened SchedulerRuns
  import opened Deliveries

  /** A task of the fiber's present generation is queued. */
  ghost predicate Scheduled(s: State, f: Fid) {
    exists t :: t in s.spawn && RunsNow(s, t, f)
  }

  predicate RunsNow(s: State, t: Task, f: Fid) {
    t.fiber == f && f in s.fibers && t.expected == s.fibers[f].schedId
  }

  /** Who waits in a channel, to read or to write. */
  function Queue(ch: Chan, reading: bool): seq<Pending> {
    if reading then ch.readers else ch.writers
  }

  predicate InQueue(s: State, c: Cid, p: Pending, reading: bool) {
    c in s.channels && p in Queue(s.channels[c], reading)
  }

  /** What a fiber waits for: a channel, or a timeout. */
  datatype Place = On(c: Cid, reading: bool) | Until(to: Timeout)

  /** The fiber is where it will be woken from: its entry in the queue or its timeout is there and carries its
      present generation. */
  predicate Present(s: State, p: Pending, at: Place) {
    && Fresh(s.fibers, p)
    && match at
       case On(c, reading) => InQueue(s, c, p, reading)
       case Until(to) => to in s.timeouts && to.watched.None? && to.fiber == p.fiber && to.schedId == p.schedId
  }

  // Scheduling

  /** What scheduling may do to a fiber: it stays, with its generation or a new one that is queued. */
  ghost predicate Onward(s: State, s': State, f: Fid) {
    f in s.fibers ==>
      && f in s'.fibers && s'.fibers[f].done == s.fibers[f].done
      && s.fibers[f].schedId <= s'.fibers[f].schedId
      && (s'.fibers[f].schedId != s.fibers[f].schedId || Scheduled(s, f) ==> Scheduled(s', f))
  }

  /** A cancellation that is marked is queued, and the fiber that runs has not ended. */
  ghost predicate Awake(s: State) {
    && (forall f :: f in s.fibers && s.fibers[f].canceled ==> Scheduled(s, f))
    && (s.current.Some? ==> s.current.value in s.fibers && !s.fibers[s.current.value].done)
  }

  lemma ScheduleOnward(s: State, g: Fid, v: Value, sig: Signal, soon: bool, f: Fid)
    requires g in s.fibers
    ensures Onward(s, Schedule(s, g, v, sig, soon), f)
    ensures Schedule(s, g, v, sig, soon).channels == s.channels
    ensures f == g && !s.fibers[g].canceled ==> Scheduled(Schedule(s, g, v, sig, soon), g)
  {
    var s' := Schedule(s, g, v, sig, soon);
    if !s.fibers[g].canceled {
      var task := Task(g, v, sig, s.fibers[g].schedId + 1);
      assert task in s'.spawn && RunsNow(s', task, g);
      if f != g && Scheduled(s, f) {
        var t :| t in s.spawn && RunsNow(s, t, f);
        assert t in s'.spawn && RunsNow(s', t, f);
      }
    }
  }

  lemma ScheduleAwake(s: State, g: Fid, v: Value, sig: Signal, soon: bool)
    requires g in s.fibers && Awake(s)
    ensures Awake(Schedule(s, g, v, sig, soon)) && Scheduled(Schedule(s, g, v, sig, soon), g)
  {
    var s' := Schedule(s, g, v, sig, soon);
    ScheduleOnward(s, g, v, sig, soon, g);
    forall f | f in s'.fibers && s'.fibers[f].canceled
      ensures Scheduled(s', f)
    {
      ScheduleOnward(s, g, v, sig, soon, f);
    }
  }

  lemma OnwardThen(s: State, s': State, s'': State, f: Fid)
    requires Onward(s, s', f) && Onward(s', s'', f)
    ensures Onward(s, s'', f)
  {
  }

  lemma {:induction false} WakeAllOnward(s: State, ps: seq<Pending>, f: Fid)
    ensures Onward(s, WakeAll(s, ps).s, f) && WakeAll(s, ps).s.channels == s.channels
    ensures WakeAll(s, ps).s.current == s.current
  {
    if ps != [] {
      var r, p := WakeAll(s, ps[..|ps| - 1]), ps[|ps| - 1];
      WakeAllOnward(s, ps[..|ps| - 1], f);
      if Fresh(r.s.fibers, p) && !r.s.fibers[p.fiber].done {
        ScheduleOnward(r.s, p.fiber, Nil, Ok, false, f);
        OnwardThen(s, r.s, WakeAll(s, ps).s, f);
      }
    }
  }

  lemma {:induction false} WakeAllAwake(s: State, ps: seq<Pending>)
    requires Awake(s)
    ensures Awake(WakeAll(s, ps).s)
  {
    if ps != [] {
      var r, p := WakeAll(s, ps[..|ps| - 1]), ps[|ps| - 1];
      WakeAllAwake(s, ps[..|ps| - 1]);
      if Fresh(r.s.fibers, p) && !r.s.fibers[p.fiber].done {
        ScheduleAwake(r.s, p.fiber, Nil, Ok, false);
      }
    }
  }

  /** A fiber is scheduled anew, or a cancellation of it was queued, or it had ended. */
  predicate Moved(s: State, s': State, f: Fid) {
    f in s.fibers && f in s'.fibers
      && (s.fibers[f].schedId < s'.fibers[f].schedId || s.fibers[f].canceled || s.fibers[f].done)
  }

  /** Closing leaves no one behind. */
  lemma {:induction false} WakeAllMoves(s: State, ps: seq<Pending>, p: Pending)
    requires p in ps && Fresh(s.fibers, p)
    ensures Moved(s, WakeAll(s, ps).s, p.fiber)
    decreases |ps|
  {
    var n := |ps| - 1;
    var r := WakeAll(s, ps[..n]);
    WakeAllOnward(s, ps[..n], p.fiber);
    WakeAllOnward(s, ps, p.fiber);
    assert ps == ps[..n] + [ps[n]];
    if p in ps[..n] {
      WakeAllMoves(s, ps[..n], p);
      if Fresh(r.s.fibers, ps[n]) && !r.s.fibers[ps[n].fiber].done {
        ScheduleOnward(r.s, ps[n].fiber, Nil, Ok, false, p.fiber);
      }
    } else {
      WakeAllCancels(s, ps[..n], p.fiber);
    }
  }

  /** Waking does not cancel. */
  lemma {:induction false} WakeAllCancels(s: State, ps: seq<Pending>, f: Fid)
    requires f in s.fibers
    ensures f in WakeAll(s, ps).s.fibers
    ensures WakeAll(s, ps).s.fibers[f].canceled ==> s.fibers[f].canceled
    ensures WakeAll(s, ps).s.fibers[f].done == s.fibers[f].done
  {
    if ps != [] {
      WakeAllCancels(s, ps[..|ps| - 1], f);
    }
  }

  // Entries

  lemma {:induction false} FreshStays(fibers: map<Fid, Fiber>, ps: seq<Pending>, p: Pending)
    requires p in ps && Fresh(fibers, p)
    ensures p in SkipStale(fibers, ps)
  {
    if !Fresh(fibers, ps[0]) {
      FreshStays(fibers, ps[1..], p);
    }
  }

  lemma GiveEntry(s: State, f: Fid, c: Cid, v: Value, p: Pending, reading: bool)
    requires f in s.fibers && c in s.channels && InQueue(s, c, p, reading) && Fresh(s.fibers, p)
    ensures var s' := Give(s, f, c, v).s; InQueue(s', c, p, reading) || Moved(s, s', p.fiber)
  {
    var ch := s.channels[c];
    if reading && !ch.closed {
      FreshStays(s.fibers, ch.readers, p);
      var left := SkipStale(s.fibers, ch.readers);
      assert left == [left[0]] + left[1..];
    }
  }

  lemma TakeEntry(s: State, f: Fid, c: Cid, p: Pending, reading: bool)
    requires f in s.fibers && c in s.channels && InQueue(s, c, p, reading) && Fresh(s.fibers, p)
    ensures var s' := Take(s, f, c).s; InQueue(s', c, p, reading) || Moved(s, s', p.fiber)
  {
    var ch := s.channels[c];
    if !reading && !ch.closed && ch.items != [] {
      assert ch.writers == [ch.writers[0]] + ch.writers[1..];
    }
  }

  lemma CloseEntry(s: State, c: Cid, p: Pending, reading: bool)
    requires c in s.channels && InQueue(s, c, p, reading) && Fresh(s.fibers, p)
    ensures var s' := Close(s, c).s; InQueue(s', c, p, reading) || Moved(s, s', p.fiber)
  {
    var ch := s.channels[c];
    if !ch.closed {
      var s1 := Put(s, c, ch.(closed := true, readers := [], writers := []));
      var w := WakeAll(s1, ch.writers).s;
      WakeAllOnward(s1, ch.writers, p.fiber);
      WakeAllOnward(w, ch.readers, p.fiber);
      if reading {
        WakeAllCancels(s1, ch.writers, p.fiber);
        if Fresh(w.fibers, p) {
          WakeAllMoves(w, ch.readers, p);
        }
      } else {
        WakeAllMoves(s1, ch.writers, p);
      }
    }
  }

  /** What a step does to the other channels and their queues: nothing. */
  lemma OtherQueues(s: State, a: Action, c: Cid)
    requires Enabled(s, a) && c in s.channels
    requires (a.GiveTo? || a.TakeFrom? || a.CloseChannel?) ==> a.c != c
    ensures c in Step(s, a).s.channels && Step(s, a).s.channels[c] == s.channels[c]
  {
    if a.CloseChannel? {
      var ch := s.channels[a.c];
      var s1 := Put(s, a.c, ch.(closed := true, readers := [], writers := []));
      WakeAllOnward(s1, ch.writers, 0);
      WakeAllOnward(WakeAll(s1, ch.writers).s, ch.readers, 0);
    }
  }

  /** An entry that carries the present generation of its fiber leaves its queue only in a step that schedules
      the fiber, unless a cancellation of the fiber was queued or the fiber had ended. */
  lemma EntryStays(s: State, a: Action, c: Cid, p: Pending, reading: bool)
    requires Enabled(s, a) && InQueue(s, c, p, reading) && Fresh(s.fibers, p)
    ensures var s' := Step(s, a).s; InQueue(s', c, p, reading) || Moved(s, s', p.fiber)
  {
    if a.GiveTo? && a.c == c {
      GiveEntry(s, s.current.value, c, a.v, p, reading);
    } else if a.TakeFrom? && a.c == c {
      TakeEntry(s, s.current.value, c, p, reading);
    } else if a.CloseChannel? && a.c == c {
      CloseEntry(s, c, p, reading);
    } else {
      OtherQueues(s, a, c);
    }
  }

  // Steps

  lemma OnwardGive(s: State, f: Fid, c: Cid, v: Value, g: Fid)
    requires f in s.fibers && c in s.channels
    ensures Onward(s, Give(s, f, c, v).s, g)
    ensures Awake(s) ==> Awake(Give(s, f, c, v).s)
  {
    var ch := s.channels[c];
    var readers := SkipStale(s.fibers, ch.readers);
    if !ch.closed && readers != [] {
      var s1 := Put(s, c, ch.(readers := readers[1..]));
      SameTasks(s, s1);
      ScheduleOnward(s1, readers[0].fiber, v, Ok, false, g);
      if Awake(s) {
        ScheduleAwake(s1, readers[0].fiber, v, Ok, false);
      }
    } else {
      SameTasks(s, Give(s, f, c, v).s);
    }
  }

  /** Only the fibers and the queue of tasks matter. */
  lemma SameTasks(s: State, s': State)
    requires s'.fibers == s.fibers && s'.spawn == s.spawn
    ensures forall f :: Scheduled(s', f) <==> Scheduled(s, f)
    ensures Awake(s) && (s'.current.None? || s'.current == s.current) ==> Awake(s')
  {
    forall f
      ensures Scheduled(s', f) <==> Scheduled(s, f)
    {
      assert forall t :: RunsNow(s', t, f) <==> RunsNow(s, t, f);
    }
  }

  lemma OnwardTake(s: State, f: Fid, c: Cid, g: Fid)
    requires f in s.fibers && c in s.channels
    ensures Onward(s, Take(s, f, c).s, g)
    ensures Awake(s) ==> Awake(Take(s, f, c).s)
    ensures Awake(s) && (s.channels[c].closed || s.channels[c].items != []) ==> Scheduled(Take(s, f, c).s, f)
  {
    var ch := s.channels[c];
    if ch.closed {
      OnwardLast(s, s, f, Nil, g);
    } else if ch.items == [] {
      SameTasks(s, Take(s, f, c).s);
    } else {
      var s1 := Put(s, c, ch.(items := ch.items[1..], writers := if ch.writers == [] then [] else ch.writers[1..]));
      SameTasks(s, s1);
      if ch.writers == [] || ch.writers[0].fiber !in s.fibers {
        OnwardLast(s, s1, f, ch.items[0], g);
      } else {
        var w := ch.writers[0].fiber;
        ScheduleOnward(s1, w, Channel(c), Ok, false, g);
        if Awake(s) {
          ScheduleAwake(s1, w, Channel(c), Ok, false);
        }
        OnwardLast(s, Schedule(s1, w, Channel(c), Ok, false), f, ch.items[0], g);
      }
    }
  }

  /** The taker itself is scheduled and stops running. */
  lemma OnwardLast(s: State, s1: State, f: Fid, v: Value, g: Fid)
    requires f in s1.fibers && Onward(s, s1, g)
    ensures var s' := Schedule(s1, f, v, Ok, false).(current := None);
            Onward(s, s', g) && (Awake(s1) ==> Awake(s') && Scheduled(s', f))
  {
    var s2 := Schedule(s1, f, v, Ok, false);
    ScheduleOnward(s1, f, v, Ok, false, g);
    OnwardThen(s, s1, s2, g);
    SameTasks(s2, s2.(current := None));
    if Awake(s1) {
      ScheduleAwake(s1, f, v, Ok, false);
    }
  }

  lemma OnwardClose(s: State, c: Cid, g: Fid)
    requires c in s.channels
    ensures Onward(s, Close(s, c).s, g)
    ensures Awake(s) ==> Awake(Close(s, c).s)
  {
    var ch := s.channels[c];
    if !ch.closed {
      var s1 := Put(s, c, ch.(closed := true, readers := [], writers := []));
      SameTasks(s, s1);
      var w := WakeAll(s1, ch.writers).s;
      WakeAllOnward(s1, ch.writers, g);
      WakeAllOnward(w, ch.readers, g);
      OnwardThen(s1, w, Close(s, c).s, g);
      if Awake(s) {
        WakeAllAwake(s1, ch.writers);
        WakeAllAwake(w, ch.readers);
      }
    }
  }

  lemma OnwardExpire(s: State, to: Timeout, g: Fid)
    ensures Onward(s, Expire(s, to).s, g)
    ensures Awake(s) ==> Awake(Expire(s, to).s)
  {
    if to.fiber in s.fibers {
      ScheduleOnward(s, to.fiber, Message("deadline expired"), Error, false, g);
      ScheduleOnward(s, to.fiber, Message("timeout"), Error, false, g);
      ScheduleOnward(s, to.fiber, Nil, Ok, false, g);
      if Awake(s) {
        ScheduleAwake(s, to.fiber, Message("deadline expired"), Error, false);
        ScheduleAwake(s, to.fiber, Message("timeout"), Error, false);
        ScheduleAwake(s, to.fiber, Nil, Ok, false);
      }
    }
  }

  lemma OnwardGo(s: State, f: Fid, g: Fid)
    requires f !in s.fibers && Awake(s)
    ensures Onward(s, Step(s, Go(f)).s, g) && Awake(Step(s, Go(f)).s)
  {
    var s1 := s.(fibers := s.fibers[f := Fiber(0, false, false, false)]);
    forall h | h in s.fibers && Scheduled(s, h)
      ensures Scheduled(s1, h)
    {
      var t :| t in s.spawn && RunsNow(s, t, h);
      assert RunsNow(s1, t, h);
    }
    ScheduleOnward(s1, f, Nil, Ok, false, g);
    ScheduleAwake(s1, f, Nil, Ok, false);
  }

  /** Any step but running a task and the end of a fiber. */
  lemma OnwardStep(s: State, a: Action, g: Fid)
    requires Enabled(s, a) && !a.Run? && !a.Finish? && Awake(s)
    ensures Onward(s, Step(s, a).s, g) && Awake(Step(s, a).s)
  {
    match a
    case Go(f) => OnwardGo(s, f, g);
    case GiveTo(c, v) => OnwardGive(s, s.current.value, c, v, g);
    case TakeFrom(c) => OnwardTake(s, s.current.value, c, g);
    case CloseChannel(c) => OnwardClose(s, c, g);
    case Cancel(f) =>
      ScheduleOnward(s, f, Message("cancel"), Error, false, g);
      ScheduleAwake(s, f, Message("cancel"), Error, false);
    case Rewake(f, soon) =>
      ScheduleOnward(s, f, Nil, Ok, soon, g);
      ScheduleAwake(s, f, Nil, Ok, soon);
    case TimeUp(to) =>
      var s1 := s.(timeouts := s.timeouts - multiset{to});
      SameTasks(s, s1);
      OnwardExpire(s1, to, g);
    case NewChannel(_, _) => SameTasks(s, Step(s, a).s);
    case AddTimeout(_) => SameTasks(s, Step(s, a).s);
    case Await => SameTasks(s, Step(s, a).s);
  }

  /** Running a task resumes its fiber or takes nothing away from it. */
  lemma RunKeeps(s: State, f: Fid)
    requires Enabled(s, Run) && f in s.fibers && !s.fibers[f].done && Scheduled(s, f)
    ensures var s' := Step(s, Run).s; s'.current == Some(f) || Scheduled(s', f)
  {
    var s' := Step(s, Run).s;
    var t :| t in s.spawn && RunsNow(s, t, f);
    assert s.spawn == [s.spawn[0]] + s.spawn[1..];
    if t != s.spawn[0] {
      assert t in s'.spawn && RunsNow(s', t, f);
    }
  }

  lemma RunAwake(s: State)
    requires Enabled(s, Run) && Awake(s)
    ensures Awake(Step(s, Run).s)
  {
    var s' := Step(s, Run).s;
    forall f | f in s'.fibers && s'.fibers[f].canceled
      ensures Scheduled(s', f)
    {
      var t :| t in s.spawn && RunsNow(s, t, f);
      assert s.spawn == [s.spawn[0]] + s.spawn[1..];
      assert t in s'.spawn && RunsNow(s', t, f);
    }
  }

  lemma FinishAwake(s: State, g: Fid)
    requires Enabled(s, Finish) && Awake(s)
    ensures Awake(Step(s, Finish).s)
    ensures s.current != Some(g) ==> Onward(s, Step(s, Finish).s, g)
  {
    var s' := Step(s, Finish).s;
    forall f | f in s.fibers && Scheduled(s, f)
      ensures Scheduled(s', f)
    {
      var t :| t in s.spawn && RunsNow(s, t, f);
      assert RunsNow(s', t, f);
    }
  }

  lemma StepAwake(s: State, a: Action)
    requires Enabled(s, a) && Awake(s)
    ensures Awake(Step(s, a).s)
  {
    if a.Run? {
      RunAwake(s);
    } else if a.Finish? {
      FinishAwake(s, 0);
    } else {
      OnwardStep(s, a, 0);
    }
  }

  /** Timeouts stay until they are due, and then they schedule their fiber. */
  lemma TimeoutStays(s: State, a: Action, p: Pending, to: Timeout)
    requires Enabled(s, a) && Present(s, p, Until(to))
    ensures to in Step(s, a).s.timeouts || Moved(s, Step(s, a).s, p.fiber)
  {
    if a.CloseChannel? {
      var ch := s.channels[a.c];
      var s1 := Put(s, a.c, ch.(closed := true, readers := [], writers := []));
      WakeAllTimeouts(s1, ch.writers);
      WakeAllTimeouts(WakeAll(s1, ch.writers).s, ch.readers);
    }
  }

  lemma {:induction false} WakeAllTimeouts(s: State, ps: seq<Pending>)
    ensures WakeAll(s, ps).s.timeouts == s.timeouts
  {
    if ps != [] {
      WakeAllTimeouts(s, ps[..|ps| - 1]);
    }
  }

  /** A fiber that waits: it has not ended and does not run, and it is where it will be woken from, or a task of
      its present generation is queued. */
  ghost predicate Accounted(s: State, p: Pending, at: Place) {
    && p.fiber in s.fibers && !s.fibers[p.fiber].done && s.current != Some(p.fiber)
    && (Present(s, p, at) || Scheduled(s, p.fiber))
  }

  lemma AccountedStep(s: State, a: Action, p: Pending, at: Place)
    requires Enabled(s, a) && Awake(s) && Accounted(s, p, at)
    ensures Step(s, a).s.current == Some(p.fiber) || Accounted(Step(s, a).s, p, at)
  {
    var s', f := Step(s, a).s, p.fiber;
    if Present(s, p, at) {
      match at
      case On(c, reading) => EntryStays(s, a, c, p, reading);
      case Until(to) => TimeoutStays(s, a, p, to);
    }
    if a.Run? {
      if Scheduled(s, f) {
        RunKeeps(s, f);
      }
    } else {
      if a.Finish? {
        FinishAwake(s, f);
      } else {
        OnwardStep(s, a, f);
      }
      CurrentStays(s, a, f);
    }
  }

  /** Only running a task makes a fiber run. */
  lemma CurrentStays(s: State, a: Action, f: Fid)
    requires Enabled(s, a) && !a.Run? && s.current != Some(f)
    ensures Step(s, a).s.current != Some(f)
  {
    if a.CloseChannel? {
      var ch := s.channels[a.c];
      var s1 := Put(s, a.c, ch.(closed := true, readers := [], writers := []));
      WakeAllOnward(s1, ch.writers, f);
      WakeAllOnward(WakeAll(s1, ch.writers).s, ch.readers, f);
    }
  }

  // Runs

  lemma {:induction false} AwakeAt(h: History, n: nat)
    requires h.Valid() && n <= |h.actions|
    ensures Awake(h.states[n])
  {
    if n > 0 {
      AwakeAt(h, n - 1);
      assert h.MovesAt(n - 1);
      StepAwake(h.states[n - 1], h.actions[n - 1]);
    }
  }

  /** The running fiber gives or takes and has to stop. */
  predicate Stops(s: State, a: Action) {
    Enabled(s, a) && (a.GiveTo? || a.TakeFrom?) && Step(s, a).s.current.None?
  }

  /** The running fiber goes to sleep with a timeout of its own. */
  predicate Sleeps(s: State, a: Action, to: Timeout) {
    Enabled(s, a) && a.Await? && Present(s, Entry(s), Until(to))
  }

  /** The entry that stands for the running fiber. */
  function Entry(s: State): Pending
    requires s.current.Some? && s.current.value in s.fibers
  {
    Pending(s.current.value, s.fibers[s.current.value].schedId)
  }

  /** The queue that the fiber would wait in is not as large as it can be. */
  predicate HasRoom(s: State, a: Action)
    requires Enabled(s, a) && (a.GiveTo? || a.TakeFrom?)
  {
    |Queue(s.channels[a.c], a.TakeFrom?)| + 1 < MAX_CAPACITY
  }

  /** The step makes the running fiber wait at a place. */
  ghost predicate WaitsAt(s: State, a: Action, at: Place) {
    match at
    case On(c, reading) => Stops(s, a) && HasRoom(s, a) && a.c == c && a.TakeFrom? == reading
    case Until(to) => Sleeps(s, a, to)
  }

  lemma StopAccounted(s: State, a: Action, at: Place)
    requires Awake(s) && WaitsAt(s, a, at)
    ensures Accounted(Step(s, a).s, Entry(s), at)
  {
    var f := s.current.value;
    OnwardStep(s, a, f);
    if a.TakeFrom? {
      OnwardTake(s, f, a.c, f);
    }
  }

  /** A full queue drops the entry: unless a task of it is queued anyway, nothing will wake the fiber. */
  lemma FullQueueStrands(s: State, a: Action)
    requires Stops(s, a) && !HasRoom(s, a)
    requires a.TakeFrom? ==> !s.channels[a.c].closed && s.channels[a.c].items == []
    ensures var s' := Step(s, a).s;
            && Queue(s'.channels[a.c], a.TakeFrom?) == Queue(s.channels[a.c], a.TakeFrom?)
            && (Scheduled(s', s.current.value) <==> Scheduled(s, s.current.value))
  {
    SameTasks(s, Step(s, a).s);
  }

  /** The fiber runs after one of the steps from m to n. */
  ghost predicate RunsBetween(h: History, m: nat, n: nat, f: Fid)
    requires n < |h.states|
  {
    exists k :: m <= k <= n && h.states[k].current == Some(f)
  }

  /** In every run: a fiber that stopped in a give or take, or went to sleep, is in the queue of that channel or
      has its timeout, with its present generation, or a task of its present generation is queued, until it runs
      again. */
  lemma {:induction false} NoLostWakeup(h: History, i: nat, j: nat, at: Place)
    requires h.Valid() && i < j <= |h.actions| && WaitsAt(h.states[i], h.actions[i], at)
    ensures var p := Entry(h.states[i]); RunsBetween(h, i + 1, j, p.fiber) || Accounted(h.states[j], p, at)
    decreases j
  {
    var s, a := h.states[i], h.actions[i];
    if j == i + 1 {
      assert h.MovesAt(i);
      AwakeAt(h, i);
      StopAccounted(s, a, at);
    } else {
      NoLostWakeup(h, i, j - 1, at);
      if !RunsBetween(h, i + 1, j - 1, s.current.value) {
        assert h.MovesAt(j - 1);
        AwakeAt(h, j - 1);
        AccountedStep(h.states[j - 1], h.actions[j - 1], Entry(s), at);
      }
    }
  }

  // What a waiting fiber is woken with

  /** An item and the first writer that waits leave a channel together, and the writer is scheduled with the
      channel as its next generation, unless a cancellation of it is queued. */
  lemma TakeWakesWriter(s: State, f: Fid, c: Cid)
    requires f in s.fibers && c in s.channels && !s.channels[c].closed
    ensures var ch, s' := s.channels[c], Take(s, f, c).s;
            && (ch.items == [] ==> s'.channels[c].items == [] && s'.channels[c].writers == ch.writers)
            && (ch.items != [] ==> ch.items == [ch.items[0]] + s'.channels[c].items)
            && (ch.items != [] && ch.writers != [] ==>
                 && ch.writers == [ch.writers[0]] + s'.channels[c].writers
                 && var w := ch.writers[0].fiber;
                 w in s.fibers && !s.fibers[w].canceled ==>
                   && |s'.spawn| > |s.spawn| && s'.spawn[..|s.spawn|] == s.spawn
                   && s'.spawn[|s.spawn|] == Task(w, Channel(c), Ok, s.fibers[w].schedId + 1)
                   && (w != f ==> Scheduled(s', w)))
  {
    var ch, s' := s.channels[c], Take(s, f, c).s;
    if ch.items != [] && ch.writers != [] && ch.writers[0].fiber in s.fibers {
      var w := ch.writers[0].fiber;
      if !s.fibers[w].canceled && w != f {
        var t := s'.spawn[|s.spawn|];
        assert t in s'.spawn && RunsNow(s', t, w);
      }
    }
  }

  /** The entries of other fibers, and stale ones, do not touch a fiber. */
  lemma {:induction false} WakeAllOthers(s: State, ps: seq<Pending>, p: Pending)
    requires p !in ps && Fresh(s.fibers, p)
    ensures var s' := WakeAll(s, ps).s; p.fiber in s'.fibers && s'.fibers[p.fiber] == s.fibers[p.fiber]
  {
    if ps != [] {
      WakeAllOthers(s, ps[..|ps| - 1], p);
    }
  }

  lemma {:induction false} WakeAllTask(s: State, ps: seq<Pending>, p: Pending)
    requires p in ps && Fresh(s.fibers, p) && !s.fibers[p.fiber].done && !s.fibers[p.fiber].canceled
    ensures Task(p.fiber, Nil, Ok, p.schedId + 1) in WakeAll(s, ps).s.spawn
    decreases |ps|
  {
    var n := |ps| - 1;
    var r := WakeAll(s, ps[..n]);
    assert ps == ps[..n] + [ps[n]];
    if p in ps[..n] {
      WakeAllTask(s, ps[..n], p);
      if Fresh(r.s.fibers, ps[n]) {
        ScheduleGrows(r.s, ps[n].fiber, Nil, Ok, false);
      }
    } else {
      WakeAllOthers(s, ps[..n], p);
    }
  }

  /** Closing a channel schedules everyone who waits in it with nil, as the next generation. */
  lemma CloseWakes(s: State, c: Cid, p: Pending, reading: bool)
    requires InQueue(s, c, p, reading) && !s.channels[c].closed
    requires Fresh(s.fibers, p) && !s.fibers[p.fiber].done && !s.fibers[p.fiber].canceled
    ensures Task(p.fiber, Nil, Ok, p.schedId + 1) in Close(s, c).s.spawn
  {
    var ch := s.channels[c];
    var s1 := Put(s, c, ch.(closed := true, readers := [], writers := []));
    var w := WakeAll(s1, ch.writers).s;
    if p in ch.writers {
      WakeAllTask(s1, ch.writers, p);
      WakeAllGrows(w, ch.readers);
    } else {
      WakeAllOthers(s1, ch.writers, p);
      WakeAllTask(w, ch.readers, p);
    }
  }

  /** What a timeout that is due does: a sleep resumes its fiber with nil, a timeout and a deadline cancel it
      with a message; a deadline only while the fiber it watches can run, the others only if the fiber has not
      been scheduled since. Otherwise nothing happens. */
  lemma ExpireDelivers(s: State, to: Timeout)
    ensures var s', f := Expire(s, to).s, to.fiber;
            if f !in s.fibers || s.fibers[f].canceled then s' == s
            else
              var due := if to.watched.Some? then
                  to.watched.value in s.fibers && !s.fibers[to.watched.value].done && s.fibers[f].root
                else s.fibers[f].schedId == to.schedId;
              var value := if to.watched.Some? then Message("deadline expired")
                else if to.isError then Message("timeout") else Nil;
              var sig := if to.watched.Some? || to.isError then Error else Ok;
              if !due then s' == s
              else
                && s'.spawn == s.spawn + [Task(f, value, sig, s.fibers[f].schedId + 1)]
                && s'.fibers[f].schedId == s.fibers[f].schedId + 1 && s'.fibers[f].canceled == sig.Error?
  {
  }

  // The order of the tasks

  /** Tasks that a list of entries has added: each resumes with nil the fiber of an entry, as its next
      generation. */
  predicate FromEntries(tasks: seq<Task>, ps: seq<Pending>) {
    forall k :: 0 <= k < |tasks| ==>
      exists p :: p in ps && tasks[k] == Task(p.fiber, Nil, Ok, p.schedId + 1)
  }

  lemma {:induction false} WakeAllAdds(s: State, ps: seq<Pending>)
    ensures var spawn := WakeAll(s, ps).s.spawn;
            s.spawn <= spawn && FromEntries(spawn[|s.spawn|..], ps)
  {
    if ps != [] {
      var n := |ps| - 1;
      WakeAllAdds(s, ps[..n]);
      var before, spawn := WakeAll(s, ps[..n]).s.spawn, WakeAll(s, ps).s.spawn;
      assert before <= spawn && |spawn| <= |before| + 1;
      forall k | |s.spawn| <= k < |spawn|
        ensures exists p :: p in ps && spawn[k] == Task(p.fiber, Nil, Ok, p.schedId + 1)
      {
        if k < |before| {
          assert before[|s.spawn|..][k - |s.spawn|] == spawn[k];
          var p :| p in ps[..n] && spawn[k] == Task(p.fiber, Nil, Ok, p.schedId + 1);
          assert p in ps;
        } else {
          assert ps[n] in ps;
        }
      }
    }
  }

  /** Closing queues the writers that waited before the readers that waited, behind everything else. */
  lemma CloseOrder(s: State, c: Cid) returns (writers: seq<Task>, readers: seq<Task>)
    requires c in s.channels
    ensures Close(s, c).s.spawn == s.spawn + writers + readers
    ensures FromEntries(writers, s.channels[c].writers) && FromEntries(readers, s.channels[c].readers)
  {
    var ch := s.channels[c];
    writers, readers := [], [];
    if !ch.closed {
      var s1 := Put(s, c, ch.(closed := true, readers := [], writers := []));
      var w := WakeAll(s1, ch.writers).s;
      WakeAllAdds(s1, ch.writers);
      WakeAllAdds(w, ch.readers);
      writers, readers := w.spawn[|s.spawn|..], Close(s, c).s.spawn[|w.spawn|..];
    }
  }

  /** Tasks are taken off the front, and added at the end; one that is to run soon is added at the front. */
  lemma QueueOrder(s: State, a: Action)
    requires Enabled(s, a)
    ensures var spawn := Step(s, a).s.spawn;
            if a.Run? then s.spawn == [s.spawn[0]] + spawn
            else if a.Rewake? && a.soon then
              spawn == s.spawn || spawn == [Task(a.g, Nil, Ok, s.fibers[a.g].schedId + 1)] + s.spawn
            else s.spawn <= spawn
  {
    if a.CloseChannel? {
      var writers, readers := CloseOrder(s, a.c);
    }
  }

  /** How many of the steps from m to n run a task. */
  function Turns(h: History, m: nat, n: nat): nat
    requires m <= n <= |h.actions|
  {
    if m == n then 0 else Turns(h, m, n - 1) + if h.actions[n - 1].Run? then 1 else 0
  }

  /** In every run tasks have their turn in the order in which they were queued, as long as none is queued to run
      soon: the task at place i runs with the next turn but i. */
  lemma {:induction false} FirstComeFirstServed(h: History, m: nat, n: nat, i: nat)
    requires h.Valid() && m <= n <= |h.actions| && i < |h.states[m].spawn|
    requires forall k :: m <= k < n ==> !(h.actions[k].Rewake? && h.actions[k].soon)
    requires Turns(h, m, n) <= i
    ensures var left := i - Turns(h, m, n);
            left < |h.states[n].spawn| && h.states[n].spawn[left] == h.states[m].spawn[i]
    decreases n
  {
    if m < n {
      FirstComeFirstServed(h, m, n - 1, i);
      assert h.MovesAt(n - 1);
      QueueOrder(h.states[n - 1], h.actions[n - 1]);
    }
  }

  // Every fiber is a task

  predicate Root(s: State, f: Fid) {
    f in s.fibers ==> s.fibers[f].root && s.fibers[f].schedId > 0
  }

  lemma {:induction false} WakeAllRoot(s: State, ps: seq<Pending>, f: Fid)
    requires Root(s, f)
    ensures Root(WakeAll(s, ps).s, f) && (f !in s.fibers ==> f !in WakeAll(s, ps).s.fibers)
  {
    if ps != [] {
      WakeAllRoot(s, ps[..|ps| - 1], f);
    }
  }

  lemma GiveRoot(s: State, f: Fid, c: Cid, v: Value, g: Fid)
    requires f in s.fibers && c in s.channels && Root(s, g)
    ensures Root(Give(s, f, c, v).s, g)
  {
  }

  lemma TakeRoot(s: State, f: Fid, c: Cid, g: Fid)
    requires f in s.fibers && c in s.channels && Root(s, g)
    ensures Root(Take(s, f, c).s, g)
  {
  }

  lemma ExpireRoot(s: State, to: Timeout, g: Fid)
    requires Root(s, g)
    ensures Root(Expire(s, to).s, g)
  {
  }

  lemma CloseRoot(s: State, c: Cid, g: Fid)
    requires c in s.channels && Root(s, g)
    ensures Root(Close(s, c).s, g)
  {
    var ch := s.channels[c];
    if !ch.closed {
      var s1 := Put(s, c, ch.(closed := true, readers := [], writers := []));
      WakeAllRoot(s1, ch.writers, g);
      WakeAllRoot(WakeAll(s1, ch.writers).s, ch.readers, g);
    }
  }

  lemma RootStep(s: State, a: Action, f: Fid)
    requires Enabled(s, a) && Root(s, f)
    ensures Root(Step(s, a).s, f)
  {
    match a
    case GiveTo(c, v) => GiveRoot(s, s.current.value, c, v, f);
    case TakeFrom(c) => TakeRoot(s, s.current.value, c, f);
    case CloseChannel(c) => CloseRoot(s, c, f);
    case TimeUp(to) => ExpireRoot(s.(timeouts := s.timeouts - multiset{to}), to, f);
    case _ =>
  }

  /** In every run every fiber that was started has been scheduled, and can be cancelled as a task. */
  lemma {:induction false} StartedIsRoot(h: History, n: nat, f: Fid)
    requires h.Valid() && n <= |h.actions|
    ensures Root(h.states[n], f)
  {
    if n > 0 {
      StartedIsRoot(h, n - 1, f);
      assert h.MovesAt(n - 1);
      RootStep(h.states[n - 1], h.actions[n - 1], f);
    }
  }
}
