/** The scheduler of one thread: fibers with generation numbers, the queue of scheduled tasks, unthreaded
    channels and timeouts. */
module Scheduler {
  import opened Options
  import opened RingBuffer
  import opened TimerHeap

  type Fid = nat
  type Cid = nat

  datatype Value = Nil | Item(n: int) | Channel(c: Cid) | Message(text: string)
  datatype Signal = Ok | Error

  /** The generation counts how often the fiber was scheduled; the flags say that its cancellation is
      queued, that it is a task, and that it has ended. */
  datatype Fiber = Fiber(schedId: nat, canceled: bool, root: bool, done: bool)

  datatype Task = Task(fiber: Fid, value: Value, sig: Signal, expected: nat)

  /** A fiber blocked on a channel, with its generation at that time. */
  datatype Pending = Pending(fiber: Fid, schedId: nat)

  datatype Chan = Chan(items: seq<Value>, readers: seq<Pending>, writers: seq<Pending>, limit: nat, closed: bool)

  /** The fiber that runs, if any, is current. */
  datatype State = State(fibers: map<Fid, Fiber>, spawn: seq<Task>, channels: map<Cid, Chan>,
                         timeouts: multiset<Timeout>, current: Option<Fid>)

  /** What can be seen of a run: a channel entry or timeout tagged with a generation wakes its fiber; a
      task that leaves the queue resumes its fiber, finds that it has ended, or is dropped because the
      fiber was scheduled again; a channel takes a value in and gives it out, with a task or to nobody. */
  datatype Event =
    | Woken(f: Fid, id: nat)
    | Resumed(task: Task)
    | Refused(task: Task)
    | Dropped(task: Task)
    | Given(c: Cid, v: Value)
    | Handed(c: Cid, v: Value, task: Task)
    | Lost(c: Cid, v: Value)

  datatype Result = Result(s: State, events: seq<Event>)

  /** Queues a task for the fiber, unless a cancellation is already queued. */
  function Schedule(s: State, f: Fid, v: Value, sig: Signal, soon: bool): State
    requires f in s.fibers
  {
    if s.fibers[f].canceled then s
    else
      var id := s.fibers[f].schedId + 1;
      var task := Task(f, v, sig, id);
      s.(fibers := s.fibers[f := s.fibers[f].(schedId := id, canceled := sig.Error?, root := true)],
         spawn := if soon then [task] + s.spawn else s.spawn + [task])
  }

  /** The task that a fiber gets when it is scheduled with a value. */
  function TaskFor(s: State, f: Fid, v: Value): Task
    requires f in s.fibers
  {
    Task(f, v, Ok, s.fibers[f].schedId + 1)
  }

  /** Wakes a fiber through an entry that carries its present generation. */
  function Wake(s: State, f: Fid, v: Value, sig: Signal): Result
    requires f in s.fibers
  {
    if s.fibers[f].canceled then Result(s, [])
    else Result(Schedule(s, f, v, sig, false), [Woken(f, s.fibers[f].schedId)])
  }

  predicate Fresh(fibers: map<Fid, Fiber>, p: Pending) {
    p.fiber in fibers && p.schedId == fibers[p.fiber].schedId
  }

  /** The queue from its first fresh entry on. */
  function SkipStale(fibers: map<Fid, Fiber>, ps: seq<Pending>): (r: seq<Pending>)
    ensures r == [] || Fresh(fibers, r[0])
  {
    if ps == [] || Fresh(fibers, ps[0]) then ps else SkipStale(fibers, ps[1..])
  }

  /** A push onto a pending queue; its failure at the largest capacity goes unnoticed. */
  function Enqueue(ps: seq<Pending>, p: Pending): seq<Pending> {
    if |ps| + 1 < MAX_CAPACITY then ps + [p] else ps
  }

  function Put(s: State, c: Cid, ch: Chan): State {
    s.(channels := s.channels[c := ch])
  }

  /** A blocking give by the current fiber. */
  function Give(s: State, f: Fid, c: Cid, v: Value): Result
    requires f in s.fibers && c in s.channels
  {
    var ch := s.channels[c];
    if ch.closed then Result(s, []) // panics
    else
      var readers := SkipStale(s.fibers, ch.readers);
      if readers == [] then
        if |ch.items| + 1 >= MAX_CAPACITY then Result(Put(s, c, ch.(readers := [])), []) // panics
        else if |ch.items| + 1 > ch.limit then
          var me := Pending(f, s.fibers[f].schedId);
          Result(Put(s, c,
            ch.(items := ch.items + [v], readers := [], writers := Enqueue(ch.writers, me))).(current := None),
                 [Given(c, v)])
        else Result(Put(s, c, ch.(items := ch.items + [v], readers := [])), [Given(c, v)])
      else
        var reader := readers[0].fiber;
        var r := Wake(Put(s, c, ch.(readers := readers[1..])), reader, v, Ok);
        Result(r.s, [Given(c, v), if r.events == [] then Lost(c, v) else Handed(c, v, TaskFor(s, reader, v))]
          + r.events)
  }

  /** A blocking take by the current fiber, which then waits to be resumed with the value. The first
      waiting writer is scheduled, whether its entry is stale or not. */
  function Take(s: State, f: Fid, c: Cid): Result
    requires f in s.fibers && c in s.channels
  {
    var ch := s.channels[c];
    if ch.closed then Result(Schedule(s, f, Nil, Ok, false).(current := None), [])
    else if ch.items == [] then
      Result(Put(s, c, ch.(readers := Enqueue(ch.readers, Pending(f, s.fibers[f].schedId)))).(current := None), [])
    else
      var v := ch.items[0];
      var s1 := Put(s, c, ch.(items := ch.items[1..], writers := if ch.writers == [] then [] else ch.writers[1..]));
      var s2 := if ch.writers == [] || ch.writers[0].fiber !in s.fibers then s1
                else Schedule(s1, ch.writers[0].fiber, Channel(c), Ok, false);
      Result(Schedule(s2, f, v, Ok, false).(current := None),
             [if s2.fibers[f].canceled then Lost(c, v) else Handed(c, v, TaskFor(s2, f, v))])
  }

  /** Closing wakes every fiber of a queue whose entry is fresh. */
  function WakeAll(s: State, ps: seq<Pending>): Result
  {
    if ps == [] then Result(s, [])
    else
      var r := WakeAll(s, ps[..|ps| - 1]);
      var p := ps[|ps| - 1];
      if Fresh(r.s.fibers, p) && !r.s.fibers[p.fiber].done then
        var w := Wake(r.s, p.fiber, Nil, Ok);
        Result(w.s, r.events + w.events)
      else r
  }

  function Close(s: State, c: Cid): Result
    requires c in s.channels
  {
    var ch := s.channels[c];
    if ch.closed then Result(s, [])
    else
      var w := WakeAll(Put(s, c, ch.(closed := true, readers := [], writers := [])), ch.writers);
      var r := WakeAll(w.s, ch.readers);
      Result(r.s, w.events + r.events)
  }

  /** A timeout that is due: a deadline cancels its fiber if the one it watches can still run; any other
      timeout resumes or cancels its fiber if that has not been scheduled since. */
  function Expire(s: State, to: Timeout): Result {
    if to.fiber !in s.fibers then Result(s, [])
    else if to.watched.Some? then
      if to.watched.value in s.fibers && !s.fibers[to.watched.value].done && s.fibers[to.fiber].root
      then Result(Schedule(s, to.fiber, Message("deadline expired"), Error, false), [])
      else Result(s, [])
    else if s.fibers[to.fiber].schedId != to.schedId then Result(s, [])
    else if to.isError then Wake(s, to.fiber, Message("timeout"), Error)
    else Wake(s, to.fiber, Nil, Ok)
  }

  /** The next task: it is run only if its fiber has not been scheduled again since. */
  function RunTask(s: State): Result
    requires s.spawn != [] && s.spawn[0].fiber in s.fibers
  {
    var task := s.spawn[0];
    var fiber := s.fibers[task.fiber].(canceled := false);
    var s' := s.(fibers := s.fibers[task.fiber := fiber], spawn := s.spawn[1..]);
    if task.expected != fiber.schedId then Result(s', [Dropped(task)])
    else if fiber.done then Result(s', [Refused(task)])
    else Result(s'.(current := Some(task.fiber)), [Resumed(task)])
  }

  datatype Action =
    | Go(g: Fid) // a new fiber is scheduled
    | NewChannel(c: Cid, limit: nat)
    | GiveTo(c: Cid, v: Value)
    | TakeFrom(c: Cid)
    | CloseChannel(c: Cid)
    | AddTimeout(to: Timeout)
    | Cancel(g: Fid)
    | Rewake(g: Fid, soon: bool) // other code, such as a stream, schedules a task
    | Await
    | Finish
    | TimeUp(to: Timeout)
    | Run

  predicate Enabled(s: State, a: Action) {
    && (s.current.Some? ==> s.current.value in s.fibers)
    && match a
       case Go(g) => g !in s.fibers
       case NewChannel(c, _) => c !in s.channels
       case GiveTo(c, _) => s.current.Some? && c in s.channels
       case TakeFrom(c) => s.current.Some? && c in s.channels
       case CloseChannel(c) => s.current.Some? && c in s.channels
       case AddTimeout(to) => to.fiber in s.fibers && to.schedId == s.fibers[to.fiber].schedId
       case Cancel(g) => g in s.fibers && s.fibers[g].root
       case Rewake(g, _) => g in s.fibers
       case Await => s.current.Some?
       case Finish => s.current.Some?
       case TimeUp(to) => s.current.None? && to in s.timeouts
       case Run => s.current.None? && s.spawn != [] && s.spawn[0].fiber in s.fibers
  }

  function Step(s: State, a: Action): Result
    requires Enabled(s, a)
  {
    match a
    case Go(g) => Result(Schedule(s.(fibers := s.fibers[g := Fiber(0, false, false, false)]), g, Nil, Ok, false), [])
    case NewChannel(c, limit) => Result(Put(s, c, Chan([], [], [], limit, false)), [])
    case GiveTo(c, v) => Give(s, s.current.value, c, v)
    case TakeFrom(c) => Take(s, s.current.value, c)
    case CloseChannel(c) => Close(s, c)
    case AddTimeout(to) => Result(s.(timeouts := s.timeouts + multiset{to}), [])
    case Cancel(g) => Result(Schedule(s, g, Message("cancel"), Error, false), [])
    case Rewake(g, soon) => Result(Schedule(s, g, Nil, Ok, soon), [])
    case Await => Result(s.(current := None), [])
    case Finish =>
      var f := s.current.value;
      Result(s.(fibers := s.fibers[f := s.fibers[f].(done := true)], current := None), [])
    case TimeUp(to) => Expire(s.(timeouts := s.timeouts - multiset{to}), to)
    case Run => RunTask(s)
  }
}
