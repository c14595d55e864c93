/** Abstract values shared between threads. Every thread has a table of those in its heap, messages in
    transit hold references too, and a reference count decides which thread finalizes a value. The
    atomic steps of all threads interleave in any order. */
module ThreadedAbstracts {
  import opened Options

  type Obj = nat
  type Tid = nat

  /** What a thread is doing: running its program, or part way through the loop over its table in a
      sweep or at thread exit, with the entries it has not come to yet. */
  datatype Phase = Running | Sweeping(pending: set<Obj>) | Exiting(pending: set<Obj>) | Gone

  /** The table tells which abstracts the thread holds and whether marking came across them; reach is
      what the thread's heap refers to. A doomed abstract is about to be finalized by this thread. */
  datatype Thread = Thread(table: map<Obj, bool>, reach: set<Obj>, phase: Phase, doomed: Option<Obj>)

  /** A reference count, and how often the finalizer was called. */
  datatype Abstract = Abstract(refcount: int, finalized: nat)

  /** The messages are the references in transit; lost are those that nobody will ever read. */
  datatype State = State(objects: map<Obj, Abstract>, threads: map<Tid, Thread>, messages: multiset<Obj>,
                         lost: multiset<Obj>)

  datatype Action =
    | Spawn(t: Tid)
    | Create(t: Tid, o: Obj)
    | Forget(t: Tid, o: Obj) // the last reference in the heap goes away
    | Send(t: Tid, o: Obj)
    | FailSend(t: Tid, o: Obj) // marshalling raises after it has counted the reference
    | Receive(t: Tid, o: Obj)
    | Discard(t: Tid, o: Obj) // a message is unmarshalled only to give its references back, also by finalizers
    | Strand(t: Tid, o: Obj) // unmarshalling raises before it has read the reference
    | Mark(t: Tid)
    | SweepItem(t: Tid, o: Obj)
    | SweepEnd(t: Tid)
    | Exit(t: Tid)
    | ExitItem(t: Tid, o: Obj)
    | ExitEnd(t: Tid)
    | Finalize(t: Tid)

  /** What a thread in a given phase can do; a thread that dropped a count to zero finalizes first. */
  predicate Enabled(s: State, a: Action) {
    if a.Spawn? then a.t !in s.threads
    else a.t in s.threads && Able(s, s.threads[a.t], a)
  }

  predicate Able(s: State, th: Thread, a: Action) {
    match a
    case Spawn(_) => false
    case Create(_, o) => th.phase.Running? && o !in s.objects
    case Forget(_, o) => th.phase.Running? && o in th.reach
    case Send(_, o) => th.phase.Running? && o in th.reach && o in s.objects
    case FailSend(_, o) => th.phase.Running? && o in th.reach && o in s.objects
    case Receive(_, o) => th.phase.Running? && o in s.messages && o in s.objects
    case Discard(_, o) => !th.phase.Gone? && o in s.messages && o in s.objects
    case Strand(_, o) => !th.phase.Gone? && o in s.messages
    case Mark(_) => th.phase.Running?
    case SweepItem(_, o) => th.phase.Sweeping? && o in th.phase.pending && th.doomed.None? && o in th.table
      && o in s.objects
    case SweepEnd(_) => th.phase == Sweeping({}) && th.doomed.None?
    case Exit(_) => th.phase.Running?
    case ExitItem(_, o) => th.phase.Exiting? && o in th.phase.pending && th.doomed.None? && o in th.table
      && o in s.objects
    case ExitEnd(_) => th.phase == Exiting({}) && th.doomed.None?
    case Finalize(_) => th.doomed.Some? && th.doomed.value in s.objects
  }

  function Bump(s: State, o: Obj, d: int): (objects: map<Obj, Abstract>)
    requires o in s.objects
  {
    s.objects[o := s.objects[o].(refcount := s.objects[o].refcount + d)]
  }

  /** The thread no longer holds o; when that was the last reference it has to finalize o. */
  function Release(s: State, th: Thread, o: Obj, phase: Phase): Thread
    requires o in s.objects
  {
    Thread(th.table - {o}, th.reach, phase, if s.objects[o].refcount - 1 == 0 then Some(o) else None)
  }

  /** Marking puts what the heap refers to in the table, as visited. */
  function Marked(th: Thread): map<Obj, bool> {
    map o | o in th.table.Keys + th.reach :: o in th.reach || th.table[o]
  }

  /** One atomic step of a thread, as changes to the objects, to the thread and to the messages. The counts
      of a failed send or receive stay behind. */
  function Change(s: State, th: Thread, a: Action): (map<Obj, Abstract>, Thread, multiset<Obj>)
    requires Able(s, th, a)
  {
    match a
    case Create(_, o) =>
      (s.objects[o := Abstract(1, 0)], th.(table := th.table[o := false], reach := th.reach + {o}), s.messages)
    case Forget(_, o) => (s.objects, th.(reach := th.reach - {o}), s.messages)
    case Send(_, o) => (Bump(s, o, 1), th, s.messages + multiset{o})
    case FailSend(_, o) => (Bump(s, o, 1), th, s.messages)
    case Receive(_, o) =>
      if o in th.table then (Bump(s, o, -1), th.(reach := th.reach + {o}), s.messages - multiset{o})
      else (s.objects, th.(table := th.table[o := false], reach := th.reach + {o}), s.messages - multiset{o})
    case Discard(_, o) => (Bump(s, o, -1), th, s.messages - multiset{o})
    case Strand(_, o) => (s.objects, th, s.messages - multiset{o})
    case Mark(_) => (s.objects, th.(table := Marked(th), phase := Sweeping(Marked(th).Keys)), s.messages)
    case SweepItem(_, o) =>
      if th.table[o] then
        (s.objects, th.(table := th.table[o := false], phase := Sweeping(th.phase.pending - {o})), s.messages)
      else
        (Bump(s, o, -1), Release(s, th, o, Sweeping(th.phase.pending - {o})), s.messages)
    case SweepEnd(_) => (s.objects, th.(phase := Running), s.messages)
    case Exit(_) => (s.objects, th.(reach := {}, phase := Exiting(th.table.Keys)), s.messages)
    case ExitItem(_, o) => (Bump(s, o, -1), Release(s, th, o, Exiting(th.phase.pending - {o})), s.messages)
    case ExitEnd(_) => (s.objects, th.(phase := Gone), s.messages)
    case Finalize(_) =>
      var o := th.doomed.value;
      (s.objects[o := s.objects[o].(finalized := s.objects[o].finalized + 1)], th.(doomed := None), s.messages)
  }

  function Step(s: State, a: Action): State
    requires Enabled(s, a)
  {
    if a.Spawn? then s.(threads := s.threads[a.t := Thread(map[], {}, Running, None)])
    else
      var (objects, th, messages) := Change(s, s.threads[a.t], a);
      State(objects, s.threads[a.t := th], messages,
            if a.FailSend? || a.Strand? then s.lost + multiset{a.o} else s.lost)
  }

  function Holders(threads: map<Tid, Thread>, o: Obj): set<Tid> {
    set t | t in threads && o in threads[t].table
  }

  /** A thread's table covers its heap and carries marks only for entries that a sweep has yet to see. */
  ghost predicate ThreadOk(th: Thread) {
    && th.reach <= th.table.Keys
    && (th.doomed.Some? ==> (th.phase.Sweeping? || th.phase.Exiting?) && th.doomed.value !in th.table)
    && match th.phase
       case Running => forall o :: o in th.table ==> !th.table[o]
       case Sweeping(p) => p <= th.table.Keys && forall o :: o in th.table ==>
         (th.table[o] <==> o in p && o in th.reach)
       case Exiting(p) => p == th.table.Keys && th.reach == {}
       case Gone => th.table == map[] && th.reach == {}
  }

  /** The count of an abstract is the number of tables, of messages and of lost messages that have it; it is
      finalized at most once, and only when the count is zero. */
  ghost predicate ObjectOk(s: State, o: Obj) {
    if o in s.objects then
      && s.objects[o].refcount == |Holders(s.threads, o)| + s.messages[o] + s.lost[o]
      && s.objects[o].finalized <= 1
      && (s.objects[o].finalized == 1 ==> s.objects[o].refcount == 0)
    else
      Holders(s.threads, o) == {} && o !in s.messages && o !in s.lost
  }

  /** At most one thread is about to finalize an abstract, and nothing holds that one any more. */
  ghost predicate DoomOk(s: State, t: Tid) {
    t in s.threads && s.threads[t].doomed.Some? ==>
      var o := s.threads[t].doomed.value;
      && o in s.objects && s.objects[o] == Abstract(0, 0)
      && forall u :: u in s.threads && s.threads[u].doomed == Some(o) ==> u == t
  }

  ghost predicate Inv(s: State) {
    && (forall t {:trigger ThreadOk(s.threads[t])} :: t in s.threads ==> ThreadOk(s.threads[t]))
    && (forall o {:trigger ObjectOk(s, o)} :: ObjectOk(s, o))
    && (forall t {:trigger DoomOk(s, t)} :: DoomOk(s, t))
  }

  lemma HoldersPut(threads: map<Tid, Thread>, t: Tid, th: Thread, o: Obj)
    ensures |Holders(threads[t := th], o)|
         == |Holders(threads, o)|
           + (if o in th.table then 1 else 0) - (if t in threads && o in threads[t].table then 1 else 0)
    ensures t in threads && o in threads[t].table ==> |Holders(threads, o)| >= 1
    ensures Holders(threads[t := th], o) == {} <==> o !in th.table && Holders(threads, o) <= {t}
  {
    var rest := Holders(threads, o) - {t};
    assert Holders(threads[t := th], o) == if o in th.table then rest + {t} else rest;
    assert Holders(threads, o) == if t in threads && o in threads[t].table then rest + {t} else rest;
  }

  lemma ThreadStep(s: State, th: Thread, a: Action)
    requires Able(s, th, a) && ThreadOk(th)
    ensures ThreadOk(Change(s, th, a).1)
  {
  }

  function One(b: bool): nat {
    if b then 1 else 0
  }

  /** The count follows the table of the thread, the messages and the lost messages. */
  lemma CountChange(s: State, th: Thread, a: Action, o: Obj)
    requires Able(s, th, a) && o in s.objects && th.reach <= th.table.Keys
    ensures var (objects, th', messages) := Change(s, th, a);
            && o in objects
            && objects[o].refcount - One(o in th'.table) - messages[o] - One((a.FailSend? || a.Strand?) && a.o == o)
               == s.objects[o].refcount - One(o in th.table) - s.messages[o]
            && objects[o].finalized == s.objects[o].finalized + One(a.Finalize? && th.doomed == Some(o))
  {
  }

  /** What does not exist is nowhere, unless it is being created. */
  lemma BirthChange(s: State, th: Thread, a: Action, o: Obj)
    requires Able(s, th, a) && o !in s.objects && o !in th.table && o !in s.messages
    requires th.reach <= th.table.Keys && (th.doomed.Some? ==> th.doomed.value in s.objects)
    ensures var (objects, th', messages) := Change(s, th, a);
            && o !in messages && !((a.FailSend? || a.Strand?) && a.o == o)
            && if a.Create? && a.o == o then o in th'.table && o in objects && objects[o] == Abstract(1, 0)
               else o !in th'.table && o !in objects
  {
  }

  lemma ObjectStep(s: State, a: Action, o: Obj)
    requires Enabled(s, a) && Inv(s)
    ensures ObjectOk(Step(s, a), o)
  {
    assert ObjectOk(s, o);
    if a.Spawn? {
      HoldersPut(s.threads, a.t, Thread(map[], {}, Running, None), o);
    } else {
      var th := s.threads[a.t];
      assert ThreadOk(th) && DoomOk(s, a.t);
      HoldersPut(s.threads, a.t, Change(s, th, a).1, o);
      if o in s.objects {
        CountChange(s, th, a, o);
        FinalizedUntouched(s, th, a, o);
      } else {
        assert a.t !in Holders(s.threads, o);
        BirthChange(s, th, a, o);
      }
    }
  }

  /** Once the count is zero it stays so. */
  lemma FinalizedUntouched(s: State, th: Thread, a: Action, o: Obj)
    requires Able(s, th, a) && ThreadOk(th) && o in s.objects && ObjectOk(s, o)
    requires a.t in s.threads && s.threads[a.t] == th
    ensures s.objects[o].refcount == 0 ==> Change(s, th, a).0[o].refcount == 0
  {
    if s.objects[o].refcount == 0 {
      assert a.t !in Holders(s.threads, o);
    }
  }

  lemma DoomStep(s: State, a: Action, t: Tid)
    requires Enabled(s, a) && Inv(s)
    ensures DoomOk(Step(s, a), t)
  {
    var s' := Step(s, a);
    if t in s'.threads && s'.threads[t].doomed.Some? {
      var o := s'.threads[t].doomed.value;
      if t in s.threads && s.threads[t].doomed == Some(o) {
        assert DoomOk(s, t);
        DoomFrame(s, a, o);
        StillDoomed(s, a, t);
      } else {
        assert ObjectOk(s, o);
        NotDoomed(s, o);
      }
    }
  }

  lemma NotDoomed(s: State, o: Obj)
    requires Inv(s) && o in s.objects && s.objects[o].refcount > 0
    ensures s.objects[o].finalized == 0
    ensures forall u :: u in s.threads ==> s.threads[u].doomed != Some(o)
  {
    assert ObjectOk(s, o);
    forall u | u in s.threads
      ensures s.threads[u].doomed != Some(o)
    {
      assert DoomOk(s, u);
    }
  }

  /** A thread that has to finalize something does nothing else. */
  lemma StillDoomed(s: State, a: Action, t: Tid)
    requires Enabled(s, a) && Inv(s) && t in s.threads && s.threads[t].doomed.Some?
    ensures Step(s, a).threads[t] == if a == Finalize(t) then s.threads[t].(doomed := None) else s.threads[t]
    ensures a.t != t && Step(s, a).threads[a.t].doomed.Some? ==> Step(s, a).threads[a.t].doomed != s.threads[t].doomed
  {
    assert ThreadOk(s.threads[t]) && DoomOk(s, t);
    assert ObjectOk(s, s.threads[t].doomed.value);
    if a.t in s.threads {
      assert ThreadOk(s.threads[a.t]);
      assert a.t !in Holders(s.threads, s.threads[t].doomed.value);
    }
  }

  /** An abstract whose count is zero is left alone, except by the thread that finalizes it. */
  lemma DoomFrame(s: State, a: Action, o: Obj)
    requires Enabled(s, a) && Inv(s) && o in s.objects && s.objects[o].refcount == 0
    ensures o in Step(s, a).objects
    ensures Step(s, a).objects[o]
         == if a.Finalize? && s.threads[a.t].doomed == Some(o) then
           s.objects[o].(finalized := s.objects[o].finalized + 1)
            else s.objects[o]
  {
    assert ObjectOk(s, o);
    if !a.Spawn? {
      assert ThreadOk(s.threads[a.t]);
      assert a.t !in Holders(s.threads, o);
    }
  }

  lemma InvStep(s: State, a: Action)
    requires Enabled(s, a) && Inv(s)
    ensures Inv(Step(s, a))
  {
    var s' := Step(s, a);
    forall t | t in s'.threads
      ensures ThreadOk(s'.threads[t])
    {
      if t in s.threads {
        assert ThreadOk(s.threads[t]);
        if t == a.t {
          ThreadStep(s, s.threads[t], a);
        }
      }
    }
    forall o {
      ObjectStep(s, a, o);
    }
    forall t {
      DoomStep(s, a, t);
    }
  }

  /** The state that a sequence of steps leads to; None when one of them cannot be taken. */
  function Execute(s: State, actions: seq<Action>): Option<State> {
    if actions == [] then Some(s)
    else match Execute(s, actions[..|actions| - 1])
         case None => None
         case Some(mid) => if Enabled(mid, actions[|actions| - 1]) then Some(Step(mid, actions[|actions| - 1]))
           else None
  }

  const START := State(map[], map[], multiset{}, multiset{})

  lemma {:induction false} RunInv(s: State, actions: seq<Action>)
    requires Inv(s) && Execute(s, actions).Some?
    ensures Inv(Execute(s, actions).value)
  {
    if actions != [] {
      RunInv(s, actions[..|actions| - 1]);
      InvStep(Execute(s, actions[..|actions| - 1]).value, actions[|actions| - 1]);
    }
  }

  /** Somebody can still get at the abstract. */
  ghost predicate Referenced(s: State, o: Obj) {
    o in s.messages || exists t :: t in s.threads && (o in s.threads[t].table || o in s.threads[t].reach)
  }

  /** In every interleaving the count is the number of tables, of undelivered records and of records lost when
      a send or receive failed, and an abstract is finalized at most once and never while a thread or a message
      refers to it. */
  lemma CountIsReferences(actions: seq<Action>, s: State, o: Obj)
    requires Execute(START, actions) == Some(s) && o in s.objects
    ensures s.objects[o].refcount == |Holders(s.threads, o)| + s.messages[o] + s.lost[o]
    ensures s.objects[o].finalized <= 1
    ensures Referenced(s, o) ==> s.objects[o].finalized == 0
  {
    StartInv();
    RunInv(START, actions);
    assert ObjectOk(s, o);
    if t :| t in s.threads && (o in s.threads[t].table || o in s.threads[t].reach) {
      assert ThreadOk(s.threads[t]);
      assert t in Holders(s.threads, o);
    }
  }

  /** The abstract whose memory a step reads or writes. */
  ghost predicate Touches(s: State, a: Action, o: Obj)
    requires Enabled(s, a)
  {
    match a
    case Send(_, o') => o == o'
    case FailSend(_, o') => o == o'
    case Receive(_, o') => o == o'
    case Discard(_, o') => o == o'
    case SweepItem(_, o') => o == o'
    case ExitItem(_, o') => o == o'
    case Finalize(t) => s.threads[t].doomed == Some(o)
    case _ => false
  }

  /** No step of any run touches an abstract that has been finalized. */
  lemma NoUseAfterFree(actions: seq<Action>, s: State, a: Action, o: Obj)
    requires Execute(START, actions) == Some(s) && Enabled(s, a) && Touches(s, a, o)
    ensures o in s.objects && s.objects[o].finalized == 0
  {
    StartInv();
    RunInv(START, actions);
    assert ThreadOk(s.threads[a.t]) && DoomOk(s, a.t);
    CountIsReferences(actions, s, o);
  }

  /** When a step takes the last reference away, the acting thread finalizes the abstract next, exactly if
      no failed send or receive has left a count behind and the reference was not that of a discarded message. */
  lemma LastReference(s: State, a: Action, o: Obj)
    requires Inv(s) && Enabled(s, a) && o in s.objects && Referenced(s, o) && !Referenced(Step(s, a), o)
    ensures Step(s, a).threads[a.t].doomed == Some(o) <==> Step(s, a).lost[o] == 0 && !a.Discard?
    ensures !a.Spawn? && (a.Discard? ==> a.o == o)
  {
    var s' := Step(s, a);
    ReferencedCount(s, o);
    InvStep(s, a);
    ReferencedCount(s', o);
    NotDoomed(s, o);
    if !a.Spawn? {
      LastStep(s, s.threads[a.t], a, o);
    }
  }

  /** The references to an abstract are what is not lost of its count. */
  lemma ReferencedCount(s: State, o: Obj)
    requires Inv(s) && o in s.objects
    ensures Referenced(s, o) <==> s.objects[o].refcount > s.lost[o]
  {
    assert ObjectOk(s, o);
    if Referenced(s, o) && o !in s.messages {
      var t :| t in s.threads && (o in s.threads[t].table || o in s.threads[t].reach);
      assert ThreadOk(s.threads[t]);
      assert t in Holders(s.threads, o);
    } else if Holders(s.threads, o) != {} {
      var t :| t in Holders(s.threads, o);
    }
  }

  lemma LastStep(s: State, th: Thread, a: Action, o: Obj)
    requires Able(s, th, a) && ThreadOk(th) && o in s.objects && a.t in s.threads && th == s.threads[a.t]
    requires ObjectOk(s, o) && th.doomed != Some(o)
    requires s.objects[o].refcount > s.lost[o] && o in Step(s, a).objects
    requires Step(s, a).objects[o].refcount == Step(s, a).lost[o]
    ensures a.Discard? ==> a.o == o
    ensures Change(s, th, a).1.doomed == Some(o) <==> Step(s, a).lost[o] == 0 && !a.Discard?
  {
    HoldersPut(s.threads, a.t, th, o);
  }

  /** A thread that does not have the abstract leaves its count alone. */
  lemma UntouchedChange(s: State, th: Thread, a: Action, o: Obj)
    requires Able(s, th, a) && o in s.objects && o !in th.table && o !in th.reach && o !in s.messages
    ensures o in Change(s, th, a).0 && Change(s, th, a).0[o].refcount == s.objects[o].refcount
    ensures !((a.FailSend? || a.Strand?) && a.o == o)
  {
  }

  /** A thread that is not about to finalize the abstract does not. */
  lemma UnfinalizedChange(s: State, th: Thread, a: Action, o: Obj)
    requires Able(s, th, a) && o in s.objects && th.doomed != Some(o)
    ensures o in Change(s, th, a).0 && Change(s, th, a).0[o].finalized == s.objects[o].finalized
  {
  }

  /** What nothing refers to any more is never referred to again, and keeps its count. */
  lemma UnreferencedStays(s: State, a: Action, o: Obj)
    requires Inv(s) && Enabled(s, a) && o in s.objects && !Referenced(s, o)
    ensures var s' := Step(s, a);
            o in s'.objects && !Referenced(s', o) && s'.lost[o] == s.lost[o]
            && s'.objects[o].refcount == s.objects[o].refcount
  {
    ReferencedCount(s, o);
    assert ObjectOk(s, o);
    if !a.Spawn? {
      UntouchedChange(s, s.threads[a.t], a, o);
    }
    InvStep(s, a);
    ReferencedCount(Step(s, a), o);
  }

  /** No thread is going to finalize the abstract, though nothing refers to it. */
  ghost predicate Leaked(s: State, o: Obj) {
    && o in s.objects && !Referenced(s, o) && s.objects[o].finalized == 0
    && forall t :: t in s.threads ==> s.threads[t].doomed != Some(o)
  }

  lemma LeakedStep(s: State, a: Action, o: Obj)
    requires Inv(s) && Leaked(s, o) && Enabled(s, a)
    ensures Leaked(Step(s, a), o)
  {
    UnreferencedStays(s, a, o);
    if !a.Spawn? {
      UnfinalizedChange(s, s.threads[a.t], a, o);
      NotHeldNotDoomed(s, s.threads[a.t], a, o);
    }
  }

  lemma NotHeldNotDoomed(s: State, th: Thread, a: Action, o: Obj)
    requires Able(s, th, a) && o !in th.table && th.doomed != Some(o)
    ensures Change(s, th, a).1.doomed != Some(o)
  {
  }

  /** What is leaked stays so in every continuation. */
  lemma {:induction false} LeakedForever(s: State, actions: seq<Action>, o: Obj)
    requires Inv(s) && Leaked(s, o) && Execute(s, actions).Some?
    ensures Leaked(Execute(s, actions).value, o)
  {
    if actions != [] {
      var before, a := actions[..|actions| - 1], actions[|actions| - 1];
      var mid := Execute(s, before).value;
      RunInv(s, before);
      LeakedForever(s, before, o);
      LeakedStep(mid, a, o);
    }
  }

  /** The step of the run that took the last reference away threw a message away. */
  ghost predicate DiscardedLast(actions: seq<Action>, o: Obj) {
    if actions == [] then false
    else
      var before := actions[..|actions| - 1];
      match Execute(START, before)
      case None => false
      case Some(mid) => if Referenced(mid, o) then actions[|actions| - 1].Discard? else DiscardedLast(before, o)
  }

  lemma StartInv()
    ensures Inv(START)
  {
    assert forall o :: Holders(START.threads, o) == {};
  }

  /** An abstract that nothing refers to any more is leaked exactly if a failed send or receive has left a
      count behind or its last reference was a discarded message. */
  lemma {:induction false} LeakedRun(actions: seq<Action>, s: State, o: Obj)
    requires Execute(START, actions) == Some(s) && o in s.objects && !Referenced(s, o)
    ensures Leaked(s, o) <==> s.lost[o] > 0 || DiscardedLast(actions, o)
  {
    StartInv();
    if actions != [] {
      var before, a := actions[..|actions| - 1], actions[|actions| - 1];
      var mid := Execute(START, before).value;
      RunInv(START, before);
      assert ObjectOk(mid, o);
      if o !in mid.objects {
        BornReferenced(mid, a, o);
        assert false;
      }
      if Referenced(mid, o) {
        ReferencedCount(mid, o);
        NotDoomed(mid, o);
        LastReference(mid, a, o);
        LastLeaks(mid, a, o);
      } else {
        LeakedRun(before, mid, o);
        UnreferencedStays(mid, a, o);
        LeakBack(mid, a, o);
      }
    }
  }

  lemma BornReferenced(s: State, a: Action, o: Obj)
    requires Inv(s) && Enabled(s, a) && o in Step(s, a).objects && o !in s.objects
    ensures Referenced(Step(s, a), o)
  {
    if !a.Spawn? {
      assert ThreadOk(s.threads[a.t]) && DoomOk(s, a.t);
    }
    assert a.Create? && a.o == o;
    assert o in Step(s, a).threads[a.t].table;
  }

  lemma LastLeaks(s: State, a: Action, o: Obj)
    requires Inv(s) && Enabled(s, a) && o in s.objects && Referenced(s, o) && !Referenced(Step(s, a), o)
    ensures Leaked(Step(s, a), o) <==> Step(s, a).threads[a.t].doomed != Some(o)
  {
    ReferencedCount(s, o);
    NotDoomed(s, o);
    if !a.Spawn? {
      UnfinalizedChange(s, s.threads[a.t], a, o);
    }
  }

  lemma LeakBack(s: State, a: Action, o: Obj)
    requires Inv(s) && Enabled(s, a) && o in s.objects && !Referenced(s, o)
    ensures Leaked(Step(s, a), o) <==> Leaked(s, o)
  {
    if Leaked(s, o) {
      LeakedStep(s, a, o);
    } else if s.objects[o].finalized == 0 {
      var t :| t in s.threads && s.threads[t].doomed == Some(o);
      assert ObjectOk(s, o) && DoomOk(s, t);
      DoomFrame(s, a, o);
      StillDoomed(s, a, t);
    } else {
      assert ObjectOk(s, o);
      DoomFrame(s, a, o);
    }
  }

  /** Nothing that can happen from here on finalizes the abstract. */
  ghost predicate NeverFinalized(s: State, o: Obj) {
    forall more {:trigger Execute(s, more)} :: Execute(s, more).Some? ==>
      var s' := Execute(s, more).value; o in s'.objects && s'.objects[o].finalized == 0
  }

  lemma LeakedNever(s: State, o: Obj)
    requires Inv(s) && o in s.objects && !Referenced(s, o)
    ensures NeverFinalized(s, o) <==> Leaked(s, o)
  {
    if Leaked(s, o) {
      forall more | Execute(s, more).Some?
        ensures var s' := Execute(s, more).value; o in s'.objects && s'.objects[o].finalized == 0
      {
        LeakedForever(s, more, o);
      }
    } else {
      assert Execute(s, []) == Some(s);
      if s.objects[o].finalized == 0 {
        var t :| t in s.threads && s.threads[t].doomed == Some(o);
        assert DoomOk(s, t);
        assert [Finalize(t)][..0] == [];
        assert Execute(s, [Finalize(t)]).value.objects[o].finalized == 1;
      }
    }
  }

  /** In every run, an abstract that nothing refers to any more is never finalized if and only if a failed
      send or receive has left a count behind or its last reference was a discarded message. */
  lemma NeverFinalizedExactly(actions: seq<Action>, s: State, o: Obj)
    requires Execute(START, actions) == Some(s) && o in s.objects && !Referenced(s, o)
    ensures NeverFinalized(s, o) <==> s.lost[o] > 0 || DiscardedLast(actions, o)
  {
    StartInv();
    RunInv(START, actions);
    LeakedNever(s, o);
    LeakedRun(actions, s, o);
  }

  /** Discarding a message that has the last reference leaks the abstract. */
  lemma DiscardLeaks(s: State, t: Tid, o: Obj)
    requires Inv(s) && Enabled(s, Discard(t, o)) && s.objects[o].refcount == s.lost[o] + 1
    ensures Leaked(Step(s, Discard(t, o)), o)
  {
    NotDoomed(s, o);
    InvStep(s, Discard(t, o));
    ReferencedCount(Step(s, Discard(t, o)), o);
  }

  /** Actions, and the states before, between and after them. */
  datatype Trail = Trail(actions: seq<Action>, states: seq<State>)
  {
    ghost predicate Valid() {
      && |states| == |actions| + 1 && states[0] == START
      && forall n: nat {:trigger MovesAt(n)} :: n < |actions| ==> MovesAt(n)
    }

    predicate MovesAt(n: nat)
      requires n < |actions| && |states| == |actions| + 1
    {
      Enabled(states[n], actions[n]) && Step(states[n], actions[n]) == states[n + 1]
    }

    lemma Runs(n: nat)
      requires Valid() && n <= |actions|
      ensures Execute(START, actions[..n]) == Some(states[n])
    {
      if n > 0 {
        Runs(n - 1);
        assert MovesAt(n - 1) && actions[..n][..n - 1] == actions[..n - 1];
      }
    }
  }

  lemma TrailLeaks(h: Trail, o: Obj)
    requires h.Valid() && Leaked(h.states[|h.actions|], o)
    ensures Execute(START, h.actions).Some? && Leaked(Execute(START, h.actions).value, o)
  {
    h.Runs(|h.actions|);
    assert h.actions[..|h.actions|] == h.actions;
  }

  const LOCK := 0
  const CHANNEL := 1

  /** One thread, with nothing but the lock, or with the lock and a channel. */
  function Only(count: int, th: Thread, messages: multiset<Obj>, lost: multiset<Obj>): State {
    State(map[LOCK := Abstract(count, 0)], map[0 := th], messages, lost)
  }

  function Both(count: int, channel: Abstract, th: Thread, messages: multiset<Obj>): State {
    State(map[LOCK := Abstract(count, 0), CHANNEL := channel], map[0 := th], messages, multiset{})
  }

  function Discarding(): Trail {
    var th := Thread(map[LOCK := false], {LOCK}, Running, None);
    var sweep := Thread(map[LOCK := false], {}, Sweeping({LOCK}), None);
    var done := Thread(map[], {}, Sweeping({}), None);
    var sent := multiset{LOCK};
    Trail([Spawn(0), Create(0, LOCK), Send(0, LOCK), Forget(0, LOCK), Mark(0), SweepItem(0, LOCK), SweepEnd(0),
      Discard(0, LOCK)],
          [START,
           State(map[], map[0 := Thread(map[], {}, Running, None)], multiset{}, multiset{}),
           Only(1, th, multiset{}, multiset{}),
           Only(2, th, sent, multiset{}),
           Only(2, th.(reach := {}), sent, multiset{}),
           Only(2, sweep, sent, multiset{}),
           Only(1, done, sent, multiset{}),
           Only(1, done.(phase := Running), sent, multiset{}),
           Only(0, done.(phase := Running), multiset{}, multiset{})])
  }

  /** The first abstract of the first thread. */
  lemma CreatedFirst()
    ensures var s := State(map[], map[0 := Thread(map[], {}, Running, None)], multiset{}, multiset{});
            Step(s, Create(0, LOCK))
              == Only(1, Thread(map[LOCK := false], {LOCK}, Running, None), multiset{}, multiset{})
  {
    var s := State(map[], map[0 := Thread(map[], {}, Running, None)], multiset{}, multiset{});
    var none: set<Obj>, empty: map<Obj, bool> := {}, map[];
    assert none + {LOCK} == {LOCK} && empty[LOCK := false] == map[LOCK := false];
    assert Step(s, Create(0, LOCK)).threads == map[0 := Thread(map[LOCK := false], {LOCK}, Running, None)];
    assert Step(s, Create(0, LOCK)).objects == map[LOCK := Abstract(1, 0)];
  }

  lemma MarkedLock(th: Thread)
    requires th.table == map[LOCK := false] && th.reach == {}
    ensures Marked(th) == map[LOCK := false] && Marked(th).Keys == {LOCK}
  {
    assert Marked(th).Keys == {LOCK};
  }

  lemma DiscardingStarts()
    ensures var h := Discarding(); h.MovesAt(0) && h.MovesAt(1) && h.MovesAt(2) && h.MovesAt(3)
  {
    var h := Discarding();
    CreatedFirst();
  }

  lemma DiscardingSweeps()
    ensures var h := Discarding(); h.MovesAt(4) && h.MovesAt(5)
  {
    var h := Discarding();
    MarkedLock(h.states[4].threads[0]);
    assert map[LOCK := false] - {LOCK} == map[] && {LOCK} - {LOCK} == {};
    assert Step(h.states[5], h.actions[5]).threads == h.states[6].threads;
  }

  lemma DiscardingEnds()
    ensures var h := Discarding(); h.MovesAt(6) && h.MovesAt(7)
  {
    assert multiset{LOCK} - multiset{LOCK} == multiset{};
  }

  lemma DiscardingMoves()
    ensures Discarding().Valid()
  {
    DiscardingStarts();
    DiscardingSweeps();
    DiscardingEnds();
  }

  /** A sender that drops its own reference leaves the message as the last one; throwing the message away
      leaks the abstract. */
  lemma DiscardLeaksFromStart()
    ensures var h := Discarding(); Execute(START, h.actions).Some? && Leaked(Execute(START, h.actions).value, LOCK)
  {
    DiscardingMoves();
    assert Leaked(Discarding().states[8], LOCK);
    TrailLeaks(Discarding(), LOCK);
  }

  function Failing(): Trail {
    var th := Thread(map[LOCK := false], {LOCK}, Running, None);
    var sweep := Thread(map[LOCK := false], {}, Sweeping({LOCK}), None);
    var done := Thread(map[], {}, Sweeping({}), None);
    var lost := multiset{LOCK};
    Trail([Spawn(0), Create(0, LOCK), FailSend(0, LOCK), Forget(0, LOCK), Mark(0), SweepItem(0, LOCK), SweepEnd(0)],
          [START,
           State(map[], map[0 := Thread(map[], {}, Running, None)], multiset{}, multiset{}),
           Only(1, th, multiset{}, multiset{}),
           Only(2, th, multiset{}, lost),
           Only(2, th.(reach := {}), multiset{}, lost),
           Only(2, sweep, multiset{}, lost),
           Only(1, done, multiset{}, lost),
           Only(1, done.(phase := Running), multiset{}, lost)])
  }

  lemma FailingStarts()
    ensures var h := Failing(); h.MovesAt(0) && h.MovesAt(1) && h.MovesAt(2) && h.MovesAt(3)
  {
    CreatedFirst();
  }

  lemma FailingSweeps()
    ensures var h := Failing(); h.MovesAt(4) && h.MovesAt(5) && h.MovesAt(6)
  {
    var h := Failing();
    MarkedLock(h.states[4].threads[0]);
    assert map[LOCK := false] - {LOCK} == map[] && {LOCK} - {LOCK} == {};
    assert Step(h.states[5], h.actions[5]).threads == h.states[6].threads;
  }

  lemma FailingMoves()
    ensures Failing().Valid()
  {
    FailingStarts();
    FailingSweeps();
  }

  /** A message that cannot be marshalled to its end leaks the abstracts that were marshalled before. */
  lemma FailedSendLeaks()
    ensures var h := Failing(); Execute(START, h.actions).Some? && Leaked(Execute(START, h.actions).value, LOCK)
  {
    FailingMoves();
    assert Leaked(Failing().states[7], LOCK);
    TrailLeaks(Failing(), LOCK);
  }

  function Finalizing(): Trail {
    var th := Thread(map[LOCK := false], {LOCK}, Running, None);
    var both := Thread(map[LOCK := false, CHANNEL := false], {LOCK, CHANNEL}, Running, None);
    var sweep := Thread(map[LOCK := false, CHANNEL := false], {}, Sweeping({LOCK, CHANNEL}), None);
    var half := Thread(map[CHANNEL := false], {}, Sweeping({CHANNEL}), None);
    var doomed := Thread(map[], {}, Sweeping({}), Some(CHANNEL));
    var sent := multiset{LOCK};
    Trail([Spawn(0), Create(0, LOCK), Create(0, CHANNEL), Send(0, LOCK), Forget(0, LOCK), Forget(0, CHANNEL), Mark(0),
           SweepItem(0, LOCK), SweepItem(0, CHANNEL), Discard(0, LOCK), Finalize(0), SweepEnd(0)],
          [START,
           State(map[], map[0 := Thread(map[], {}, Running, None)], multiset{}, multiset{}),
           Only(1, th, multiset{}, multiset{}),
           Both(1, Abstract(1, 0), both, multiset{}),
           Both(2, Abstract(1, 0), both, sent),
           Both(2, Abstract(1, 0), both.(reach := {CHANNEL}), sent),
           Both(2, Abstract(1, 0), both.(reach := {}), sent),
           Both(2, Abstract(1, 0), sweep, sent),
           Both(1, Abstract(1, 0), half, sent),
           Both(1, Abstract(0, 0), doomed, sent),
           Both(0, Abstract(0, 0), doomed, multiset{}),
           Both(0, Abstract(0, 1), doomed.(doomed := None), multiset{}),
           Both(0, Abstract(0, 1), doomed.(doomed := None, phase := Running), multiset{})])
  }

  lemma FinalizingStarts()
    ensures var h := Finalizing(); h.MovesAt(0) && h.MovesAt(1) && h.MovesAt(2)
  {
    var h := Finalizing();
    CreatedFirst();
    assert {LOCK} + {CHANNEL} == {LOCK, CHANNEL};
    assert map[LOCK := false][CHANNEL := false] == map[LOCK := false, CHANNEL := false];
    assert Step(h.states[2], h.actions[2]).objects == h.states[3].objects;
  }

  lemma FinalizingSends()
    ensures Finalizing().MovesAt(3)
  {
    var h := Finalizing();
    assert Step(h.states[3], h.actions[3]).objects == h.states[4].objects;
  }

  lemma FinalizingForgets()
    ensures var h := Finalizing(); h.MovesAt(4) && h.MovesAt(5)
  {
    assert {LOCK, CHANNEL} - {LOCK} == {CHANNEL} && {CHANNEL} - {CHANNEL} == {};
  }

  lemma FinalizingMarks()
    ensures Finalizing().MovesAt(6)
  {
    var h := Finalizing();
    var th := h.states[6].threads[0];
    assert Marked(th).Keys == {LOCK, CHANNEL};
    assert Marked(th) == map[LOCK := false, CHANNEL := false];
  }

  lemma FinalizingSweeps()
    ensures var h := Finalizing(); h.MovesAt(7) && h.MovesAt(8)
  {
    var h := Finalizing();
    assert map[LOCK := false, CHANNEL := false] - {LOCK} == map[CHANNEL := false]
      && map[CHANNEL := false] - {CHANNEL} == map[];
    assert {LOCK, CHANNEL} - {LOCK} == {CHANNEL} && {CHANNEL} - {CHANNEL} == {};
    assert Step(h.states[7], h.actions[7]).objects == h.states[8].objects;
    assert Step(h.states[8], h.actions[8]).objects == h.states[9].objects;
  }

  lemma FinalizingEnds()
    ensures var h := Finalizing(); h.MovesAt(9) && h.MovesAt(10) && h.MovesAt(11)
  {
    var h := Finalizing();
    assert multiset{LOCK} - multiset{LOCK} == multiset{};
    assert Step(h.states[9], h.actions[9]).objects == h.states[10].objects;
    assert Step(h.states[10], h.actions[10]).objects == h.states[11].objects;
  }

  lemma FinalizingMoves()
    ensures Finalizing().Valid()
  {
    FinalizingStarts();
    FinalizingSends();
    FinalizingForgets();
    FinalizingMarks();
    FinalizingSweeps();
    FinalizingEnds();
  }

  /** The finalizer of a channel throws away the messages in it during a sweep, and with one of them the last
      reference to a lock. */
  lemma FinalizerLeaks()
    ensures var h := Finalizing(); Execute(START, h.actions).Some? && Leaked(Execute(START, h.actions).value, LOCK)
  {
    FinalizingMoves();
    assert Leaked(Finalizing().states[12], LOCK);
    TrailLeaks(Finalizing(), LOCK);
  }
}
