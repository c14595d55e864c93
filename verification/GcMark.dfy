/** The mark phase: recursion bounded by a depth guard, with the overflow spilled to the roots. */
module GcMark {
  import opened Options
  import opened GcHeap

  const RECURSION_GUARD := 1024

  /** Where marking starts. */
  ghost function Origin(ev: seq<Value>, rootFiber: Option<Ref>, roots: seq<Value>): (origin: set<Ref>)
    ensures forall r: Ref :: r in origin <==> Pointer(r) in ev || rootFiber == Some(r) || Pointer(r) in roots
  {
    RefsOf(ev) + (if rootFiber.Some? then {rootFiber.value} else {}) + RefsOf(roots)
  }

  ghost function RefsOf(vs: seq<Value>): (refs: set<Ref>)
    ensures forall r: Ref :: r in refs <==> Pointer(r) in vs
  {
    set v | v in vs && v.Pointer? :: v.ref
  }

  /** Progress of a mark phase: blocks with the reachable flag, threaded abstracts seen, values
      spilled to the top of the root stack, and references whose value was just taken off it. */
  datatype Marks = Marks(marked: set<Ref>, visited: set<Ref>, spilled: seq<Value>, owed: set<Ref>)
  {
    ghost predicate Seen(r: Ref) {
      r in marked || r in visited
    }

    ghost predicate Handled(r: Ref) {
      Seen(r) || Pointer(r) in spilled || r in owed
    }

    /** The marks and spilled values of m are kept. */
    ghost predicate Extends(m: Marks) {
      m.marked <= marked && m.visited <= visited && m.spilled <= spilled && m.owed == owed
    }
  }

  ghost predicate Sound(heap: Heap, origin: set<Ref>, m: Marks) {
    && (forall r <- m.marked :: r in heap && !heap[r].ThreadedAbstract? && Reachable(heap, origin, r))
    && (forall r <- m.visited :: r in heap && heap[r].ThreadedAbstract? && Reachable(heap, origin, r))
    && (forall v <- m.spilled :: v.Pointer? ==> v.ref in heap && Reachable(heap, origin, v.ref))
  }

  /** Every marked block outside stack has all it refers to handled. */
  ghost predicate Closed(heap: Heap, m: Marks, stack: set<Ref>) {
    forall x: Ref, y: Ref :: x in m.marked && x in heap && x !in stack && Refers(heap[x], y) ==> m.Handled(y)
  }

  ghost predicate Inv(heap: Heap, origin: set<Ref>, m: Marks, stack: set<Ref>) {
    Intact(heap) && Sound(heap, origin, m) && Closed(heap, m, stack)
  }

  lemma SpillKeeps(heap: Heap, origin: set<Ref>, m: Marks, stack: set<Ref>, x: Value)
    requires Inv(heap, origin, m, stack)
    requires x.Pointer? ==> x.ref in heap && Reachable(heap, origin, x.ref)
    ensures var m' := m.(spilled := m.spilled + [x]);
            Inv(heap, origin, m', stack) && m'.Extends(m) && (x.Pointer? ==> m'.Handled(x.ref))
  {
    var m' := m.(spilled := m.spilled + [x]);
    forall y: Ref | m.Handled(y)
      ensures m'.Handled(y)
    {
    }
  }

  lemma VisitKeeps(heap: Heap, origin: set<Ref>, m: Marks, stack: set<Ref>, r: Ref)
    requires Inv(heap, origin, m, stack) && r in heap && heap[r].ThreadedAbstract? && Reachable(heap, origin, r)
    ensures var m' := m.(visited := m.visited + {r}); Inv(heap, origin, m', stack) && m'.Extends(m) && m'.Seen(r)
  {
    var m' := m.(visited := m.visited + {r});
    forall y: Ref | m.Handled(y)
      ensures m'.Handled(y)
    {
    }
  }

  /** Flagging a block puts it on the stack until its references are handled. */
  lemma FlagKeeps(heap: Heap, origin: set<Ref>, m: Marks, stack: set<Ref>, r: Ref)
    requires Inv(heap, origin, m, stack) && r in heap && !heap[r].ThreadedAbstract? && Reachable(heap, origin, r)
    ensures var m' := m.(marked := m.marked + {r}); Inv(heap, origin, m', stack + {r}) && m'.Extends(m) && m'.Seen(r)
  {
    var m' := m.(marked := m.marked + {r});
    forall y: Ref | m.Handled(y)
      ensures m'.Handled(y)
    {
    }
  }

  /** A block whose references are all handled leaves the stack. */
  lemma Unstack(heap: Heap, origin: set<Ref>, m: Marks, stack: set<Ref>, r: Ref)
    requires Inv(heap, origin, m, stack + {r}) && r in heap
    requires forall y: Ref :: Refers(heap[r], y) ==> m.Handled(y)
    ensures Inv(heap, origin, m, stack)
  {
  }

  ghost predicate EdgeHandled(e: Edge, m: Marks) {
    Target(e).Some? ==> m.Handled(Target(e).value)
  }

  /** The first n references are handled. */
  ghost predicate EdgesHandled(edges: seq<Edge>, n: nat, m: Marks) {
    forall k :: 0 <= k < n <= |edges| ==> EdgeHandled(edges[k], m)
  }

  lemma EdgesStillHandled(edges: seq<Edge>, n: nat, m: Marks, m': Marks)
    requires n < |edges| && EdgesHandled(edges, n, m) && m'.Extends(m) && EdgeHandled(edges[n], m')
    ensures EdgesHandled(edges, n + 1, m')
  {
    forall k | 0 <= k < n
      ensures EdgeHandled(edges[k], m')
    {
      assert EdgeHandled(edges[k], m);
    }
  }

  lemma AllEdgesHandled(b: Block, m: Marks)
    requires EdgesHandled(Edges(b), |Edges(b)|, m)
    ensures forall y: Ref :: Refers(b, y) ==> m.Handled(y) || LastLink(b) == Some(y)
  {
    forall y: Ref | Refers(b, y)
      ensures m.Handled(y) || LastLink(b) == Some(y)
    {
      EdgesExactly(b, y);
      if LastLink(b) != Some(y) {
        var i :| 0 <= i < |Edges(b)| && Target(Edges(b)[i]) == Some(y);
        assert EdgeHandled(Edges(b)[i], m);
      }
    }
  }

  lemma EdgeReachable(heap: Heap, origin: set<Ref>, r: Ref, i: nat)
    requires Intact(heap) && r in heap && Reachable(heap, origin, r) && i < |Edges(heap[r])|
    ensures Target(Edges(heap[r])[i]).Some? ==>
              Target(Edges(heap[r])[i]).value in heap && Reachable(heap, origin, Target(Edges(heap[r])[i]).value)
  {
    if Target(Edges(heap[r])[i]).Some? {
      var y: Ref := Target(Edges(heap[r])[i]).value;
      EdgesExactly(heap[r], y);
      ReachStep(heap, origin, r, y);
    }
  }

  lemma LinkReachable(heap: Heap, origin: set<Ref>, r: Ref)
    requires Intact(heap) && r in heap && Reachable(heap, origin, r)
    ensures var link := LastLink(heap[r]);
            link.Some? ==> link.value in heap && Reachable(heap, origin, link.value)
  {
    var link := LastLink(heap[r]);
    if link.Some? {
      EdgesExactly(heap[r], link.value);
      ReachStep(heap, origin, r, link.value);
    }
  }

  ghost function Held(last: Option<Ref>): set<Ref> {
    if last.Some? then {last.value} else {}
  }

  /** A block on its way off the stack: all it refers to is handled but its last link. */
  ghost predicate Pending(heap: Heap, m: Marks, last: Option<Ref>, cur: Ref) {
    last.Some? ==> last.value in heap && forall y: Ref :: Refers(heap[last.value], y) ==> m.Handled(y) || y == cur
  }

  lemma Release(heap: Heap, origin: set<Ref>, m: Marks, stack: set<Ref>, last: Option<Ref>, cur: Ref)
    requires Inv(heap, origin, m, stack + Held(last)) && Pending(heap, m, last, cur) && m.Seen(cur)
    ensures Inv(heap, origin, m, stack)
  {
    if last.Some? {
      Unstack(heap, origin, m, stack, last.value);
    } else {
      assert stack + Held(last) == stack;
    }
  }

  lemma ReleaseUnder(heap: Heap, origin: set<Ref>, m: Marks, stack: set<Ref>, last: Option<Ref>, cur: Ref)
    requires Inv(heap, origin, m, stack + Held(last) + {cur}) && Pending(heap, m, last, cur) && m.Seen(cur)
    ensures Inv(heap, origin, m, stack + {cur})
  {
    assert stack + Held(last) + {cur} == stack + {cur} + Held(last);
    Release(heap, origin, m, stack + {cur}, last, cur);
  }

  /** Taking a value off the root stack leaves a debt until it has been marked. */
  lemma Popped(heap: Heap, origin: set<Ref>, m: Marks)
    requires Inv(heap, origin, m, {}) && m.spilled != [] && m.owed == {}
    ensures var x := m.spilled[|m.spilled| - 1];
            && (x.Pointer? ==> x.ref in heap && Reachable(heap, origin, x.ref))
            && Inv(heap, origin,
                 m.(spilled := m.spilled[..|m.spilled| - 1], owed := if x.Pointer? then {x.ref} else {}), {})
  {
    var x := m.spilled[|m.spilled| - 1];
    var m' := m.(spilled := m.spilled[..|m.spilled| - 1], owed := if x.Pointer? then {x.ref} else {});
    assert x in m.spilled;
    assert m.spilled == m'.spilled + [x];
    forall y: Ref | m.Handled(y)
      ensures m'.Handled(y)
    {
    }
  }

  lemma Settle(heap: Heap, origin: set<Ref>, m: Marks)
    requires Inv(heap, origin, m, {}) && forall r <- m.owed :: m.Seen(r)
    ensures Inv(heap, origin, m.(owed := {}), {})
  {
    var m' := m.(owed := {});
    forall y: Ref | m.Handled(y)
      ensures m'.Handled(y)
    {
    }
  }

  lemma ThreadedRefersToNothing(b: Block, y: Ref)
    requires b.ThreadedAbstract?
    ensures !Refers(b, y)
  {
  }

  /** With nothing left to do, what has been seen is what is reachable. */
  lemma SeenIsReachable(heap: Heap, origin: set<Ref>, m: Marks)
    requires Inv(heap, origin, m, {}) && m.spilled == [] && m.owed == {}
    requires origin <= m.marked + m.visited
    ensures forall r: Ref :: Reachable(heap, origin, r) <==> m.Seen(r)
  {
    var seen := m.marked + m.visited;
    forall u: Ref, v: Ref | u in seen && u in heap && Refers(heap[u], v)
      ensures v in seen
    {
      if u in m.visited {
        ThreadedRefersToNothing(heap[u], v);
      } else {
        assert m.Handled(v);
      }
    }
    forall r: Ref | Reachable(heap, origin, r)
      ensures m.Seen(r)
    {
      var p :| Path(heap, origin, p, r);
      ReachableWithin(heap, origin, seen, p, r);
    }
  }

  class Marker {
    const heap: Heap
    var marked: set<Ref>
    var visited: set<Ref>
    var roots: seq<Value>
    var depth: nat
    var base: nat          // how many roots there were before the collection
    ghost var owed: set<Ref>
    ghost var nesting: nat // active calls of Mark that got past the guard
    ghost var peak: nat    // the most there have ever been

    constructor (heap: Heap, roots: seq<Value>)
      ensures this.heap == heap && this.roots == roots && base == |roots|
      ensures marked == {} && visited == {} && owed == {}
      ensures depth == RECURSION_GUARD && nesting == peak == 0
    {
      this.heap, this.roots, base := heap, roots, |roots|;
      marked, visited, owed := {}, {}, {};
      depth, nesting, peak := RECURSION_GUARD, 0, 0;
    }

    ghost predicate Valid()
      reads this
    {
      base <= |roots| && depth + nesting == RECURSION_GUARD && nesting <= peak <= RECURSION_GUARD
    }

    ghost function Now(): Marks
      requires Valid()
      reads this
    {
      Marks(marked, visited, roots[base..], owed)
    }

    /** What every marking routine keeps. */
    twostate predicate Keeps()
      requires old(Valid()) && Valid()
      reads this
    {
      && Now().Extends(old(Now()))
      && base == old(base) && roots[..base] == old(roots[..base])
      && depth == old(depth) && nesting == old(nesting)
    }

    method GcRoot(x: Value)
      modifies this`roots
      ensures roots == old(roots) + [x]
    {
      roots := roots + [x];
    }

    /** Marks a value, or spills it when the recursion is already as deep as allowed. */
    method Mark(x: Value, ghost origin: set<Ref>, ghost stack: set<Ref>)
      requires Valid() && Inv(heap, origin, Now(), stack)
      requires x.Pointer? ==> x.ref in heap && Reachable(heap, origin, x.ref)
      modifies this
      ensures Valid() && Inv(heap, origin, Now(), stack) && Keeps()
      ensures x.Pointer? ==> Now().Handled(x.ref)
      ensures depth > 0 && x.Pointer? ==> Now().Seen(x.ref)
      ensures depth > 0 && (x.Pointer? ==> old(Now()).Seen(x.ref)) ==> Now() == old(Now())
      decreases heap.Keys - marked, 2
    {
      if depth > 0 {
        depth := depth - 1;
        nesting := nesting + 1;
        peak := if nesting > peak then nesting else peak;
        if x.Pointer? {
          MarkBlock(x.ref, origin, stack);
        }
        depth := depth + 1;
        nesting := nesting - 1;
      } else {
        SpillKeeps(heap, origin, Now(), stack, x);
        GcRoot(x);
        assert roots[base..] == old(roots[base..]) + [x];
        assert roots[..base] == old(roots[..base]);
      }
    }

    /** Marks a block and what it refers to; the last link is followed by going round again. */
    method MarkBlock(r: Ref, ghost origin: set<Ref>, ghost stack: set<Ref>)
      requires Valid() && Inv(heap, origin, Now(), stack)
      requires r in heap && Reachable(heap, origin, r)
      modifies this
      ensures Valid() && Inv(heap, origin, Now(), stack) && Keeps()
      ensures Now().Seen(r)
      ensures old(Now()).Seen(r) ==> Now() == old(Now())
      decreases heap.Keys - marked, 1
    {
      var cur := r;
      ghost var last: Option<Ref> := None; // the block whose last link is cur
      while true
        invariant Valid() && Keeps() && cur in heap && Reachable(heap, origin, cur)
        invariant Inv(heap, origin, Now(), stack + Held(last)) && Pending(heap, Now(), last, cur)
        invariant if last.None? then cur == r && Now() == old(Now()) else Now().Seen(r) && !old(Now()).Seen(r)
        decreases heap.Keys - marked
      {
        var block := heap[cur];
        if block.ThreadedAbstract? {
          VisitKeeps(heap, origin, Now(), stack + Held(last), cur);
          Release(heap, origin, Now().(visited := visited + {cur}), stack, last, cur);
          visited := visited + {cur};
          return;
        }
        if cur in marked {
          Release(heap, origin, Now(), stack, last, cur);
          return;
        }
        FlagKeeps(heap, origin, Now(), stack + Held(last), cur);
        ReleaseUnder(heap, origin, Now().(marked := marked + {cur}), stack, last, cur);
        marked := marked + {cur};
        MarkEdges(cur, origin, stack + {cur});
        var link := LastLink(block);
        if link.None? {
          Unstack(heap, origin, Now(), stack, cur);
          return;
        }
        LinkReachable(heap, origin, cur);
        last, cur := Some(cur), link.value;
      }
    }

    /** Marks everything a flagged block refers to, save its last link. */
    method MarkEdges(r: Ref, ghost origin: set<Ref>, ghost stack: set<Ref>)
      requires Valid() && Inv(heap, origin, Now(), stack)
      requires r in heap && Reachable(heap, origin, r)
      modifies this
      ensures Valid() && Inv(heap, origin, Now(), stack) && Keeps()
      ensures forall y: Ref :: Refers(heap[r], y) ==> Now().Handled(y) || LastLink(heap[r]) == Some(y)
      decreases heap.Keys - marked, 3
    {
      var edges := Edges(heap[r]);
      for i := 0 to |edges|
        invariant Valid() && Inv(heap, origin, Now(), stack) && Keeps()
        invariant EdgesHandled(edges, i, Now())
      {
        ghost var before := Now();
        EdgeReachable(heap, origin, r, i);
        match edges[i] {
          case Guarded(v) => Mark(v, origin, stack);
          case Direct(ref) => MarkBlock(ref, origin, stack);
        }
        EdgesStillHandled(edges, i, before, Now());
      }
      AllEdgesHandled(heap[r], Now());
    }
  
    method MarkMany(vs: seq<Value>, ghost origin: set<Ref>)
      requires Valid() && Inv(heap, origin, Now(), {}) && depth == RECURSION_GUARD
      requires RefsOf(vs) <= heap.Keys * origin
      modifies this
      ensures Valid() && Inv(heap, origin, Now(), {}) && Keeps()
      ensures RefsOf(vs) <= marked + visited
    {
      for i := 0 to |vs|
        invariant Valid() && Inv(heap, origin, Now(), {}) && Keeps()
        invariant RefsOf(vs[..i]) <= marked + visited
      {
        if vs[i].Pointer? {
          assert vs[i].ref in RefsOf(vs);
          ReachOrigin(heap, origin, vs[i].ref);
        }
        Mark(vs[i], origin, {});
        assert RefsOf(vs[..i + 1]) == RefsOf(vs[..i]) + RefsOf([vs[i]]);
      }
      assert vs[..|vs|] == vs;
    }

    /** Takes spilled values off the root stack until it is back to what it was. */
    method DrainSpilled(ghost origin: set<Ref>)
      requires Valid() && Inv(heap, origin, Now(), {}) && depth == RECURSION_GUARD && owed == {}
      modifies this
      ensures Valid() && Inv(heap, origin, Now(), {}) && owed == {}
      ensures old(marked) <= marked && old(visited) <= visited
      ensures base == old(base) && roots == old(roots[..base]) && depth == RECURSION_GUARD
    {
      while base < |roots|
        invariant Valid() && Inv(heap, origin, Now(), {}) && depth == RECURSION_GUARD && owed == {}
        invariant old(marked) <= marked && old(visited) <= visited
        invariant base == old(base) && roots[..base] == old(roots[..base])
        decreases heap.Keys - (marked + visited), |roots|
      {
        var x := roots[|roots| - 1];
        Popped(heap, origin, Now());
        ghost var seen := marked + visited;
        ghost var next := Now().(spilled := Now().spilled[..|Now().spilled| - 1],
          owed := if x.Pointer? then {x.ref} else {});
        owed := next.owed;
        roots := roots[..|roots| - 1];
        assert Now() == next && roots[..base] == old(roots[..base]);
        Mark(x, origin, {});
        assert x.Pointer? && x.ref !in seen ==> x.ref in heap.Keys - seen && x.ref in marked + visited;
        Settle(heap, origin, Now());
        owed := {};
      }
    }

    /** Marks from the event loop, the root fiber and the roots. */
    method MarkOrigin(ev: seq<Value>, rootFiber: Option<Ref>)
      requires Valid() && base == |roots| && depth == RECURSION_GUARD && Origin(ev, rootFiber, roots) <= heap.Keys
      requires Inv(heap, Origin(ev, rootFiber, roots), Now(), {})
      modifies this
      ensures Valid() && Inv(heap, Origin(ev, rootFiber, old(roots)), Now(), {}) && Keeps()
      ensures Origin(ev, rootFiber, old(roots)) <= marked + visited
    {
      ghost var origin := Origin(ev, rootFiber, roots);
      assert roots[..base] == roots;
      MarkMany(ev, origin);
      if rootFiber.Some? {
        ReachOrigin(heap, origin, rootFiber.value);
        MarkBlock(rootFiber.value, origin, {});
        assert RefsOf(ev) + {rootFiber.value} <= marked + visited;
      }
      MarkMany(roots[..base], origin);
    }

    /** Marks from the event loop, the root fiber and the roots, then works off what was spilled.
        The marked blocks and visited threaded abstracts are exactly those reachable, the roots
        are as before, and Mark was never nested deeper than the guard. */
    method MarkAll(ev: seq<Value>, rootFiber: Option<Ref>)
      requires Intact(heap) && marked == {} && visited == {} && owed == {}
      requires depth == RECURSION_GUARD && nesting == peak == 0
      requires Origin(ev, rootFiber, roots) <= heap.Keys
      modifies this
      ensures forall r: Ref :: Reachable(heap, Origin(ev, rootFiber, roots), r) <==> r in marked || r in visited
      ensures forall r <- marked :: r in heap && !heap[r].ThreadedAbstract?
      ensures forall r <- visited :: r in heap && heap[r].ThreadedAbstract?
      ensures roots == old(roots) && peak <= RECURSION_GUARD && depth == RECURSION_GUARD
    {
      ghost var origin := Origin(ev, rootFiber, roots);
      base := |roots|;
      assert Now() == Marks({}, {}, [], {}) && roots[..base] == roots;
      MarkOrigin(ev, rootFiber);
      DrainSpilled(origin);
      SeenIsReachable(heap, origin, Now());
    }
  }
}
