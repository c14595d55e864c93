/** A whole collection: mark, then sweep. */
module Gc {
  import opened Options
  import opened GcHeap
  import opened GcMark
  import opened GcSweep

  /** Every block is on one of the two lists, the weak containers on the second, except the
      abstracts that several threads share. */
  ghost predicate Inventory(heap: Heap, main: seq<Ref>, weak: seq<Ref>) {
    && (forall r <- heap :: r in Elements(main, |main|) + Elements(weak, |weak|) <==> !heap[r].ThreadedAbstract?)
    && Elements(main, |main|) + Elements(weak, |weak|) <= heap.Keys
    && (forall r <- heap :: r in Elements(weak, |weak|) <==> WeakBlock(heap[r]))
  }

  /** Marks that follow every strong reference. */
  ghost predicate MarksClosed(heap: Heap, marked: set<Ref>) {
    forall x: Ref, y: Ref :: x in marked && x in heap && Refers(heap[x], y) ==>
      y in marked || (y in heap && heap[y].ThreadedAbstract?)
  }

  /** No block, strong or weak, refers to one that is not there. */
  ghost predicate NoDangling(heap: Heap) {
    forall x: Ref, y: Ref :: x in heap && Mentions(heap[x], y) ==> y in heap
  }

  lemma SweptBlock(heap: Heap, marked: set<Ref>, main: seq<Ref>, weak: seq<Ref>, x: Ref)
    requires Inventory(heap, main, weak) && Distinct(weak) && x in heap
    ensures var heap' := SweptHeap(heap, marked, {}, main, weak);
            && (x in heap' <==> x in marked || heap[x].ThreadedAbstract?)
            && (x in heap' ==> heap'[x] == if WeakBlock(heap[x]) then Cleaned(marked, heap[x]) else heap[x])
  {
    WeakDroppedAt(heap, marked, {}, weak, |weak|, x);
  }

  /** What survives a sweep refers only to what survives: strong references because marking
      followed them, weak ones because the dead among them were dropped first. */
  lemma SurvivorMentions(heap: Heap, marked: set<Ref>, main: seq<Ref>, weak: seq<Ref>, x: Ref, y: Ref)
    requires Inventory(heap, main, weak) && Distinct(weak) && marked <= heap.Keys && MarksClosed(heap, marked)
    requires x in heap && (x in marked || heap[x].ThreadedAbstract?)
    requires Mentions(if WeakBlock(heap[x]) then Cleaned(marked, heap[x]) else heap[x], y)
    ensures y in SweptHeap(heap, marked, {}, main, weak)
  {
    if heap[x].ThreadedAbstract? {
      ThreadedRefersToNothing(heap[x], y);
    }
    if WeakBlock(heap[x]) {
      if Refers(Cleaned(marked, heap[x]), y) {
        CleanedRefers(marked, heap[x], y);
      } else {
        CleanedHolds(marked, heap[x], y);
      }
    }
    assert y in marked || Refers(heap[x], y);
    SweptBlock(heap, marked, main, weak, y);
  }

  lemma SweptNoDangling(heap: Heap, marked: set<Ref>, main: seq<Ref>, weak: seq<Ref>)
    requires Inventory(heap, main, weak) && Distinct(weak) && marked <= heap.Keys && MarksClosed(heap, marked)
    ensures NoDangling(SweptHeap(heap, marked, {}, main, weak))
  {
    var heap' := SweptHeap(heap, marked, {}, main, weak);
    forall x: Ref, y: Ref | x in heap' && Mentions(heap'[x], y)
      ensures y in heap'
    {
      if x in heap {
        SweptBlock(heap, marked, main, weak, x);
        SurvivorMentions(heap, marked, main, weak, x, y);
      } else {
        SweptKeys(heap, marked, main, weak, x);
      }
    }
  }

  lemma SweptKeys(heap: Heap, marked: set<Ref>, main: seq<Ref>, weak: seq<Ref>, x: Ref)
    requires Distinct(weak) && x in SweptHeap(heap, marked, {}, main, weak)
    ensures x in heap
  {
    KeysDropped(heap, marked, weak, |weak|);
  }

  lemma {:induction false} KeysDropped(heap: Heap, marked: set<Ref>, weak: seq<Ref>, k: nat)
    requires k <= |weak|
    ensures WeakDropped(heap, marked, {}, weak, k).Keys == heap.Keys
  {
    if k > 0 {
      KeysDropped(heap, marked, weak, k - 1);
    }
  }

  lemma ReachableClosed(heap: Heap, origin: set<Ref>, marked: set<Ref>)
    requires Intact(heap)
    requires forall r: Ref :: Reachable(heap, origin, r) ==> r in marked || (r in heap && heap[r].ThreadedAbstract?)
    requires forall r <- marked :: Reachable(heap, origin, r)
    ensures MarksClosed(heap, marked)
  {
    forall x: Ref, y: Ref | x in marked && x in heap && Refers(heap[x], y)
      ensures y in marked || (y in heap && heap[y].ThreadedAbstract?)
    {
      ReachStep(heap, origin, x, y);
    }
  }

  /** A collection keeps exactly the reachable blocks, in list order and with their marks cleared,
      and leaves no reference to a freed one. */
  method Collect(arena: Arena, suspended: bool, roots: seq<Value>, ev: seq<Value>, rootFiber: Option<Ref>,
                 ghost main: seq<Ref>, ghost weak: seq<Ref>)
    requires arena.disabled == {} && arena.marked == {}
    requires Intact(arena.heap) && Origin(ev, rootFiber, roots) <= arena.heap.Keys
    requires arena.Listed(main, weak) && Inventory(arena.heap, main, weak)
    modifies arena
    ensures suspended ==> arena.heap == old(arena.heap)
    ensures suspended ==> arena.blocks == old(arena.blocks) && arena.weakBlocks == old(arena.weakBlocks)
    ensures !suspended ==> Collected(old(arena.heap), arena.heap, Origin(ev, rootFiber, roots))
    ensures !suspended ==> NoDangling(arena.heap) && arena.marked == {}
    ensures !suspended ==>
              var live := arena.heap.Keys;
              var main', weak' := Filter(main, live, |main|), Filter(weak, live, |weak|);
              && Chain(arena.next, arena.blocks, main') && Chain(arena.next, arena.weakBlocks, weak')
              && arena.blockCount == old(arena.blockCount) - (|main| - |main'|) - (|weak| - |weak'|)
  {
    if suspended {
      return;
    }
    var marker := new Marker(arena.heap, roots);
    marker.MarkAll(ev, rootFiber);
    ghost var heap, marked := arena.heap, marker.marked;
    arena.marked := marker.marked;
    ReachableClosed(heap, Origin(ev, rootFiber, roots), marked);
    WeakListed(heap, main, weak);
    arena.SweepAll(main, weak);
    SweptNoDangling(heap, marked, main, weak);
    SweptIsCollected(heap, marked, marker.visited, Origin(ev, rootFiber, roots), main, weak);
    LiveFilters(heap, marked, main, weak);
  }

  /** The surviving blocks that are not shared between threads. */
  ghost function Unshared(heap: Heap, heap': Heap): set<Ref> {
    set r | r in heap' && r in heap && !heap[r].ThreadedAbstract?
  }

  /** Which blocks a collection leaves, and what is in them: weak containers keep what survives, and drop
      everything else, references to shared abstracts included. */
  ghost predicate Collected(heap: Heap, heap': Heap, origin: set<Ref>) {
    && (forall r: Ref :: r in heap' <==> r in heap && (Reachable(heap, origin, r) || heap[r].ThreadedAbstract?))
    && (forall r <- heap' :: r in heap ==>
         heap'[r] == if WeakBlock(heap[r]) then Cleaned(Unshared(heap, heap'), heap[r]) else heap[r])
  }

  /** An item of a weak array stays exactly if it is no reference, or one to a reachable block that is not
      shared. */
  lemma WeakItemKept(heap: Heap, heap': Heap, origin: set<Ref>, r: Ref, i: nat)
    requires Collected(heap, heap', origin) && r in heap' && r in heap && heap[r].Array? && heap[r].weak
    requires i < |heap[r].items|
    ensures heap'[r].Array? && |heap'[r].items| == |heap[r].items|
    ensures var v := heap[r].items[i];
            heap'[r].items[i] == if Stays(heap, origin, v) then v else Nil
  {
  }

  /** A value stays in a weak place: it is no reference, or one to a reachable block that is not shared. */
  ghost predicate Stays(heap: Heap, origin: set<Ref>, v: Value) {
    v.Pointer? ==> v.ref in heap && Reachable(heap, origin, v.ref) && !heap[v.ref].ThreadedAbstract?
  }

  /** An entry of a weak table stays exactly if its weak sides do; otherwise it is emptied, and is no entry any
      more. The prototype stays. */
  lemma WeakEntryKept(heap: Heap, heap': Heap, origin: set<Ref>, r: Ref, i: nat)
    requires Collected(heap, heap', origin) && r in heap' && r in heap && heap[r].Table? && !heap[r].weakness.Strong?
    requires i < |heap[r].entries|
    ensures heap'[r].Table? && |heap'[r].entries| == |heap[r].entries|
    ensures heap'[r].weakness == heap[r].weakness && heap'[r].proto == heap[r].proto
    ensures var w, e := heap[r].weakness, heap[r].entries[i];
            var dies := || (!w.WeakValues? && !Stays(heap, origin, e.key))
                        || (!w.WeakKeys? && !Stays(heap, origin, e.value));
            heap'[r].entries[i] == if dies then Entry(Nil, False) else e
  {
  }

  lemma WeakListed(heap: Heap, main: seq<Ref>, weak: seq<Ref>)
    requires Inventory(heap, main, weak)
    ensures forall i :: 0 <= i < |weak| ==> weak[i] in heap && WeakBlock(heap[weak[i]])
  {
    forall i | 0 <= i < |weak|
      ensures weak[i] in heap && WeakBlock(heap[weak[i]])
    {
      ElementsIndex(weak, |weak|, weak[i]);
    }
  }

  lemma SweptIsCollected(heap: Heap, marked: set<Ref>, visited: set<Ref>, origin: set<Ref>, main: seq<Ref>,
                         weak: seq<Ref>)
    requires Inventory(heap, main, weak) && Distinct(weak)
    requires forall r: Ref :: Reachable(heap, origin, r) <==> r in marked || r in visited
    requires forall r <- visited :: r in heap && heap[r].ThreadedAbstract?
    requires forall r <- marked :: r in heap && !heap[r].ThreadedAbstract?
    ensures Collected(heap, SweptHeap(heap, marked, {}, main, weak), origin)
  {
    var heap' := SweptHeap(heap, marked, {}, main, weak);
    forall r: Ref
      ensures r in heap' <==> r in heap && (Reachable(heap, origin, r) || heap[r].ThreadedAbstract?)
      ensures r in heap' && r in heap ==> heap'[r] == if WeakBlock(heap[r]) then Cleaned(marked, heap[r]) else heap[r]
      ensures r in Unshared(heap, heap') <==> r in marked
    {
      if r in heap {
        SweptBlock(heap, marked, main, weak, r);
      } else if r in heap' {
        SweptKeys(heap, marked, main, weak, r);
      }
    }
    assert Unshared(heap, heap') == marked;
  }

  lemma LiveFilters(heap: Heap, marked: set<Ref>, main: seq<Ref>, weak: seq<Ref>)
    requires Inventory(heap, main, weak) && Distinct(weak) && marked <= heap.Keys
    requires forall r <- marked :: !heap[r].ThreadedAbstract?
    ensures var live := SweptHeap(heap, marked, {}, main, weak).Keys;
            && Filter(main, marked + {}, |main|) == Filter(main, live, |main|)
            && Filter(weak, marked + {}, |weak|) == Filter(weak, live, |weak|)
    ensures marked - Elements(weak, |weak|) - Elements(main, |main|) == {}
  {
    var live := SweptHeap(heap, marked, {}, main, weak).Keys;
    forall r <- heap
      ensures r in live <==> r in marked || heap[r].ThreadedAbstract?
    {
      SweptBlock(heap, marked, main, weak, r);
    }
    SameFilter(main, marked + {}, live, |main|);
    SameFilter(weak, marked + {}, live, |weak|);
  }
}
