/** How deeply a graph may nest so that marshalling it does not run into the recursion guard. */
module MarshDepth {
  import opened MarshGraph
  import opened Marsh
  import opened MarshSharing

  /** Tuples and structs inside one another, at most k deep. */
  predicate Within(v: Value, k: nat)
    decreases k, 0
  {
    match v
    case Tuple(_, items) => k > 0 && forall i :: 0 <= i < |items| ==> Within(items[i], k - 1)
    case Struct(proto, entries) =>
      k > 0 && (proto.Some? ==> Within(proto.value, k - 1)) && EntriesWithin(entries, k - 1)
    case _ => true
  }

  predicate EntriesWithin(entries: seq<Entry>, k: nat)
    decreases k, 1
  {
    forall i :: 0 <= i < |entries| ==> Within(entries[i].key, k) && Within(entries[i].value, k)
  }

  predicate AllWithin(xs: seq<Value>, k: nat) {
    forall i :: 0 <= i < |xs| ==> Within(xs[i], k)
  }

  /** What the objects hold nests at most n deep. */
  ghost predicate HeapWithin(heap: Heap, n: nat) {
    forall id {:trigger heap[id]} :: id in heap ==> AllWithin(ObjectParts(heap[id]), n)
  }

  lemma {:induction false} FlattenWithin(entries: seq<Entry>, k: nat)
    requires EntriesWithin(entries, k)
    ensures AllWithin(Flatten(entries), k)
    decreases |entries|
  {
    if entries != [] {
      FlattenWithin(entries[1..], k);
    }
  }

  lemma StructWithin(heap: Heap, x: Value, k: nat)
    requires Good(heap, x) && x.Struct? && Within(x, k)
    ensures k > 0 && AllWithin(Parts(heap, x), k - 1)
  {
    FlattenWithin(x.entries, k - 1);
  }

  lemma PartsWithin(heap: Heap, x: Value, k: nat)
    requires Good(heap, x) && NumberedLast(x) && Within(x, k)
    ensures k > 0 && AllWithin(Parts(heap, x), k - 1)
  {
    if x.Struct? {
      StructWithin(heap, x, k);
    }
  }

  /** The objects that have no number yet. */
  function Unseen(heap: Heap, seen: map<Value, nat>): set<nat> {
    set id | id in heap && Ref(id) !in seen
  }

  lemma UnseenShrinks(heap: Heap, seen: map<Value, nat>, seen': map<Value, nat>)
    requires seen.Keys <= seen'.Keys
    ensures |Unseen(heap, seen')| <= |Unseen(heap, seen)|
  {
    assert Unseen(heap, seen') <= Unseen(heap, seen);
    Subset(Unseen(heap, seen'), Unseen(heap, seen));
  }

  lemma {:induction false} Subset(a: set<nat>, b: set<nat>)
    requires a <= b
    ensures |a| <= |b|
    decreases |a|
  {
    if x :| x in a {
      Subset(a - {x}, b - {x});
    }
  }

  lemma UnseenObject(heap: Heap, seen: map<Value, nat>, id: nat, number: nat)
    requires id in heap && Ref(id) !in seen
    ensures |Unseen(heap, Remember(seen, Ref(id), number))| == |Unseen(heap, seen)| - 1
  {
    assert Unseen(heap, Remember(seen, Ref(id), number)) == Unseen(heap, seen) - {id};
  }

  /** Levels that the objects without a number can still add: each one is entered once, with what it holds. */
  function Levels(heap: Heap, seen: map<Value, nat>, n: nat): nat {
    |Unseen(heap, seen)| * (n + 1)
  }

  lemma LevelsShrink(heap: Heap, seen: map<Value, nat>, seen': map<Value, nat>, n: nat)
    requires seen.Keys <= seen'.Keys
    ensures Levels(heap, seen', n) <= Levels(heap, seen, n)
  {
    UnseenShrinks(heap, seen, seen');
    Times(|Unseen(heap, seen')|, |Unseen(heap, seen)|, n + 1);
  }

  lemma Times(a: nat, b: nat, c: nat)
    requires a <= b
    ensures a * c <= b * c
  {
  }

  lemma LevelsObject(heap: Heap, seen: map<Value, nat>, id: nat, number: nat, n: nat)
    requires id in heap && Ref(id) !in seen
    ensures Levels(heap, Remember(seen, Ref(id), number), n) + n + 1 == Levels(heap, seen, n)
  {
    UnseenObject(heap, seen, id, number);
    var count := |Unseen(heap, seen)|;
    assert count * (n + 1) == (count - 1) * (n + 1) + n + 1;
  }

  lemma {:induction false} OneWritten(heap: Heap, seen: map<Value, nat>, nextid: nat, x: Value, depth: nat, k: nat,
                                      n: nat)
    requires GoodHeap(heap) && Good(heap, x) && HeapWithin(heap, n) && Within(x, k)
    requires depth + k + Levels(heap, seen, n) <= RECURSION_GUARD
    ensures WriteOne(heap, seen, nextid, x, depth).Some?
    decreases Measure(depth), 0
  {
    if !Plain(x) && x !in seen {
      PartsGood(heap, x);
      if NumberedLast(x) {
        PartsWithin(heap, x, k);
        AllWritten(heap, seen, nextid, Parts(heap, x), depth + 1, k - 1, n);
      } else if x.Ref? {
        LevelsObject(heap, seen, x.id, nextid, n);
        AllWritten(heap, Remember(seen, x, nextid), nextid + 1, Parts(heap, x), depth + 1, n, n);
      } else {
        assert Parts(heap, x) == [];
      }
    }
  }

  lemma {:induction false} AllWritten(heap: Heap, seen: map<Value, nat>, nextid: nat, xs: seq<Value>, depth: nat,
                                      k: nat, n: nat)
    requires GoodHeap(heap) && AllGood(heap, xs) && HeapWithin(heap, n) && AllWithin(xs, k)
    requires xs != [] ==> depth + k + Levels(heap, seen, n) <= RECURSION_GUARD
    ensures WriteAll(heap, seen, nextid, xs, depth).Some?
    decreases Measure(depth), |xs| + 1
  {
    if xs != [] {
      OneWritten(heap, seen, nextid, xs[0], depth, k, n);
      OneKeeps(heap, seen, nextid, xs[0], depth);
      var w := WriteOne(heap, seen, nextid, xs[0], depth).value;
      LevelsShrink(heap, seen, w.seen, n);
      AllWritten(heap, w.seen, w.nextid, xs[1..], depth, k, n);
    }
  }

  /** A graph whose values nest at most k deep at the start and n deep in its objects is marshalled without
      reaching the recursion guard if the levels of all objects together stay below it; cycles do no harm. */
  lemma ShallowMarshals(heap: Heap, x: Value, k: nat, n: nat)
    requires GoodHeap(heap) && Good(heap, x) && HeapWithin(heap, n) && Within(x, k)
    requires k + |heap.Keys| * (n + 1) <= RECURSION_GUARD
    ensures WriteOne(heap, map[], 0, x, 0).Some?
  {
    assert Unseen(heap, map[]) == heap.Keys;
    OneWritten(heap, map[], 0, x, 0, k, n);
  }
}
