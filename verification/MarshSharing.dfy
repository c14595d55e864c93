/** Sharing in what is written: a value is written in full once. */
module MarshSharing {
  import opened Options
  import opened MarshInts
  import opened MarshGraph
  import opened Marsh

  /** Numbers that were given out stay. */
  lemma {:induction false} OneKeeps(heap: Heap, seen: map<Value, nat>, nextid: nat, x: Value, depth: nat)
    requires GoodHeap(heap) && Good(heap, x)
    ensures var w := WriteOne(heap, seen, nextid, x, depth); w.Some? ==> seen.Keys <= w.value.seen.Keys
    decreases Measure(depth), 0
  {
    if depth <= RECURSION_GUARD && !Plain(x) && x !in seen {
      PartsGood(heap, x);
      if NumberedLast(x) {
        AllKeeps(heap, seen, nextid, Parts(heap, x), depth + 1);
      } else {
        AllKeeps(heap, Remember(seen, x, nextid), nextid + 1, Parts(heap, x), depth + 1);
      }
    }
  }

  lemma {:induction false} AllKeeps(heap: Heap, seen: map<Value, nat>, nextid: nat, xs: seq<Value>, depth: nat)
    requires GoodHeap(heap) && AllGood(heap, xs)
    ensures var w := WriteAll(heap, seen, nextid, xs, depth); w.Some? ==> seen.Keys <= w.value.seen.Keys
    decreases Measure(depth), |xs| + 1
  {
    if xs != [] {
      OneKeeps(heap, seen, nextid, xs[0], depth);
      var w := WriteOne(heap, seen, nextid, xs[0], depth);
      if w.Some? {
        AllKeeps(heap, w.value.seen, w.value.nextid, xs[1..], depth);
      }
    }
  }

  /** A value that was written has a number, unless it is too small for one or is not equal to itself. */
  lemma WrittenIsSeen(heap: Heap, seen: map<Value, nat>, nextid: nat, x: Value, depth: nat, w: Written)
    requires GoodHeap(heap) && Good(heap, x) && WriteOne(heap, seen, nextid, x, depth) == Some(w)
    ensures !Plain(x) && !NaN(x) ==> x in w.seen
  {
    if !Plain(x) && !NaN(x) && x !in seen && !NumberedLast(x) {
      PartsGood(heap, x);
      AllKeeps(heap, Remember(seen, x, nextid), nextid + 1, Parts(heap, x), depth + 1);
    }
  }

  /** What is written of a value that has been written before, with anything in between: a back reference, of at
      most six bytes, and no new number. */
  lemma SecondTime(heap: Heap, seen: map<Value, nat>, nextid: nat, x: Value, depth: nat, w: Written,
                   between: seq<Value>, depth': nat, w': Written, depth'': nat)
    requires GoodHeap(heap) && Good(heap, x) && AllGood(heap, between) && !Plain(x) && !NaN(x)
    requires WriteOne(heap, seen, nextid, x, depth) == Some(w)
    requires WriteAll(heap, w.seen, w.nextid, between, depth') == Some(w') && depth'' <= RECURSION_GUARD
    ensures x in w'.seen
    ensures var again := WriteOne(heap, w'.seen, w'.nextid, x, depth'');
            && again == Some(Written([LB_REFERENCE] + IntBytes(Id32(w'.seen[x])), w'.seen, w'.nextid))
            && |again.value.bytes| <= 6
  {
    WrittenIsSeen(heap, seen, nextid, x, depth, w);
    AllKeeps(heap, w.seen, w.nextid, between, depth');
  }
}
