/** The event loop's timeouts, kept in a binary min-heap by expiry time. */
module TimerHeap {
  import opened Options

  /** When it expires, and whom it concerns: a deadline watches another fiber than the one it cancels. */
  datatype Timeout = Timeout(when_: int, fiber: nat, schedId: nat, isError: bool, watched: Option<nat>)

  function Parent(i: nat): nat
    requires i > 0
  {
    (i - 1) / 2
  }

  ghost predicate Ordered(tq: seq<Timeout>, i: nat) {
    0 < i < |tq| ==> tq[Parent(i)].when_ <= tq[i].when_
  }

  ghost predicate Heap(tq: seq<Timeout>) {
    forall i: nat {:trigger Ordered(tq, i)} :: Ordered(tq, i)
  }

  /** The children of i are no earlier than the parent of i. */
  ghost predicate Bridged(tq: seq<Timeout>, i: nat, child: nat) {
    0 < i < |tq| && 0 < child < |tq| && Parent(child) == i ==> tq[Parent(i)].when_ <= tq[child].when_
  }

  /** A heap except that the element at hole may be too early. */
  ghost predicate Rising(tq: seq<Timeout>, hole: nat) {
    && (forall i: nat {:trigger Ordered(tq, i)} :: i != hole ==> Ordered(tq, i))
    && (forall i: nat {:trigger Bridged(tq, hole, i)} :: Bridged(tq, hole, i))
  }

  /** A heap except that the element at hole may be too late. */
  ghost predicate Sinking(tq: seq<Timeout>, hole: nat) {
    && (forall i: nat {:trigger Ordered(tq, i)} :: 0 < i && Parent(i) != hole ==> Ordered(tq, i))
    && (forall i: nat {:trigger Bridged(tq, hole, i)} :: Bridged(tq, hole, i))
  }

  function Swap(tq: seq<Timeout>, i: nat, j: nat): seq<Timeout>
    requires i < |tq| && j < |tq|
  {
    tq[i := tq[j]][j := tq[i]]
  }

  lemma SwapSame(tq: seq<Timeout>, i: nat, j: nat)
    requires i < |tq| && j < |tq|
    ensures multiset(Swap(tq, i, j)) == multiset(tq)
  {
  }

  lemma RiseStep(tq: seq<Timeout>, hole: nat)
    requires Rising(tq, hole) && 0 < hole < |tq| && tq[Parent(hole)].when_ > tq[hole].when_
    ensures Rising(Swap(tq, hole, Parent(hole)), Parent(hole))
  {
    var p, after := Parent(hole), Swap(tq, hole, Parent(hole));
    forall i: nat | i != p
      ensures Ordered(after, i)
    {
      assert i != hole ==> Ordered(tq, i);
      assert Bridged(tq, hole, i);
    }
    forall i: nat
      ensures Bridged(after, p, i)
    {
      assert p != hole ==> Ordered(tq, p);
      assert i != hole ==> Ordered(tq, i);
    }
  }

  lemma SinkStep(tq: seq<Timeout>, hole: nat, child: nat)
    requires Sinking(tq, hole) && hole < |tq| && 0 < child < |tq| && Parent(child) == hole
    requires tq[child].when_ < tq[hole].when_
    requires forall i: nat :: 0 < i < |tq| && Parent(i) == hole ==> tq[child].when_ <= tq[i].when_
    ensures Sinking(Swap(tq, hole, child), child)
  {
    var after := Swap(tq, hole, child);
    forall i: nat | 0 < i && Parent(i) != child
      ensures Ordered(after, i)
    {
      assert Parent(i) != hole ==> Ordered(tq, i);
      assert Bridged(tq, hole, child);
    }
    forall i: nat
      ensures Bridged(after, child, i)
    {
      assert 0 < i && Parent(i) == child ==> Ordered(tq, i);
    }
  }

  lemma {:induction false} RootLeast(tq: seq<Timeout>, i: nat)
    requires Heap(tq) && i < |tq|
    ensures tq[0].when_ <= tq[i].when_
    decreases i
  {
    if i > 0 {
      assert Ordered(tq, i);
      RootLeast(tq, Parent(i));
    }
  }

  /** One timeout after another, each no earlier than the one before. */
  ghost predicate Sorted(ts: seq<Timeout>) {
    forall i, j :: 0 <= i < j < |ts| ==> ts[i].when_ <= ts[j].when_
  }

  lemma SortedMore(ts: seq<Timeout>, to: Timeout)
    requires Sorted(ts) && (ts != [] ==> ts[|ts| - 1].when_ <= to.when_)
    ensures Sorted(ts + [to]) && multiset(ts + [to]) == multiset(ts) + multiset{to}
  {
  }

  class TimerHeap {
    var tq: seq<Timeout>

    constructor ()
      ensures Heap(tq) && tq == []
    {
      tq := [];
    }

    method Peek() returns (out: Option<Timeout>)
      requires Heap(tq)
      ensures out.None? <==> tq == []
      ensures out.Some? ==> out.value == tq[0] && forall to :: to in tq ==> out.value.when_ <= to.when_
    {
      if |tq| == 0 { return None; }
      out := Some(tq[0]);
      forall i: nat | i < |tq| {
        RootLeast(tq, i);
      }
    }

    method Add(to: Timeout)
      requires Heap(tq)
      modifies this
      ensures Heap(tq) && multiset(tq) == old(multiset(tq)) + multiset{to}
    {
      Appended(tq, to);
      tq := tq + [to];
      var index: nat := |tq| - 1;
      while index > 0
        invariant index < |tq| && Rising(tq, index)
        invariant multiset(tq) == old(multiset(tq)) + multiset{to}
      {
        var parent := (index - 1) / 2;
        if tq[parent].when_ <= tq[index].when_ { break; }
        RiseStep(tq, index);
        SwapSame(tq, index, parent);
        tq := Swap(tq, index, parent);
        index := parent;
      }
      assert Ordered(tq, index);
    }

    /** Takes out the earliest timeout, if there is one. */
    method Pop()
      requires Heap(tq)
      modifies this
      ensures Heap(tq) && forall to :: to in tq ==> to in old(tq)
      ensures if old(tq) == [] then tq == []
              else |tq| == |old(tq)| - 1 && multiset(tq) + multiset{old(tq)[0]} == old(multiset(tq))
    {
      if |tq| <= 0 { return; }
      ghost var before := tq;
      var last := tq[|tq| - 1];
      tq := Promoted(tq);
      if tq == [] {
        assert before == [last];
        return;
      }
      PromotedSame(before);
      PromotedSinking(before);
      SiftDown();
      forall to | to in tq
        ensures to in before
      {
        assert to in multiset(tq) && to in multiset(before);
      }
    }

    method SiftDown()
      requires Sinking(tq, 0) && tq != []
      modifies this
      ensures Heap(tq) && multiset(tq) == old(multiset(tq))
    {
      var index: nat := 0;
      while true
        invariant index < |tq| && Sinking(tq, index) && multiset(tq) == old(multiset(tq))
        decreases |tq| - index
      {
        var left := 2 * index + 1;
        var right := left + 1;
        var smallest := index;
        if left < |tq| && tq[left].when_ < tq[smallest].when_ { smallest := left; }
        if right < |tq| && tq[right].when_ < tq[smallest].when_ { smallest := right; }
        if smallest == index {
          Sunk(tq, index);
          return;
        }
        SinkStep(tq, index, smallest);
        SwapSame(tq, index, smallest);
        tq := Swap(tq, index, smallest);
        index := smallest;
      }
    }

    /** The expiry loop: takes out exactly the timeouts that are due, in order of expiry. */
    method Expire(now: int) returns (expired: seq<Timeout>)
      requires Heap(tq)
      modifies this
      ensures Heap(tq) && multiset(expired) + multiset(tq) == old(multiset(tq))
      ensures Sorted(expired) && (forall to :: to in expired ==> to.when_ <= now)
      ensures forall to :: to in tq ==> to.when_ > now
    {
      expired := [];
      var next := Peek();
      while next.Some? && next.value.when_ <= now
        invariant Heap(tq) && multiset(expired) + multiset(tq) == old(multiset(tq))
        invariant next.None? <==> tq == []
        invariant next.Some? ==> next.value == tq[0] && forall to :: to in tq ==> tq[0].when_ <= to.when_
        invariant Sorted(expired) && (forall to :: to in expired ==> to.when_ <= now)
        invariant expired != [] ==> forall to :: to in tq ==> expired[|expired| - 1].when_ <= to.when_
        decreases |tq|
      {
        var to := next.value;
        SortedMore(expired, to);
        Pop();
        expired := expired + [to];
        next := Peek();
      }
    }
  }

  lemma Appended(tq: seq<Timeout>, to: Timeout)
    requires Heap(tq)
    ensures Rising(tq + [to], |tq|)
  {
    forall i: nat | i != |tq|
      ensures Ordered(tq + [to], i)
    {
      assert Ordered(tq, i);
    }
  }

  /** The last element moved to the front. */
  function Promoted(tq: seq<Timeout>): seq<Timeout>
    requires tq != []
  {
    tq[0 := tq[|tq| - 1]][..|tq| - 1]
  }

  lemma PromotedSame(tq: seq<Timeout>)
    requires |tq| > 1
    ensures multiset(Promoted(tq)) + multiset{tq[0]} == multiset(tq)
  {
    var mid, last := tq[1..|tq| - 1], tq[|tq| - 1];
    assert Promoted(tq) == [last] + mid;
    assert tq == ([tq[0]] + mid) + [last];
  }

  lemma PromotedSinking(tq: seq<Timeout>)
    requires Heap(tq) && |tq| > 1
    ensures Sinking(Promoted(tq), 0)
  {
    forall i: nat | 0 < i && Parent(i) != 0
      ensures Ordered(Promoted(tq), i)
    {
      assert Ordered(tq, i);
    }
  }

  lemma Sunk(tq: seq<Timeout>, index: nat)
    requires Sinking(tq, index)
    requires 2 * index + 1 < |tq| ==> Ordered(tq, 2 * index + 1)
    requires 2 * index + 2 < |tq| ==> Ordered(tq, 2 * index + 2)
    ensures Heap(tq)
  {
    forall i: nat
      ensures Ordered(tq, i)
    {
      if 0 < i && Parent(i) == index {
        assert i == 2 * index + 1 || i == 2 * index + 2;
      }
    }
  }
}
