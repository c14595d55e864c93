/** The sweep phase: weak references are dropped first, then dead blocks are unlinked from the
    weak list and from the main list. */
module GcSweep {
  import opened Options
  import opened GcHeap
  import opened Runs

  type Links = map<Ref, Option<Ref>>

  /** Following next from head visits nodes, in order, and ends. */
  ghost predicate Chain(next: Links, head: Option<Ref>, nodes: seq<Ref>)
    decreases |nodes|
  {
    if nodes == [] then head.None?
    else head == Some(nodes[0]) && nodes[0] in next && Chain(next, next[nodes[0]], nodes[1..])
  }

  ghost predicate Distinct(nodes: seq<Ref>) {
    forall i, j :: 0 <= i < j < |nodes| ==> nodes[i] != nodes[j]
  }

  /** The first k nodes, as a set. */
  ghost function Elements(nodes: seq<Ref>, k: nat): set<Ref>
    requires k <= |nodes|
  {
    if k == 0 then {} else Elements(nodes, k - 1) + {nodes[k - 1]}
  }

  lemma {:induction false} ElementsIndex(nodes: seq<Ref>, k: nat, r: Ref)
    requires k <= |nodes|
    ensures r in Elements(nodes, k) <==> exists i :: 0 <= i < k && nodes[i] == r
  {
    if k > 0 {
      ElementsIndex(nodes, k - 1, r);
    }
  }

  /** Those of the first k nodes that are in keep, in order. */
  ghost function Filter(nodes: seq<Ref>, keep: set<Ref>, k: nat): (r: seq<Ref>)
    requires k <= |nodes|
    ensures |r| <= k
  {
    if k == 0 then []
    else Filter(nodes, keep, k - 1) + if nodes[k - 1] in keep then [nodes[k - 1]] else []
  }

  lemma {:induction false} FilterElements(nodes: seq<Ref>, keep: set<Ref>, k: nat, x: Ref)
    requires k <= |nodes|
    ensures x in Filter(nodes, keep, k) <==> x in Elements(nodes, k) && x in keep
  {
    if k > 0 {
      FilterElements(nodes, keep, k - 1, x);
    }
  }

  // Weak references

  predicate Live(marked: set<Ref>, v: Value) {
    v.Pointer? ==> v.ref in marked
  }

  function CleanItem(marked: set<Ref>, v: Value): Value {
    if Live(marked, v) then v else Nil
  }

  function CleanEntry(marked: set<Ref>, weakness: Weakness, e: Entry): Entry {
    var checkKeys := weakness.WeakKeys? || weakness.WeakBoth?;
    var checkValues := weakness.WeakValues? || weakness.WeakBoth?;
    if (checkKeys && !Live(marked, e.key)) || (checkValues && !Live(marked, e.value)) then Entry(Nil, False) else e
  }

  predicate WeakBlock(b: Block) {
    (b.Array? && b.weak) || (b.Table? && !b.weakness.Strong?)
  }

  ghost function CleanItems(marked: set<Ref>, items: seq<Value>): (r: seq<Value>)
    ensures |r| == |items|
  {
    seq(|items|, i requires 0 <= i < |items| => CleanItem(marked, items[i]))
  }

  ghost function CleanEntries(marked: set<Ref>, weakness: Weakness, entries: seq<Entry>): (r: seq<Entry>)
    ensures |r| == |entries|
  {
    seq(|entries|, i requires 0 <= i < |entries| => CleanEntry(marked, weakness, entries[i]))
  }

  /** A weak container without its dead references. */
  ghost function Cleaned(marked: set<Ref>, b: Block): Block {
    match b
    case Array(items, weak) => Array(CleanItems(marked, items), weak)
    case Table(w, entries, proto) => Table(w, CleanEntries(marked, w, entries), proto)
    case _ => b
  }

  /** A weak container holds y in a place the marker does not follow. */
  ghost predicate WeaklyHolds(b: Block, y: Ref) {
    || (b.Array? && b.weak && Pointer(y) in b.items)
    || (b.Table? && !b.weakness.Strong? && InEntries(b.entries, true, true, y))
  }

  ghost predicate Mentions(b: Block, y: Ref) {
    Refers(b, y) || WeaklyHolds(b, y)
  }

  /** Cleaning adds no strong reference. */
  lemma CleanedRefers(marked: set<Ref>, b: Block, y: Ref)
    requires WeakBlock(b) && Refers(Cleaned(marked, b), y)
    ensures Refers(b, y)
  {
    if b.Table? && b.proto != Some(y) {
      var entries' := CleanEntries(marked, b.weakness, b.entries);
      var keys, values := b.weakness.WeakValues?, b.weakness.WeakKeys?;
      var i :| 0 <= i < |entries'| && Holds(entries'[i], keys, values, y);
      assert Holds(b.entries[i], keys, values, y);
    }
  }

  /** What a cleaned weak container still holds weakly is marked, or is also held strongly. */
  lemma CleanedHolds(marked: set<Ref>, b: Block, y: Ref)
    requires WeakBlock(b) && WeaklyHolds(Cleaned(marked, b), y)
    ensures y in marked || Refers(b, y)
  {
    if b.Table? {
      var entries' := CleanEntries(marked, b.weakness, b.entries);
      var i :| 0 <= i < |entries'| && Holds(entries'[i], true, true, y);
      var keys, values := b.weakness.WeakValues?, b.weakness.WeakKeys?;
      assert Live(marked, b.entries[i].key) || keys;
      assert Live(marked, b.entries[i].value) || values;
      if y !in marked {
        assert Holds(b.entries[i], keys, values, y);
      }
    }
  }

  // Unlinking

  lemma {:induction false} ChainFrame(next: Links, next': Links, head: Option<Ref>, nodes: seq<Ref>)
    requires Chain(next, head, nodes)
    requires forall r <- nodes :: r in next ==> r in next' && next'[r] == next[r]
    ensures Chain(next', head, nodes)
    decreases |nodes|
  {
    if nodes != [] {
      ChainFrame(next, next', next[nodes[0]], nodes[1..]);
    }
  }

  /** The chain from the middle of a list on. */
  lemma {:induction false} ChainSuffix(next: Links, head: Option<Ref>, done: seq<Ref>, cur: Ref, rest: seq<Ref>)
    requires Chain(next, head, done + [cur] + rest)
    ensures cur in next && Chain(next, next[cur], rest)
    decreases |done|
  {
    if done == [] {
      assert ([cur] + rest)[1..] == rest;
      assert done + [cur] + rest == [cur] + rest;
    } else {
      assert (done + [cur] + rest)[1..] == done[1..] + [cur] + rest;
      ChainSuffix(next, next[done[0]], done[1..], cur, rest);
    }
  }

  /** Unlinking cur: the block before it now leads to what comes after. */
  lemma {:induction false} UnlinkChain(next: Links, head: Option<Ref>, done: seq<Ref>, cur: Ref, rest: seq<Ref>)
    requires Chain(next, head, done + [cur] + rest)
    requires done != [] && Distinct(done) && done[|done| - 1] !in rest
    ensures cur in next && Chain(next[done[|done| - 1] := next[cur]], head, done + rest)
    decreases |done|
  {
    var all := done + [cur] + rest;
    ChainSuffix(next, head, done, cur, rest);
    var next' := next[done[|done| - 1] := next[cur]];
    if |done| == 1 {
      ChainFrame(next, next', next[cur], rest);
      assert (done + rest)[1..] == rest;
    } else {
      assert all[1..] == done[1..] + [cur] + rest;
      UnlinkChain(next, next[done[0]], done[1..], cur, rest);
      assert (done + rest)[1..] == done[1..] + rest;
    }
  }

  ghost function Last(nodes: seq<Ref>): Option<Ref> {
    if nodes == [] then None else Some(nodes[|nodes| - 1])
  }

  /** Progress of a sweep over nodes, k of them done and those in done kept, as seen from the links. */
  ghost predicate Sweeping(next: Links, first: Option<Ref>, previous: Option<Ref>, current: Option<Ref>,
                           nodes: seq<Ref>, done: seq<Ref>, k: nat)
  {
    && k <= |nodes| && Distinct(nodes) && Distinct(done)
    && (forall i, j :: 0 <= i < |done| && k <= j < |nodes| ==> done[i] != nodes[j])
    && Chain(next, first, done + nodes[k..])
    && Chain(next, current, nodes[k..])
    && previous == Last(done)
  }

  lemma SweepKeep(next: Links, first: Option<Ref>, previous: Option<Ref>, cur: Ref, nodes: seq<Ref>, done: seq<Ref>,
                  k: nat)
    requires Sweeping(next, first, previous, Some(cur), nodes, done, k)
    ensures k < |nodes| && cur == nodes[k] && cur in next
    ensures Sweeping(next, first, Some(cur), next[cur], nodes, done + [cur], k + 1)
  {
    assert nodes[k..] == [cur] + nodes[k + 1..];
    assert done + nodes[k..] == done + [cur] + nodes[k + 1..];
    assert nodes[k..][1..] == nodes[k + 1..];
  }

  lemma SweepFirst(next: Links, first: Option<Ref>, cur: Ref, nodes: seq<Ref>, k: nat)
    requires Sweeping(next, first, None, Some(cur), nodes, [], k)
    ensures k < |nodes| && cur == nodes[k] && cur in next
    ensures Sweeping(next, next[cur], None, next[cur], nodes, [], k + 1)
  {
    assert nodes[k..][1..] == nodes[k + 1..];
    assert [] + nodes[k + 1..] == nodes[k + 1..];
  }

  lemma SweepLater(next: Links, first: Option<Ref>, previous: Ref, cur: Ref, nodes: seq<Ref>, done: seq<Ref>, k: nat)
    requires Sweeping(next, first, Some(previous), Some(cur), nodes, done, k)
    ensures k < |nodes| && cur == nodes[k] && cur in next && previous == done[|done| - 1]
    ensures Sweeping(next[previous := next[cur]], first, Some(previous), next[cur], nodes, done, k + 1)
  {
    var rest := nodes[k + 1..];
    assert nodes[k..] == [cur] + rest && nodes[k..][1..] == rest;
    assert done + nodes[k..] == done + [cur] + rest;
    assert previous == done[|done| - 1];
    assert forall j :: 0 <= j < |rest| ==> rest[j] == nodes[k + 1 + j];
    UnlinkChain(next, first, done, cur, rest);
    ChainFrame(next, next[previous := next[cur]], next[cur], rest);
  }

  /** The state of a sweep over one list. */
  datatype Sweep = Sweep(heap: Heap, marked: set<Ref>, next: Links, count: int,
                         first: Option<Ref>, previous: Option<Ref>, current: Option<Ref>)

  /** One turn: a kept block loses its mark, any other is unlinked and freed. */
  function SweepNext(disabled: set<Ref>, s: Sweep): Sweep {
    if s.current.None? || s.current.value !in s.next then s
    else
      var cur := s.current.value;
      var next := s.next[cur];
      if cur in s.marked || cur in disabled then
        s.(marked := s.marked - {cur}, previous := s.current, current := next)
      else if s.previous.Some? then
        s.(heap := s.heap - {cur}, count := s.count - 1, next := s.next[s.previous.value := next], current := next)
      else
        s.(heap := s.heap - {cur}, count := s.count - 1, first := next, current := next)
  }

  /** What k turns have done, apart from the links. */
  ghost predicate Effects(s0: Sweep, s: Sweep, nodes: seq<Ref>, keep: set<Ref>, k: nat)
    requires k <= |nodes|
  {
    && s.heap == s0.heap - (Elements(nodes, k) - keep)
    && s.marked == s0.marked - Elements(nodes, k)
    && s.count == s0.count - (k - |Filter(nodes, keep, k)|)
  }

  /** Blocks of other lists keep their links. */
  ghost predicate OthersLinked(s0: Sweep, s: Sweep, nodes: seq<Ref>) {
    forall r <- s0.next :: r !in Elements(nodes, |nodes|) ==> r in s.next && s.next[r] == s0.next[r]
  }

  ghost predicate Swept(s0: Sweep, s: Sweep, nodes: seq<Ref>, keep: set<Ref>, k: nat) {
    && k <= |nodes|
    && Sweeping(s.next, s.first, s.previous, s.current, nodes, Filter(nodes, keep, k), k)
    && Effects(s0, s, nodes, keep, k)
    && OthersLinked(s0, s, nodes)
  }

  lemma EffectsNext(disabled: set<Ref>, s0: Sweep, s: Sweep, nodes: seq<Ref>, keep: set<Ref>, k: nat)
    requires keep == s0.marked + disabled && k < |nodes| && Distinct(nodes) && Effects(s0, s, nodes, keep, k)
    requires s.current == Some(nodes[k]) && nodes[k] in s.next
    ensures nodes[k] in s.marked || nodes[k] in disabled <==> nodes[k] in keep
    ensures Effects(s0, SweepNext(disabled, s), nodes, keep, k + 1)
  {
    ElementsIndex(nodes, k, nodes[k]);
    assert nodes[k] !in Elements(nodes, k);
    assert Elements(nodes, k + 1) == Elements(nodes, k) + {nodes[k]};
  }

  lemma SweptNext(disabled: set<Ref>, s0: Sweep, s: Sweep, nodes: seq<Ref>, keep: set<Ref>, k: nat)
    requires keep == s0.marked + disabled && Swept(s0, s, nodes, keep, k) && k < |nodes|
    ensures Swept(s0, SweepNext(disabled, s), nodes, keep, k + 1)
  {
    var cur, done := nodes[k], Filter(nodes, keep, k);
    assert nodes[k..][0] == cur;
    EffectsNext(disabled, s0, s, nodes, keep, k);
    if cur in keep {
      SweepKeep(s.next, s.first, s.previous, cur, nodes, done, k);
    } else if s.previous.Some? {
      assert Filter(nodes, keep, k + 1) == done;
      SweepLater(s.next, s.first, s.previous.value, cur, nodes, done, k);
      PreviousListed(nodes, keep, k);
    } else {
      assert Filter(nodes, keep, k + 1) == done;
      SweepFirst(s.next, s.first, cur, nodes, k);
    }
  }

  lemma PreviousListed(nodes: seq<Ref>, keep: set<Ref>, k: nat)
    requires k <= |nodes| && Filter(nodes, keep, k) != []
    ensures Last(Filter(nodes, keep, k)).value in Elements(nodes, |nodes|)
  {
    var r := Last(Filter(nodes, keep, k)).value;
    FilterElements(nodes, keep, k, r);
    ElementsIndex(nodes, k, r);
    ElementsIndex(nodes, |nodes|, r);
  }

  function Sweeper(disabled: set<Ref>): Sweep -> Sweep {
    s => SweepNext(disabled, s)
  }

  ghost predicate AtStart(s: Sweep, nodes: seq<Ref>) {
    Chain(s.next, s.first, nodes) && Distinct(nodes) && s.previous.None? && s.current == s.first
  }

  lemma SweptNothing(s: Sweep, nodes: seq<Ref>, keep: set<Ref>)
    requires AtStart(s, nodes)
    ensures Swept(s, s, nodes, keep, 0)
  {
    assert nodes[0..] == nodes && [] + nodes == nodes;
    assert Elements(nodes, 0) - keep == {};
  }

  /** A sweep started at the head of a list, after k turns. */
  lemma {:induction false} SweepProgress(disabled: set<Ref>, s0: Sweep, nodes: seq<Ref>, k: nat)
    requires AtStart(s0, nodes) && k <= |nodes|
    ensures Swept(s0, Iterate(Sweeper(disabled), s0, k), nodes, s0.marked + disabled, k)
  {
    if k == 0 {
      SweptNothing(s0, nodes, s0.marked + disabled);
    } else {
      var s := Iterate(Sweeper(disabled), s0, k - 1);
      SweepProgress(disabled, s0, nodes, k - 1);
      SweptNext(disabled, s0, s, nodes, s0.marked + disabled, k - 1);
      assert Iterate(Sweeper(disabled), s0, k) == SweepNext(disabled, s);
    }
  }

  lemma SweepCurrent(disabled: set<Ref>, s0: Sweep, nodes: seq<Ref>, k: nat)
    requires AtStart(s0, nodes) && k <= |nodes|
    ensures var s := Iterate(Sweeper(disabled), s0, k);
            if k < |nodes| then s.current.Some? && s.current.value in s.next else s.current.None?
  {
    SweepProgress(disabled, s0, nodes, k);
  }

  /** At the end of its list a sweep has kept the marked and disabled blocks, in order. */
  lemma SweepResult(disabled: set<Ref>, s0: Sweep, nodes: seq<Ref>)
    requires AtStart(s0, nodes)
    ensures var s, keep := Iterate(Sweeper(disabled), s0, |nodes|), s0.marked + disabled;
            && Chain(s.next, s.first, Filter(nodes, keep, |nodes|))
            && Effects(s0, s, nodes, keep, |nodes|) && OthersLinked(s0, s, nodes)
  {
    SweepProgress(disabled, s0, nodes, |nodes|);
    var keep := s0.marked + disabled;
    assert Filter(nodes, keep, |nodes|) + nodes[|nodes|..] == Filter(nodes, keep, |nodes|);
  }

  /** The heap after the first pass has visited k weak containers. */
  ghost function WeakDropped(heap: Heap, marked: set<Ref>, disabled: set<Ref>, weak: seq<Ref>, k: nat): Heap
    requires k <= |weak|
  {
    if k == 0 then heap
    else
      var h := WeakDropped(heap, marked, disabled, weak, k - 1);
      var r := weak[k - 1];
      if r in h && (r in marked || r in disabled) then h[r := Cleaned(marked, h[r])] else h
  }

  lemma {:induction false} WeakDroppedAt(heap: Heap, marked: set<Ref>, disabled: set<Ref>, weak: seq<Ref>, k: nat,
                                         r: Ref)
    requires k <= |weak| && Distinct(weak) && r in heap
    ensures var h := WeakDropped(heap, marked, disabled, weak, k);
            && h.Keys == heap.Keys
            && h[r] == if r in Elements(weak, k) && (r in marked || r in disabled) then Cleaned(marked, heap[r])
                 else heap[r]
  {
    if k > 0 {
      WeakDroppedAt(heap, marked, disabled, weak, k - 1, r);
      ElementsIndex(weak, k - 1, weak[k - 1]);
    }
  }

  lemma WeakUntouched(heap: Heap, marked: set<Ref>, disabled: set<Ref>, weak: seq<Ref>, k: nat)
    requires k < |weak| && Distinct(weak) && weak[k] in heap
    ensures var h := WeakDropped(heap, marked, disabled, weak, k); weak[k] in h && h[weak[k]] == heap[weak[k]]
  {
    WeakDroppedAt(heap, marked, disabled, weak, k, weak[k]);
    ElementsIndex(weak, k, weak[k]);
  }

  /** The heap after all three passes. */
  ghost function SweptHeap(heap: Heap, marked: set<Ref>, disabled: set<Ref>, main: seq<Ref>, weak: seq<Ref>): Heap {
    WeakDropped(heap, marked, disabled, weak, |weak|)
      - (Elements(main, |main|) + Elements(weak, |weak|) - (marked + disabled))
  }

  /** Sweeping one list leaves the other list's chain alone. */
  lemma OtherChain(next: Links, next': Links, head: Option<Ref>, nodes: seq<Ref>, swept: seq<Ref>)
    requires Chain(next, head, nodes) && Elements(nodes, |nodes|) !! Elements(swept, |swept|)
    requires forall r <- next :: r !in Elements(swept, |swept|) ==> r in next' && next'[r] == next[r]
    ensures Chain(next', head, nodes)
  {
    forall r <- nodes
      ensures r !in Elements(swept, |swept|)
    {
      ElementsIndex(nodes, |nodes|, r);
    }
    ChainFrame(next, next', head, nodes);
  }

  lemma WeakChainKept(next: Links, next': Links, head: Option<Ref>, main: seq<Ref>, weak: seq<Ref>, keep: set<Ref>)
    requires Chain(next, head, Filter(weak, keep, |weak|)) && Elements(main, |main|) !! Elements(weak, |weak|)
    requires forall r <- next :: r !in Elements(main, |main|) ==> r in next' && next'[r] == next[r]
    ensures Chain(next', head, Filter(weak, keep, |weak|))
  {
    forall r <- Filter(weak, keep, |weak|)
      ensures r !in Elements(main, |main|)
    {
      FilterElements(weak, keep, |weak|, r);
    }
    ChainFrame(next, next', head, Filter(weak, keep, |weak|));
  }

  lemma {:induction false} SameFilter(nodes: seq<Ref>, keep: set<Ref>, keep': set<Ref>, k: nat)
    requires k <= |nodes| && forall r <- Elements(nodes, k) :: r in keep <==> r in keep'
    ensures Filter(nodes, keep, k) == Filter(nodes, keep', k)
  {
    if k > 0 {
      SameFilter(nodes, keep, keep', k - 1);
    }
  }

  class Arena {
    var heap: Heap
    var marked: set<Ref>
    const disabled: set<Ref>
    var next: Links
    var blocks: Option<Ref>
    var weakBlocks: Option<Ref>
    var blockCount: int

    ghost function State(first: Option<Ref>, previous: Option<Ref>, current: Option<Ref>): Sweep
      reads this
    {
      Sweep(heap, marked, next, blockCount, first, previous, current)
    }

    /** Unlinks and frees the unmarked blocks of one list and clears the marks of the others. */
    method SweepList(head: Option<Ref>, ghost nodes: seq<Ref>) returns (first: Option<Ref>)
      requires Chain(next, head, nodes) && Distinct(nodes)
      modifies this`heap, this`marked, this`next, this`blockCount
      ensures Chain(next, first, Filter(nodes, old(marked) + disabled, |nodes|))
      ensures Effects(old(State(head, None, head)), State(first, None, None), nodes, old(marked) + disabled, |nodes|)
      ensures OthersLinked(old(State(head, None, head)), State(first, None, None), nodes)
    {
      ghost var s0, k := State(head, None, head), 0;
      first := head;
      var previous: Option<Ref> := None;
      var current := head;
      SweepCurrent(disabled, s0, nodes, 0);
      while current.Some?
        invariant k <= |nodes| && State(first, previous, current) == Iterate(Sweeper(disabled), s0, k)
        invariant current.Some? ==> k < |nodes| && current.value in next
        invariant current.None? ==> k == |nodes|
        decreases |nodes| - k
      {
        var cur := current.value;
        var after := next[cur];
        if cur in marked || cur in disabled {
          previous := current;
          marked := marked - {cur};
        } else {
          blockCount := blockCount - 1;
          if previous.Some? {
            next := next[previous.value := after];
          } else {
            first := after;
          }
          heap := heap - {cur};
        }
        current := after;
        k := k + 1;
        SweepCurrent(disabled, s0, nodes, k);
      }
      SweepResult(disabled, s0, nodes);
    }
  
    /** Sets the dead elements of a weak array to nil. */
    method DropItems(r: Ref)
      requires r in heap && heap[r].Array?
      modifies this`heap
      ensures heap == old(heap)[r := Cleaned(marked, old(heap)[r])]
    {
      ghost var was := heap[r].items;
      for i := 0 to |heap[r].items|
        invariant r in heap && heap[r].Array? && |heap[r].items| == |was|
        invariant heap == old(heap)[r := heap[r]] && heap[r] == Array(heap[r].items, old(heap)[r].weak)
        invariant forall k :: 0 <= k < |was| ==> heap[r].items[k] == if k < i then CleanItem(marked, was[k]) else was[k]
      {
        var items := heap[r].items;
        if !Live(marked, items[i]) {
          heap := heap[r := Array(items[i := Nil], heap[r].weak)];
        }
      }
      assert heap[r].items == CleanItems(marked, was);
    }

    /** Removes the entries of a weak table that have a dead weak key or value. */
    method DropEntries(r: Ref)
      requires r in heap && heap[r].Table?
      modifies this`heap
      ensures heap == old(heap)[r := Cleaned(marked, old(heap)[r])]
    {
      ghost var was := heap[r].entries;
      var weakness := heap[r].weakness;
      var checkValues := weakness.WeakValues? || weakness.WeakBoth?;
      var checkKeys := weakness.WeakKeys? || weakness.WeakBoth?;
      for i := 0 to |heap[r].entries|
        invariant r in heap && heap[r].Table? && |heap[r].entries| == |was|
        invariant heap == old(heap)[r := heap[r]] && heap[r] == Table(weakness, heap[r].entries, old(heap)[r].proto)
        invariant forall k :: 0 <= k < |was| ==>
          heap[r].entries[k] == if k < i then CleanEntry(marked, weakness, was[k]) else was[k]
      {
        var entries := heap[r].entries;
        var drop := false;
        if checkKeys && !Live(marked, entries[i].key) { drop := true; }
        if checkValues && !Live(marked, entries[i].value) { drop := true; }
        if drop {
          heap := heap[r := Table(weakness, entries[i := Entry(Nil, False)], heap[r].proto)];
        }
      }
      assert heap[r].entries == CleanEntries(marked, weakness, was);
    }

    /** The first pass: weak containers that stay lose their references to dead blocks. */
    method DropWeak(ghost weak: seq<Ref>)
      requires Chain(next, weakBlocks, weak) && Distinct(weak)
      requires forall i :: 0 <= i < |weak| ==> weak[i] in heap && WeakBlock(heap[weak[i]])
      modifies this`heap
      ensures heap == WeakDropped(old(heap), marked, disabled, weak, |weak|)
    {
      ghost var k := 0;
      var current := weakBlocks;
      assert weak[0..] == weak;
      while current.Some?
        invariant k <= |weak| && Chain(next, current, weak[k..])
        invariant heap == WeakDropped(old(heap), marked, disabled, weak, k)
        decreases |weak| - k
      {
        var cur := current.value;
        assert weak[k..][0] == weak[k] && weak[k..][1..] == weak[k + 1..];
        WeakUntouched(old(heap), marked, disabled, weak, k);
        if cur in marked || cur in disabled {
          if heap[cur].Array? {
            DropItems(cur);
          } else {
            DropEntries(cur);
          }
        }
        current := next[cur];
        k := k + 1;
      }
    }
  
    /** The two block lists, which share no block. */
    ghost predicate Listed(main: seq<Ref>, weak: seq<Ref>)
      reads this
    {
      && Chain(next, blocks, main) && Chain(next, weakBlocks, weak)
      && Distinct(main) && Distinct(weak) && Elements(main, |main|) !! Elements(weak, |weak|)
    }

    /** All three passes. */
    method SweepAll(ghost main: seq<Ref>, ghost weak: seq<Ref>)
      requires Listed(main, weak)
      requires forall i :: 0 <= i < |weak| ==> weak[i] in heap && WeakBlock(heap[weak[i]])
      modifies this
      ensures var keep := old(marked) + disabled;
              var main', weak' := Filter(main, keep, |main|), Filter(weak, keep, |weak|);
              && Chain(next, blocks, main') && Chain(next, weakBlocks, weak')
              && blockCount == old(blockCount) - (|main| - |main'|) - (|weak| - |weak'|)
      ensures marked == old(marked) - Elements(weak, |weak|) - Elements(main, |main|)
      ensures heap == SweptHeap(old(heap), old(marked), disabled, main, weak)
    {
      DropWeak(weak);
      ghost var keep := marked + disabled;
      ghost var main', weak' := Filter(main, keep, |main|), Filter(weak, keep, |weak|);
      ghost var next0 := next;
      weakBlocks := SweepList(weakBlocks, weak);
      OtherChain(next0, next, blocks, main, weak);
      ghost var marked1, next1 := marked, next;
      blocks := SweepList(blocks, main);
      SameFilter(main, keep, marked1 + disabled, |main|);
      WeakChainKept(next1, next, weakBlocks, main, weak, keep);
    }
  }
}
