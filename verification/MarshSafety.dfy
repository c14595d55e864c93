/** Reading arbitrary bytes: whatever the reader accepts is a well-formed graph. */
module MarshSafety {
  import opened Options
  import opened MarshInts
  import opened MarshGraph
  import opened Marsh

  /** Objects stay, and stay of the same kind. */
  ghost predicate Grows(heap: Heap, heap': Heap) {
    forall id {:trigger heap[id]} :: id in heap ==>
      id in heap' && heap[id].Table? == heap'[id].Table?
  }

  lemma GrowsThen(heap: Heap, heap': Heap, heap'': Heap)
    requires Grows(heap, heap') && Grows(heap', heap'')
    ensures Grows(heap, heap'')
  {
    forall id | id in heap
      ensures id in heap'' && heap[id].Table? == heap''[id].Table?
    {
      assert heap[id].Table? == heap'[id].Table?;
    }
  }

  lemma {:induction false} GoodGrows(heap: Heap, heap': Heap, v: Value)
    requires Grows(heap, heap') && Good(heap, v)
    ensures Good(heap', v)
    decreases v
  {
    match v
    case Tuple(_, items) =>
      forall i | 0 <= i < |items|
        ensures Good(heap', items[i])
      {
        GoodGrows(heap, heap', items[i]);
      }
    case Struct(proto, entries) =>
      if proto.Some? {
        GoodGrows(heap, heap', proto.value);
      }
      forall i | 0 <= i < |entries|
        ensures Good(heap', entries[i].key) && Good(heap', entries[i].value)
      {
        GoodGrows(heap, heap', entries[i].key);
        GoodGrows(heap, heap', entries[i].value);
      }
    case Ref(id) => assert heap[id] == heap[id];
    case _ =>
  }

  lemma AllGoodGrows(heap: Heap, heap': Heap, vs: seq<Value>)
    requires Grows(heap, heap') && AllGood(heap, vs)
    ensures AllGood(heap', vs)
  {
    forall i | 0 <= i < |vs|
      ensures Good(heap', vs[i])
    {
      GoodGrows(heap, heap', vs[i]);
    }
  }

  ghost predicate EntriesIn(heap: Heap, entries: seq<Entry>) {
    forall i :: 0 <= i < |entries| ==> Good(heap, entries[i].key) && Good(heap, entries[i].value)
  }

  lemma ObjectGrows(heap: Heap, heap': Heap, o: Object)
    requires Grows(heap, heap') && GoodObject(heap, o)
    ensures GoodObject(heap', o)
  {
    match o
    case Array(_, elements) => AllGoodGrows(heap, heap', elements);
    case Table(_, parent, pairs) =>
      assert parent.Some? ==> heap[parent.value].Table?;
      forall i | 0 <= i < |pairs|
        ensures Good(heap', pairs[i].key) && Good(heap', pairs[i].value)
      {
        GoodGrows(heap, heap', pairs[i].key);
        GoodGrows(heap, heap', pairs[i].value);
      }
    case Buffer(_) =>
  }

  /** A heap with one object put in, in place of one of its kind or anew. */
  lemma HeapPut(heap: Heap, id: nat, o: Object)
    requires GoodHeap(heap) && GoodObject(heap[id := o], o) && (id in heap ==> heap[id].Table? == o.Table?)
    ensures GoodHeap(heap[id := o]) && Grows(heap, heap[id := o])
  {
    var heap' := heap[id := o];
    forall x | x in heap'
      ensures GoodObject(heap', heap'[x])
    {
      if x != id {
        assert GoodObject(heap, heap[x]);
        ObjectGrows(heap, heap', heap[x]);
      }
    }
  }

  // Entries

  lemma PutGood(heap: Heap, entries: seq<Entry>, key: Value, value: Value)
    requires EntriesIn(heap, entries) && Unique(entries) && Good(heap, key) && Good(heap, value)
    ensures var r := TablePut(entries, key, value); EntriesIn(heap, r) && Unique(r) && |r| <= |entries| + 1
  {
    var i := Index(entries, key);
    if !key.Nil? && !NaN(key) && value.Nil? {
      Removed(entries, i);
    }
  }

  /** The value of a key, nil if there is none. */
  function Find(entries: seq<Entry>, key: Value): Value {
    var i := Index(entries, key);
    if i < |entries| then entries[i].value else Nil
  }

  lemma IndexIs(entries: seq<Entry>, key: Value, i: nat)
    requires Unique(entries) && i < |entries| && entries[i].key == key
    ensures Index(entries, key) == i
  {
  }

  lemma IndexNone(entries: seq<Entry>, key: Value)
    requires forall i :: 0 <= i < |entries| ==> entries[i].key != key
    ensures Find(entries, key) == Nil
  {
  }

  /** Putting a value under a key changes the value of that key alone; a nil or NaN key changes nothing, nor does
      a nil value in a struct. */
  lemma PutFinds(entries: seq<Entry>, key: Value, value: Value, other: Value)
    requires Unique(entries)
    ensures !key.Nil? && !NaN(key) ==>
            Find(TablePut(entries, key, value), other) == if other == key then value else Find(entries, other)
    ensures key.Nil? || NaN(key) ==> TablePut(entries, key, value) == entries
    ensures StructPut(entries, key, value) == if value.Nil? then entries else TablePut(entries, key, value)
  {
    var r, i, j := TablePut(entries, key, value), Index(entries, key), Index(entries, other);
    if key.Nil? || NaN(key) {
      return;
    }
    if value.Nil? {
      if i < |entries| {
        WithoutIs(entries, i);
        RemovedFinds(entries, r, i, other);
      } else {
        assert r == entries;
      }
    } else if i < |entries| {
      ReplacedFinds(entries, i, value, other);
    } else {
      AddedFinds(entries, key, value, other);
    }
  }

  /** r is entries without the one at i. */
  ghost predicate Without(entries: seq<Entry>, r: seq<Entry>, i: nat) {
    && i < |entries| && |r| == |entries| - 1
    && forall k :: 0 <= k < |r| ==> r[k] == entries[if k < i then k else k + 1]
  }

  lemma WithoutIs(entries: seq<Entry>, i: nat)
    requires i < |entries|
    ensures Without(entries, entries[..i] + entries[i + 1..], i)
  {
  }

  lemma WithoutUnique(entries: seq<Entry>, r: seq<Entry>, i: nat)
    requires Unique(entries) && Without(entries, r, i)
    ensures Unique(r)
  {
  }

  lemma RemovedFinds(entries: seq<Entry>, r: seq<Entry>, i: nat, other: Value)
    requires Unique(entries) && Without(entries, r, i)
    ensures Find(r, other) == if other == entries[i].key then Nil else Find(entries, other)
  {
    var j := Index(entries, other);
    WithoutUnique(entries, r, i);
    if other == entries[i].key || j == |entries| {
      IndexNone(r, other);
    } else {
      var k := if j < i then j else j - 1;
      assert r[k] == entries[j];
      IndexIs(r, other, k);
    }
  }

  lemma ReplacedFinds(entries: seq<Entry>, i: nat, value: Value, other: Value)
    requires Unique(entries) && i < |entries| && !value.Nil?
    ensures var r := entries[i := Entry(entries[i].key, value)];
            Unique(r) && Find(r, other) == if other == entries[i].key then value else Find(entries, other)
  {
    var r, j := entries[i := Entry(entries[i].key, value)], Index(entries, other);
    assert forall k :: 0 <= k < |r| ==> r[k].key == entries[k].key;
    if j == |entries| {
      IndexNone(r, other);
    } else {
      IndexIs(r, other, j);
    }
  }

  lemma AddedFinds(entries: seq<Entry>, key: Value, value: Value, other: Value)
    requires Unique(entries) && Index(entries, key) == |entries| && !key.Nil? && !NaN(key) && !value.Nil?
    ensures var r := entries + [Entry(key, value)];
            Unique(r) && Find(r, other) == if other == key then value else Find(entries, other)
  {
    var r, j := entries + [Entry(key, value)], Index(entries, other);
    if other == key {
      IndexIs(r, other, |entries|);
    } else if j == |entries| {
      IndexNone(r, other);
    } else {
      IndexIs(r, other, j);
    }
  }

  /** What GoodEntries asks, but for the number of entries. */
  ghost predicate Unique(entries: seq<Entry>) {
    && (forall i :: 0 <= i < |entries| ==> !entries[i].key.Nil? && !NaN(entries[i].key) && !entries[i].value.Nil?)
    && (forall i, j :: 0 <= i < j < |entries| ==> entries[i].key != entries[j].key)
  }

  lemma Removed(entries: seq<Entry>, i: nat)
    requires Unique(entries) && i <= |entries|
    ensures Unique(entries[..i] + if i < |entries| then entries[i + 1..] else [])
  {
    if i < |entries| {
      WithoutIs(entries, i);
      WithoutUnique(entries, entries[..i] + entries[i + 1..], i);
    }
  }

  lemma {:induction false} PutAllGood(heap: Heap, entries: seq<Entry>, values: seq<Value>, isStruct: bool)
    requires EntriesIn(heap, entries) && Unique(entries) && AllGood(heap, values)
    ensures var r := PutAll(entries, values, isStruct);
            EntriesIn(heap, r) && Unique(r) && |r| <= |entries| + |values| / 2
    decreases |values|
  {
    if |values| >= 2 {
      PutGood(heap, entries, values[0], values[1]);
      var put := if isStruct then StructPut(entries, values[0], values[1]) else TablePut(entries, values[0], values[1]);
      PutAllGood(heap, put, values[2..], isStruct);
    }
  }

  // States

  /** The heap is well formed, the next identity is new, and every value that can be referred to is there. */
  ghost predicate Safe(st: ReadState) {
    GoodHeap(st.heap) && AllGood(st.heap, st.lookup) && forall id :: id in st.heap ==> id < st.top
  }

  /** A later state of the same reading. */
  ghost predicate Onward(st: ReadState, st': ReadState) {
    Safe(st') && Grows(st.heap, st'.heap) && st.top <= st'.top
  }

  lemma OnwardThen(st: ReadState, st': ReadState, st'': ReadState)
    requires Onward(st, st') && Onward(st', st'')
    ensures Onward(st, st'')
  {
    GrowsThen(st.heap, st'.heap, st''.heap);
  }

  lemma AllocateSafe(st: ReadState, o: Object)
    requires Safe(st) && GoodObject(st.heap[st.top := o], o)
    ensures Onward(st, Allocate(st, o)) && st.top in Allocate(st, o).heap
  {
    HeapPut(st.heap, st.top, o);
    AllGoodGrows(st.heap, st.heap[st.top := o], st.lookup);
  }

  lemma PushSafe(st: ReadState, v: Value)
    requires Safe(st) && Good(st.heap, v)
    ensures Onward(st, Push(st, v))
  {
  }

  lemma FillSafe(st: ReadState, id: nat, o: Object)
    requires Safe(st) && id in st.heap && st.heap[id].Table? == o.Table? && GoodObject(st.heap, o)
    ensures Onward(st, Fill(st, id, o)) && id in Fill(st, id, o).heap
  {
    var heap' := st.heap[id := o];
    assert Grows(st.heap, heap');
    ObjectGrows(st.heap, heap', o);
    HeapPut(st.heap, id, o);
    AllGoodGrows(st.heap, heap', st.lookup);
  }

  /** What is read is well formed, lies in the input and takes at least one byte. */
  ghost predicate ReadsSafely(data: seq<Byte>, at: nat, st: ReadState, r: ReadOneResult) {
    at < r.next <= |data| && Onward(st, r.state) && Good(r.state.heap, r.value)
  }

  ghost predicate ReadsAllSafely(data: seq<Byte>, at: nat, st: ReadState, r: ReadAllResult) {
    at <= r.next <= |data| && Onward(st, r.state) && AllGood(r.state.heap, r.values)
  }

  lemma NumberInside(data: seq<Byte>, at: nat)
    ensures var r := ReadInt(data, at); r.Some? ==> at < r.value.next <= |data|
    ensures var r := ReadNat(data, at); r.Some? ==> at < r.value.next <= |data| && r.value.value < INT32_LIMIT
  {
  }

  lemma TextSafe(data: seq<Byte>, at: nat, st: ReadState, r: ReadOneResult)
    requires Safe(st) && at < |data| && ReadText(data, at, st) == Some(r)
    ensures ReadsSafely(data, at, st, r)
  {
    NumberInside(data, at + 1);
    var len, next := ReadNat(data, at + 1).value.value, ReadNat(data, at + 1).value.next;
    if data[at] == LB_BUFFER {
      AllocateSafe(st, Buffer(data[next..next + len]));
    } else {
      PushSafe(st, r.value);
    }
  }

  lemma {:induction false} OneSafe(data: seq<Byte>, at: nat, st: ReadState, depth: nat, r: ReadOneResult)
    requires Safe(st) && ReadOne(data, at, st, depth) == Some(r)
    ensures ReadsSafely(data, at, st, r)
    decreases Measure(depth), 0
  {
    var lead := data[at];
    NumberInside(data, at);
    if lead == LB_REAL {
      PushSafe(st, r.value);
    } else if lead > LB_REAL && TextLeads(lead) {
      TextSafe(data, at, st, r);
    } else if lead > LB_REAL && lead !in {LB_NIL, LB_FALSE, LB_TRUE, LB_INTEGER} {
      NumberInside(data, at + 1);
      var Parsed(len, next) := ReadNat(data, at + 1).value;
      if lead != LB_REFERENCE {
        CompositeSafe(data, lead, len, next, st, depth, r);
      }
    }
  }

  lemma {:induction false} CompositeSafe(data: seq<Byte>, lead: Byte, len: nat, at: nat, st: ReadState, depth: nat,
                                         r: ReadOneResult)
    requires Safe(st) && depth <= RECURSION_GUARD && at <= |data| && len < INT32_LIMIT
    requires ReadComposite(data, lead, len, at, st, depth) == Some(r)
    ensures at <= r.next <= |data| && Onward(st, r.state) && Good(r.state.heap, r.value)
    decreases Measure(depth), 0, 0
  {
    if lead == LB_ARRAY || lead == LB_ARRAY_WEAK {
      ArraySafe(data, lead, len, at, st, depth, r);
    } else if lead == LB_TUPLE {
      NumberInside(data, at);
      var next := ReadInt(data, at).value.next;
      var all := ReadAll(data, next, st, len, depth + 1).value;
      AllSafe(data, next, st, len, depth + 1, all);
      PushSafe(all.state, r.value);
      OnwardThen(st, all.state, r.state);
    } else if lead == LB_STRUCT || lead == LB_STRUCT_PROTO {
      StructSafe(data, lead, len, at, st, depth, r);
    } else {
      TableSafe(data, lead, len, at, st, depth, r);
    }
  }

  lemma {:induction false} ArraySafe(data: seq<Byte>, lead: Byte, len: nat, at: nat, st: ReadState, depth: nat,
                                     r: ReadOneResult)
    requires Safe(st) && depth <= RECURSION_GUARD && at <= |data| && len < INT32_LIMIT
    requires lead == LB_ARRAY || lead == LB_ARRAY_WEAK
    requires ReadComposite(data, lead, len, at, st, depth) == Some(r)
    ensures at <= r.next <= |data| && Onward(st, r.state) && Good(r.state.heap, r.value)
    decreases Measure(depth), 0, 0, 0
  {
    var weak := lead == LB_ARRAY_WEAK;
    var begun := Allocate(st, Array(weak, []));
    AllocateSafe(st, Array(weak, []));
    var all := ReadAll(data, at, begun, len, depth + 1).value;
    AllSafe(data, at, begun, len, depth + 1, all);
    OnwardThen(st, begun, all.state);
    assert begun.heap[st.top] == Array(weak, []);
    FillSafe(all.state, st.top, Array(weak, all.values));
    OnwardThen(st, all.state, r.state);
  }

  lemma {:induction false} StructSafe(data: seq<Byte>, lead: Byte, len: nat, at: nat, st: ReadState, depth: nat,
                                      r: ReadOneResult)
    requires Safe(st) && depth <= RECURSION_GUARD && at <= |data| && len < INT32_LIMIT
    requires lead == LB_STRUCT || lead == LB_STRUCT_PROTO
    requires ReadComposite(data, lead, len, at, st, depth) == Some(r)
    ensures at <= r.next <= |data| && Onward(st, r.state) && Good(r.state.heap, r.value)
    decreases Measure(depth), 0, 0, 0
  {
    var proto := if lead == LB_STRUCT_PROTO then 1 else 0;
    var all := ReadAll(data, at, st, proto + 2 * len, depth + 1).value;
    AllSafe(data, at, st, proto + 2 * len, depth + 1, all);
    PutAllGood(all.state.heap, [], all.values[proto..], true);
    PushSafe(all.state, r.value);
    OnwardThen(st, all.state, r.state);
  }

  lemma {:induction false} TableSafe(data: seq<Byte>, lead: Byte, len: nat, at: nat, st: ReadState, depth: nat,
                                     r: ReadOneResult)
    requires Safe(st) && depth <= RECURSION_GUARD && at <= |data| && len < INT32_LIMIT
    requires lead !in {LB_ARRAY, LB_ARRAY_WEAK, LB_TUPLE, LB_STRUCT, LB_STRUCT_PROTO}
    requires ReadComposite(data, lead, len, at, st, depth) == Some(r)
    ensures at <= r.next <= |data| && Onward(st, r.state) && Good(r.state.heap, r.value)
    decreases Measure(depth), 0, 0, 0
  {
    var (weakness, hasProto) := TableOf(lead).value;
    var proto := if hasProto then 1 else 0;
    var begun := Allocate(st, Table(weakness, None, []));
    AllocateSafe(st, Table(weakness, None, []));
    var all := ReadAll(data, at, begun, proto + 2 * len, depth + 1).value;
    AllSafe(data, at, begun, proto + 2 * len, depth + 1, all);
    OnwardThen(st, begun, all.state);
    assert begun.heap[st.top] == Table(weakness, None, []);
    TableObject(all.state.heap, weakness, hasProto, all.values, len);
    FillSafe(all.state, st.top, r.state.heap[st.top]);
    OnwardThen(st, all.state, r.state);
  }

  lemma TableObject(heap: Heap, weakness: Weakness, hasProto: bool, values: seq<Value>, len: nat)
    requires AllGood(heap, values) && len < INT32_LIMIT && |values| == 2 * len + if hasProto then 1 else 0
    requires hasProto ==> IsTable(heap, values[0])
    ensures var rest := if hasProto then values[1..] else values[0..];
            GoodObject(heap, Table(weakness, if hasProto then Some(values[0].id) else None, PutAll([], rest, false)))
  {
    PutAllGood(heap, [], if hasProto then values[1..] else values[0..], false);
  }

  lemma {:induction false} AllSafe(data: seq<Byte>, at: nat, st: ReadState, n: nat, depth: nat, r: ReadAllResult)
    requires Safe(st) && at <= |data| && ReadAll(data, at, st, n, depth) == Some(r)
    ensures ReadsAllSafely(data, at, st, r)
    decreases Measure(depth), n + 1
  {
    if n == 0 {
      return;
    }
    var one := ReadOne(data, at, st, depth).value;
    OneSafe(data, at, st, depth, one);
    var rest := ReadAll(data, one.next, one.state, n - 1, depth).value;
    AllSafe(data, one.next, one.state, n - 1, depth, rest);
    OnwardThen(st, one.state, rest.state);
    GoodGrows(one.state.heap, rest.state.heap, one.value);
  }

  /** Whatever the bytes are: if the reader accepts them, what it makes of them is a well-formed graph, in which
      every reference leads to an object, every prototype is of its kind, and no key is there twice; and it has
      read nothing behind the input. */
  lemma AnyBytesSafe(data: seq<Byte>, r: ReadOneResult)
    requires ReadOne(data, 0, ReadState([], map[], 0), 0) == Some(r)
    ensures GoodHeap(r.state.heap) && Good(r.state.heap, r.value) && 0 < r.next <= |data|
  {
    OneSafe(data, 0, ReadState([], map[], 0), 0, r);
  }
}
