/** Unmarshalling what was marshalled gives the same graph back. */
module MarshRoundTrip {
  import opened Options
  import opened MarshInts
  import opened MarshGraph
  import opened Marsh

  // Entries

  lemma {:induction false} FlattenRenamed(f: Renaming, es: seq<Entry>)
    ensures RenameAll(f, Flatten(es)) == Flatten(RenameEntries(f, es))
  {
    if es != [] {
      FlattenRenamed(f, es[1..]);
      assert RenameEntries(f, es)[1..] == RenameEntries(f, es[1..]);
      assert RenameAll(f, Flatten(es)) == RenameAll(f, [es[0].key, es[0].value]) + RenameAll(f, Flatten(es[1..]));
    }
  }

  lemma {:induction false} FlattenAt(es: seq<Entry>, i: nat)
    requires i < |es|
    ensures Flatten(es)[2 * i] == es[i].key && Flatten(es)[2 * i + 1] == es[i].value
  {
    if i > 0 {
      FlattenAt(es[1..], i - 1);
    }
  }

  lemma CoversFlatten(f: Renaming, es: seq<Entry>)
    requires CoversAll(f, Flatten(es))
    ensures forall i :: 0 <= i < |es| ==> Covers(f, es[i].key) && Covers(f, es[i].value)
  {
    forall i | 0 <= i < |es|
      ensures Covers(f, es[i].key) && Covers(f, es[i].value)
    {
      FlattenAt(es, i);
    }
  }

  lemma RenamedGood(f: Renaming, es: seq<Entry>)
    requires GoodEntries(es) && Injective(f) && CoversAll(f, Flatten(es))
    ensures GoodEntries(RenameEntries(f, es))
  {
    CoversFlatten(f, es);
    var es' := RenameEntries(f, es);
    forall i, j | 0 <= i < j < |es|
      ensures es'[i].key != es'[j].key
    {
      if es'[i].key == es'[j].key {
        RenameInjective(f, es[i].key, es[j].key);
      }
    }
  }

  /** Putting good entries one after another gives exactly those entries, in order. */
  lemma {:induction false} PutAllFlatten(done: seq<Entry>, es: seq<Entry>, isStruct: bool)
    requires GoodEntries(done + es)
    ensures PutAll(done, Flatten(es), isStruct) == done + es
    decreases |es|
  {
    if es == [] {
      assert done + es == done;
    } else {
      var e := es[0];
      assert (done + es)[|done|] == e;
      assert forall j :: 0 <= j < |done| ==> (done + es)[j] == done[j];
      assert Index(done, e.key) == |done|;
      assert done + es == (done + [e]) + es[1..];
      assert Flatten(es)[2..] == Flatten(es[1..]);
      PutAllFlatten(done + [e], es[1..], isStruct);
    }
  }

  // Writer and reader side by side

  ghost predicate CoversObject(f: Renaming, o: Object) {
    CoversAll(f, ObjectParts(o))
  }

  /** Object a has been copied in full. */
  ghost predicate Copied(heap: Heap, st: ReadState, f: Renaming, a: nat)
    requires a in f
  {
    a in heap && f[a] in st.heap && CoversObject(f, heap[a]) && st.heap[f[a]] == RenameObject(f, heap[a])
  }

  /** Writer numbers are reader lookup indices: a value the writer would refer to is, renamed,
      where the reader looks. */
  ghost predicate NumbersAgree(seen: map<Value, nat>, nextid: nat, st: ReadState, f: Renaming) {
    && nextid == |st.lookup|
    && forall v {:trigger NumberAgrees(seen, st, f, v)} :: v in seen ==> NumberAgrees(seen, st, f, v)
  }

  ghost predicate NumberAgrees(seen: map<Value, nat>, st: ReadState, f: Renaming, v: Value)
    requires v in seen
  {
    seen[v] < |st.lookup| && Covers(f, v) && st.lookup[seen[v]] == Rename(f, v)
  }

  /** The renaming knows the objects that have been numbered, and keeps them apart. */
  ghost predicate ObjectsAgree(heap: Heap, seen: map<Value, nat>, st: ReadState, f: Renaming) {
    && (forall id: nat :: id in f <==> Ref(id) in seen)
    && Injective(f)
    && (forall k <- st.heap :: k < st.top)
    && (forall a {:trigger ObjectAgrees(heap, st, f, a)} :: a in f ==> ObjectAgrees(heap, st, f, a))
  }

  ghost predicate ObjectAgrees(heap: Heap, st: ReadState, f: Renaming, a: nat)
    requires a in f
  {
    a in heap && f[a] in st.heap && (st.heap[f[a]].Table? <==> heap[a].Table?)
  }

  ghost predicate Related(heap: Heap, seen: map<Value, nat>, nextid: nat, st: ReadState, f: Renaming, open: set<nat>) {
    && NumbersAgree(seen, nextid, st, f)
    && ObjectsAgree(heap, seen, st, f)
    && (forall a {:trigger Copied(heap, st, f, a)} :: a in f && a !in open ==> Copied(heap, st, f, a))
  }

  lemma CoversExtends(f: Renaming, f': Renaming, vs: seq<Value>)
    requires CoversAll(f, vs) && Extends(f, f')
    ensures CoversAll(f', vs) && RenameAll(f', vs) == RenameAll(f, vs)
  {
    forall i | 0 <= i < |vs|
      ensures Covers(f', vs[i]) && Rename(f', vs[i]) == Rename(f, vs[i])
    {
      RenameExtends(f, f', vs[i]);
    }
  }

  lemma RenameEntriesExtends(f: Renaming, f': Renaming, es: seq<Entry>)
    requires CoversAll(f, Flatten(es)) && Extends(f, f')
    ensures RenameEntries(f', es) == RenameEntries(f, es)
  {
    CoversFlatten(f, es);
    forall i | 0 <= i < |es|
      ensures RenameEntries(f', es)[i] == RenameEntries(f, es)[i]
    {
      RenameExtends(f, f', es[i].key);
      RenameExtends(f, f', es[i].value);
    }
  }

  lemma CoversSuffix(f: Renaming, a: seq<Value>, b: seq<Value>)
    requires CoversAll(f, a + b)
    ensures CoversAll(f, a) && CoversAll(f, b)
  {
    forall i | 0 <= i < |a| ensures Covers(f, a[i]) { assert (a + b)[i] == a[i]; }
    forall i | 0 <= i < |b| ensures Covers(f, b[i]) { assert (a + b)[|a| + i] == b[i]; }
  }

  lemma RenameObjectExtends(f: Renaming, f': Renaming, o: Object)
    requires CoversObject(f, o) && Extends(f, f')
    ensures CoversObject(f', o) && RenameObject(f', o) == RenameObject(f, o)
  {
    CoversExtends(f, f', ObjectParts(o));
    if o.Table? {
      var head := if o.parent.Some? then [Ref(o.parent.value)] else [];
      CoversSuffix(f, head, Flatten(o.pairs));
      assert o.parent.Some? ==> Covers(f, head[0]);
      RenameEntriesExtends(f, f', o.pairs);
    }
  }

  /** A new object: the writer numbers it and the reader allocates its copy. */
  lemma AllocateRelated(heap: Heap, seen: map<Value, nat>, nextid: nat, st: ReadState, f: Renaming, open: set<nat>,
                        id: nat, o: Object)
    requires Related(heap, seen, nextid, st, f, open)
    requires id in heap && Ref(id) !in seen && (o.Table? <==> heap[id].Table?)
    ensures Extends(f, f[id := st.top])
    ensures Related(heap, seen[Ref(id) := nextid], nextid + 1, Allocate(st, o), f[id := st.top], open + {id})
  {
    var f', st', seen' := f[id := st.top], Allocate(st, o), seen[Ref(id) := nextid];
    assert Extends(f, f');
    forall v | v in seen'
      ensures NumberAgrees(seen', st', f', v)
    {
      if v != Ref(id) {
        assert NumberAgrees(seen, st, f, v);
        RenameExtends(f, f', v);
      }
    }
    assert Injective(f') by {
      assert forall a <- f :: ObjectAgrees(heap, st, f, a);
    }
    forall a | a in f'
      ensures ObjectAgrees(heap, st', f', a)
    {
      assert a != id ==> ObjectAgrees(heap, st, f, a);
    }
    forall a | a in f' && a !in open + {id}
      ensures Copied(heap, st', f', a)
    {
      assert a in f && Copied(heap, st, f, a);
      RenameObjectExtends(f, f', heap[a]);
    }
  }

  /** An immutable value gets its number. */
  lemma PushRelated(heap: Heap, seen: map<Value, nat>, nextid: nat, st: ReadState, f: Renaming, open: set<nat>,
                    x: Value)
    requires Related(heap, seen, nextid, st, f, open) && !x.Ref? && Covers(f, x)
    ensures Related(heap, Remember(seen, x, nextid), nextid + 1, Push(st, Rename(f, x)), f, open)
  {
    var seen', st' := Remember(seen, x, nextid), Push(st, Rename(f, x));
    forall v | v in seen'
      ensures NumberAgrees(seen', st', f, v)
    {
      if v == x && !NaN(x) {
        assert st'.lookup[nextid] == Rename(f, x);
      } else {
        assert v in seen && seen'[v] == seen[v] && NumberAgrees(seen, st, f, v);
      }
    }
    assert ObjectsAgree(heap, seen', st', f) by {
      forall id: nat
        ensures id in f <==> Ref(id) in seen'
      {
        assert Ref(id) in seen' <==> Ref(id) in seen;
      }
      forall a | a in f
        ensures ObjectAgrees(heap, st', f, a)
      {
        assert ObjectAgrees(heap, st, f, a);
      }
    }
    forall a | a in f && a !in open
      ensures Copied(heap, st', f, a)
    {
      assert Copied(heap, st, f, a);
    }
  }

  /** The copy of an object is complete. */
  lemma FillRelated(heap: Heap, seen: map<Value, nat>, nextid: nat, st: ReadState, f: Renaming, open: set<nat>, id: nat)
    requires Related(heap, seen, nextid, st, f, open + {id})
    requires id in f && id in heap && CoversObject(f, heap[id])
    ensures Related(heap, seen, nextid, Fill(st, f[id], RenameObject(f, heap[id])), f, open)
  {
    var st' := Fill(st, f[id], RenameObject(f, heap[id]));
    assert ObjectAgrees(heap, st, f, id);
    forall v | v in seen
      ensures NumberAgrees(seen, st', f, v)
    {
      assert NumberAgrees(seen, st, f, v);
    }
    forall a | a in f
      ensures ObjectAgrees(heap, st', f, a)
    {
      assert ObjectAgrees(heap, st, f, a);
    }
    forall a | a in f && a !in open
      ensures Copied(heap, st', f, a)
    {
      if a != id {
        assert Copied(heap, st, f, a) && f[a] != f[id];
      }
    }
  }

  // Integers and simple values

  lemma NatRoundTrip(data: seq<Byte>, at: nat, n: nat)
    requires n < INT32_LIMIT && Occurs(data, at, IntBytes(n))
    ensures ReadNat(data, at) == Some(Parsed(n, at + |IntBytes(n)|))
  {
    IntRoundTrip(data, at, n);
  }

  lemma LeadAt(data: seq<Byte>, at: nat, lead: Byte, rest: seq<Byte>)
    requires Occurs(data, at, [lead] + rest)
    ensures at < |data| && data[at] == lead && Occurs(data, at + 1, rest)
  {
    OccursSplit(data, at, [lead], rest);
    assert data[at] == data[at + 0] == [lead][0];
  }

  lemma PlainRoundTrip(data: seq<Byte>, at: nat, x: Value, st: ReadState, depth: nat)
    requires depth <= RECURSION_GUARD && Plain(x) && Occurs(data, at, PlainBytes(x))
    ensures ReadOne(data, at, st, depth) == Some(ReadOneResult(x, at + |PlainBytes(x)|, st))
  {
    assert data[at] == data[at + 0] == PlainBytes(x)[0];
    if x.Int? {
      IntRoundTrip(data, at, x.n);
    }
  }

  lemma ReferenceRoundTrip(data: seq<Byte>, at: nat, n: nat, st: ReadState, depth: nat)
    requires depth <= RECURSION_GUARD && n < |st.lookup| && n < INT32_LIMIT
    requires Occurs(data, at, [LB_REFERENCE] + IntBytes(Id32(n)))
    ensures ReadOne(data, at, st, depth) == Some(ReadOneResult(st.lookup[n], at + 1 + |IntBytes(Id32(n))|, st))
  {
    assert Id32(n) == n;
    LeadAt(data, at, LB_REFERENCE, IntBytes(n));
    NatRoundTrip(data, at + 1, n);
  }

  lemma RealRoundTrip(data: seq<Byte>, at: nat, raw: seq<Byte>, st: ReadState, depth: nat)
    requires depth <= RECURSION_GUARD && |raw| == 8 && Occurs(data, at, [LB_REAL] + raw)
    ensures ReadOne(data, at, st, depth) == Some(ReadOneResult(Real(raw), at + 9, Push(st, Real(raw))))
  {
    LeadAt(data, at, LB_REAL, raw);
    assert data[at + 1..at + 9] == raw;
  }

  lemma TextBytesAt(data: seq<Byte>, at: nat, lead: Byte, text: seq<Byte>)
    requires |text| < INT32_LIMIT && Occurs(data, at, [lead] + IntBytes(|text|) + text)
    ensures at < |data| && data[at] == lead
    ensures ReadNat(data, at + 1) == Some(Parsed(|text|, at + 1 + |IntBytes(|text|)|))
    ensures var next := at + 1 + |IntBytes(|text|)|; next + |text| <= |data| && data[next..next + |text|] == text
  {
    assert [lead] + IntBytes(|text|) + text == [lead] + (IntBytes(|text|) + text);
    LeadAt(data, at, lead, IntBytes(|text|) + text);
    OccursSplit(data, at + 1, IntBytes(|text|), text);
    NatRoundTrip(data, at + 1, |text|);
  }

  lemma TextRoundTrip(data: seq<Byte>, at: nat, kind: TextKind, text: seq<Byte>, st: ReadState, depth: nat)
    requires depth <= RECURSION_GUARD && |text| < INT32_LIMIT
    requires Occurs(data, at, [TextLead(kind)] + IntBytes(|text|) + text)
    ensures var v := Text(kind, text);
            ReadOne(data, at, st, depth) == Some(ReadOneResult(v, at + 1 + |IntBytes(|text|)| + |text|, Push(st, v)))
  {
    TextBytesAt(data, at, TextLead(kind), text);
  }

  lemma BufferRoundTrip(data: seq<Byte>, at: nat, content: seq<Byte>, st: ReadState, depth: nat)
    requires depth <= RECURSION_GUARD && |content| < INT32_LIMIT
    requires Occurs(data, at, [LB_BUFFER] + IntBytes(|content|) + content)
    ensures ReadOne(data, at, st, depth)
         == Some(ReadOneResult(Ref(st.top), at + 1 + |IntBytes(|content|)| + |content|, Allocate(st, Buffer(content))))
  {
    TextBytesAt(data, at, LB_BUFFER, content);
  }

  // Composite values, given that their parts read back

  /** Reading at a position yields the renamed values, right up to the end of the bytes. */
  ghost predicate YieldsAll(data: seq<Byte>, at: nat, st: ReadState, depth: nat, xs: seq<Value>, f: Renaming,
                            length: nat) {
    var r := ReadAll(data, at, st, |xs|, depth);
    r.Some? && r.value.next == at + length && CoversAll(f, xs) && r.value.values == RenameAll(f, xs)
  }

  ghost predicate Yields(data: seq<Byte>, at: nat, st: ReadState, depth: nat, x: Value, f: Renaming, length: nat) {
    var r := ReadOne(data, at, st, depth);
    r.Some? && r.value.next == at + length && Covers(f, x) && r.value.value == Rename(f, x)
  }

  /** Afterwards writer and reader are related again, by a renaming that knows more. */
  ghost predicate ReadsAllBack(heap: Heap, w: Written, xs: seq<Value>, data: seq<Byte>, at: nat, st: ReadState,
                               depth: nat, f: Renaming, f': Renaming, open: set<nat>)
  {
    && YieldsAll(data, at, st, depth, xs, f', |w.bytes|)
    && Extends(f, f') && Related(heap, w.seen, w.nextid, ReadAll(data, at, st, |xs|, depth).value.state, f', open)
  }

  ghost predicate ReadsBack(heap: Heap, w: Written, x: Value, data: seq<Byte>, at: nat, st: ReadState,
                            depth: nat, f: Renaming, f': Renaming, open: set<nat>)
  {
    && Yields(data, at, st, depth, x, f', |w.bytes|)
    && Extends(f, f') && Related(heap, w.seen, w.nextid, ReadOne(data, at, st, depth).value.state, f', open)
  }

  /** The length that opens a composite, and that it passes the check against the input. */
  lemma LengthAt(data: seq<Byte>, at: nat, lead: Byte, n: nat, rest: seq<Byte>)
    requires n < INT32_LIMIT && Occurs(data, at, [lead] + IntBytes(n) + rest) && |rest| >= n
    ensures at < |data| && data[at] == lead
    ensures ReadNat(data, at + 1) == Some(Parsed(n, at + 1 + |IntBytes(n)|))
    ensures at + 1 + |IntBytes(n)| - 1 + n < |data| && Occurs(data, at + 1 + |IntBytes(n)|, rest)
  {
    assert [lead] + IntBytes(n) + rest == [lead] + (IntBytes(n) + rest);
    LeadAt(data, at, lead, IntBytes(n) + rest);
    OccursSplit(data, at + 1, IntBytes(n), rest);
    NatRoundTrip(data, at + 1, n);
  }

  /** Past the simple lead bytes, a length follows. */
  lemma OpensComposite(data: seq<Byte>, at: nat, lead: Byte, n: nat, body: seq<Byte>, st: ReadState, depth: nat)
    requires depth <= RECURSION_GUARD && n < INT32_LIMIT && |body| >= n
    requires lead >= LB_ARRAY && lead != LB_BUFFER && lead != LB_REFERENCE
    requires Occurs(data, at, [lead] + IntBytes(n) + body)
    ensures ReadOne(data, at, st, depth) == ReadComposite(data, lead, n, at + 1 + |IntBytes(n)|, st, depth)
    ensures Occurs(data, at + 1 + |IntBytes(n)|, body)
  {
    LengthAt(data, at, lead, n, body);
  }

  lemma FlagAt(data: seq<Byte>, at: nat, flag: Int16, body: seq<Byte>)
    requires Occurs(data, at, IntBytes(flag) + body)
    ensures ReadInt(data, at) == Some(Parsed(flag, at + |IntBytes(flag)|)) && ToInt16(flag) == flag
  {
    OccursSplit(data, at, IntBytes(flag), body);
    IntRoundTrip(data, at, flag);
  }

  lemma ReadTuple(data: seq<Byte>, at: nat, flag: Int16, n: nat, body: seq<Byte>, st: ReadState, depth: nat,
                  r: ReadAllResult)
    requires depth <= RECURSION_GUARD && n < INT32_LIMIT && |body| >= n
    requires Occurs(data, at, [LB_TUPLE] + IntBytes(n) + (IntBytes(flag) + body))
    requires ReadAll(data, at + 1 + |IntBytes(n)| + |IntBytes(flag)|, st, n, depth + 1) == Some(r)
    ensures var v := Tuple(flag, r.values);
            ReadOne(data, at, st, depth) == Some(ReadOneResult(v, r.next, Push(r.state, v)))
  {
    OpensComposite(data, at, LB_TUPLE, n, IntBytes(flag) + body, st, depth);
    FlagAt(data, at + 1 + |IntBytes(n)|, flag, body);
  }

  lemma TupleBack(heap: Heap, w: Written, x: Value, data: seq<Byte>, at: nat, st: ReadState,
                  depth: nat, f: Renaming, f': Renaming, open: set<nat>)
    requires depth <= RECURSION_GUARD && GoodHeap(heap) && Good(heap, x) && x.Tuple? && |w.bytes| >= |Parts(heap, x)|
    requires Occurs(data, at, Header(heap, x) + w.bytes)
    requires ReadsAllBack(heap, w, Parts(heap, x), data, at + |Header(heap, x)|, st, depth + 1, f, f', open)
    ensures ReadsBack(heap, Written(Header(heap, x) + w.bytes, Remember(w.seen, x, w.nextid), w.nextid + 1),
                      x, data, at, st, depth, f, f', open)
  {
    var length := [LB_TUPLE] + IntBytes(|x.items|);
    assert length + IntBytes(x.flag) + w.bytes == length + (IntBytes(x.flag) + w.bytes);
    var r := ReadAll(data, at + |Header(heap, x)|, st, |x.items|, depth + 1).value;
    ReadTuple(data, at, x.flag, |x.items|, w.bytes, st, depth, r);
    assert Rename(f', x) == Tuple(x.flag, RenameAll(f', x.items));
    PushRelated(heap, w.seen, w.nextid, r.state, f', open, x);
  }

  lemma ReadStruct(data: seq<Byte>, at: nat, hasProto: bool, n: nat, parts: nat, body: seq<Byte>, st: ReadState,
                   depth: nat,
                   r: ReadAllResult)
    requires depth <= RECURSION_GUARD && n < INT32_LIMIT && |body| >= parts == (if hasProto then 1 else 0) + 2 * n
    requires Occurs(data, at, [if hasProto then LB_STRUCT_PROTO else LB_STRUCT] + IntBytes(n) + body)
    requires ReadAll(data, at + 1 + |IntBytes(n)|, st, parts, depth + 1) == Some(r)
    requires hasProto ==> r.values[0].Struct?
    ensures var skip := if hasProto then 1 else 0;
            var v := Struct(if hasProto then Some(r.values[0]) else None, PutAll([], r.values[skip..], true));
            ReadOne(data, at, st, depth) == Some(ReadOneResult(v, r.next, Push(r.state, v)))
  {
    OpensComposite(data, at, if hasProto then LB_STRUCT_PROTO else LB_STRUCT, n, body, st, depth);
  }

  /** Renamed entries that were read flat are put back as they were. */
  lemma EntriesBack(f: Renaming, es: seq<Entry>, values: seq<Value>, isStruct: bool)
    requires GoodEntries(es) && Injective(f) && CoversAll(f, Flatten(es)) && values == RenameAll(f, Flatten(es))
    ensures PutAll([], values, isStruct) == RenameEntries(f, es)
  {
    FlattenRenamed(f, es);
    RenamedGood(f, es);
    var renamed := RenameEntries(f, es);
    assert [] + renamed == renamed;
    PutAllFlatten([], renamed, isStruct);
  }

  lemma RenameStruct(f: Renaming, x: Value)
    requires x.Struct?
    ensures Rename(f, x)
            == Struct(if x.proto.Some? then Some(Rename(f, x.proto.value)) else None, RenameEntries(f, x.entries))
  {
  }

  /** The struct that the reader builds from its renamed parts. */
  lemma StructValue(heap: Heap, f: Renaming, x: Value, values: seq<Value>)
    requires Good(heap, x) && x.Struct? && Injective(f)
    requires CoversAll(f, Parts(heap, x)) && values == RenameAll(f, Parts(heap, x))
    ensures Covers(f, x) && (x.proto.Some? ==> values[0].Struct?)
    ensures var skip := if x.proto.Some? then 1 else 0;
            Struct(if x.proto.Some? then Some(values[0]) else None, PutAll([], values[skip..], true)) == Rename(f, x)
  {
    var head := if x.proto.Some? then [x.proto.value] else [];
    var flat := Flatten(x.entries);
    CoversSuffix(f, head, flat);
    CoversFlatten(f, x.entries);
    assert values[|head|..] == RenameAll(f, flat);
    assert x.proto.Some? ==> Covers(f, head[0]) && values[0] == Rename(f, head[0]);
    EntriesBack(f, x.entries, values[|head|..], true);
    RenameStruct(f, x);
  }

  lemma StructPartsCount(heap: Heap, x: Value)
    requires Good(heap, x) && x.Struct?
    ensures |Parts(heap, x)| == (if x.proto.Some? then 1 else 0) + 2 * |x.entries|
  {
  }

  lemma StructReads(heap: Heap, x: Value, body: seq<Byte>, data: seq<Byte>, at: nat, st: ReadState, depth: nat,
                    f: Renaming, r: ReadAllResult)
    requires depth <= RECURSION_GUARD && Good(heap, x) && x.Struct? && |body| >= |Parts(heap, x)| && Injective(f)
    requires Occurs(data, at, [if x.proto.Some? then LB_STRUCT_PROTO else LB_STRUCT] + IntBytes(|x.entries|) + body)
    requires ReadAll(data, at + 1 + |IntBytes(|x.entries|)|, st, |Parts(heap, x)|, depth + 1) == Some(r)
    requires CoversAll(f, Parts(heap, x)) && r.values == RenameAll(f, Parts(heap, x))
    ensures Covers(f, x)
    ensures ReadOne(data, at, st, depth) == Some(ReadOneResult(Rename(f, x), r.next, Push(r.state, Rename(f, x))))
  {
    StructPartsCount(heap, x);
    StructValue(heap, f, x, r.values);
    ReadStruct(data, at, x.proto.Some?, |x.entries|, |Parts(heap, x)|, body, st, depth, r);
  }

  lemma StructBack(heap: Heap, w: Written, x: Value, data: seq<Byte>, at: nat, st: ReadState,
                   depth: nat, f: Renaming, f': Renaming, open: set<nat>)
    requires depth <= RECURSION_GUARD && GoodHeap(heap) && Good(heap, x) && x.Struct? && |w.bytes| >= |Parts(heap, x)|
    requires Occurs(data, at, Header(heap, x) + w.bytes)
    requires ReadsAllBack(heap, w, Parts(heap, x), data, at + |Header(heap, x)|, st, depth + 1, f, f', open)
    ensures ReadsBack(heap, Written(Header(heap, x) + w.bytes, Remember(w.seen, x, w.nextid), w.nextid + 1),
                      x, data, at, st, depth, f, f', open)
  {
    var r := ReadAll(data, at + |Header(heap, x)|, st, |Parts(heap, x)|, depth + 1).value;
    StructReads(heap, x, w.bytes, data, at, st, depth, f', r);
    PushRelated(heap, w.seen, w.nextid, r.state, f', open, x);
  }

  lemma ReadArray(data: seq<Byte>, at: nat, weak: bool, n: nat, body: seq<Byte>, st: ReadState, depth: nat,
                  r: ReadAllResult)
    requires depth <= RECURSION_GUARD && n < INT32_LIMIT && |body| >= n
    requires Occurs(data, at, [if weak then LB_ARRAY_WEAK else LB_ARRAY] + IntBytes(n) + body)
    requires ReadAll(data, at + 1 + |IntBytes(n)|, Allocate(st, Array(weak, [])), n, depth + 1) == Some(r)
    ensures ReadOne(data, at, st, depth)
         == Some(ReadOneResult(Ref(st.top), r.next, Fill(r.state, st.top, Array(weak, r.values))))
  {
    OpensComposite(data, at, if weak then LB_ARRAY_WEAK else LB_ARRAY, n, body, st, depth);
  }

  lemma TableLeads(weakness: Weakness, hasProto: bool)
    ensures var lead := TableLead(weakness, hasProto);
            && TableOf(lead) == Some((weakness, hasProto)) && lead >= LB_ARRAY
            && lead !in {LB_ARRAY, LB_ARRAY_WEAK, LB_TUPLE, LB_STRUCT, LB_STRUCT_PROTO, LB_BUFFER, LB_REFERENCE}
  {
  }

  lemma ReadTableParts(data: seq<Byte>, lead: Byte, weakness: Weakness, hasProto: bool, n: nat, parts: nat, at: nat,
                       st: ReadState,
                       depth: nat, r: ReadAllResult)
    requires depth <= RECURSION_GUARD && TableOf(lead) == Some((weakness, hasProto))
    requires lead !in {LB_ARRAY, LB_ARRAY_WEAK, LB_TUPLE, LB_STRUCT, LB_STRUCT_PROTO}
    requires parts == (if hasProto then 1 else 0) + 2 * n
    requires ReadAll(data, at, Allocate(st, Table(weakness, None, [])), parts, depth + 1) == Some(r)
    requires hasProto ==> IsTable(r.state.heap, r.values[0])
    ensures var skip := if hasProto then 1 else 0;
            var table := Table(weakness, if hasProto then Some(r.values[0].id) else None,
              PutAll([], r.values[skip..], false));
            ReadComposite(data, lead, n, at, st, depth)
              == Some(ReadOneResult(Ref(st.top), r.next, Fill(r.state, st.top, table)))
  {
  }

  lemma ReadTable(data: seq<Byte>, at: nat, weakness: Weakness, hasProto: bool, n: nat, parts: nat, body: seq<Byte>,
                  st: ReadState,
                  depth: nat, r: ReadAllResult)
    requires depth <= RECURSION_GUARD && n < INT32_LIMIT && |body| >= parts == (if hasProto then 1 else 0) + 2 * n
    requires Occurs(data, at, [TableLead(weakness, hasProto)] + IntBytes(n) + body)
    requires ReadAll(data, at + 1 + |IntBytes(n)|, Allocate(st, Table(weakness, None, [])), parts, depth + 1) == Some(r)
    requires hasProto ==> IsTable(r.state.heap, r.values[0])
    ensures var skip := if hasProto then 1 else 0;
            var table := Table(weakness, if hasProto then Some(r.values[0].id) else None,
              PutAll([], r.values[skip..], false));
            ReadOne(data, at, st, depth) == Some(ReadOneResult(Ref(st.top), r.next, Fill(r.state, st.top, table)))
  {
    TableLeads(weakness, hasProto);
    OpensComposite(data, at, TableLead(weakness, hasProto), n, body, st, depth);
    ReadTableParts(data, TableLead(weakness, hasProto), weakness, hasProto, n, parts, at + 1 + |IntBytes(n)|, st,
      depth, r);
  }

  /** A new object before its parts are read. */
  function Blank(o: Object): Object {
    match o
    case Array(weak, _) => Array(weak, [])
    case Table(weakness, _, _) => Table(weakness, None, [])
    case Buffer(_) => o
  }

  /** An object on the heap, given that its parts read back after it was allocated. */
  lemma ArrayBack(heap: Heap, w: Written, id: nat, data: seq<Byte>, at: nat, st: ReadState,
                  depth: nat, f: Renaming, f': Renaming, open: set<nat>)
    requires depth <= RECURSION_GUARD && GoodHeap(heap) && id in heap && heap[id].Array?
    requires |w.bytes| >= |Parts(heap, Ref(id))|
    requires Occurs(data, at, Header(heap, Ref(id)) + w.bytes) && id !in f
    requires ReadsAllBack(heap, w, Parts(heap, Ref(id)), data, at + |Header(heap, Ref(id))|,
             Allocate(st, Blank(heap[id])),
                          depth + 1, f[id := st.top], f', open + {id})
    ensures ReadsBack(heap, w.(bytes := Header(heap, Ref(id)) + w.bytes), Ref(id), data, at, st, depth, f, f', open)
  {
    var o := heap[id];
    assert GoodObject(heap, o);
    var st1 := Allocate(st, Array(o.weak, []));
    var r := ReadAll(data, at + |Header(heap, Ref(id))|, st1, |o.elements|, depth + 1).value;
    assert |Header(heap, Ref(id))| == 1 + |IntBytes(|o.elements|)|;
    ReadArray(data, at, o.weak, |o.elements|, w.bytes, st, depth, r);
    FillRelated(heap, w.seen, w.nextid, r.state, f', open, id);
  }

  /** The table that the reader builds from its renamed parts. */
  lemma TableValue(heap: Heap, heap': Heap, f: Renaming, o: Object, values: seq<Value>)
    requires GoodObject(heap, o) && o.Table? && Injective(f)
    requires CoversObject(f, o) && values == RenameAll(f, ObjectParts(o))
    requires forall a <- f :: a in heap && f[a] in heap' && (heap'[f[a]].Table? <==> heap[a].Table?)
    ensures o.parent.Some? ==> IsTable(heap', values[0])
    ensures var skip := if o.parent.Some? then 1 else 0;
            Table(o.weakness, if o.parent.Some? then Some(values[0].id) else None, PutAll([], values[skip..], false))
              == RenameObject(f, o)
  {
    var head := if o.parent.Some? then [Ref(o.parent.value)] else [];
    var flat := Flatten(o.pairs);
    CoversSuffix(f, head, flat);
    assert values[|head|..] == RenameAll(f, flat);
    assert o.parent.Some? ==> Covers(f, head[0]) && values[0] == Rename(f, head[0]);
    EntriesBack(f, o.pairs, values[|head|..], false);
  }

  lemma TablePartsCount(o: Object)
    requires o.Table?
    ensures |ObjectParts(o)| == (if o.parent.Some? then 1 else 0) + 2 * |o.pairs|
  {
  }

  lemma TableReads(heap: Heap, o: Object, body: seq<Byte>, data: seq<Byte>, at: nat, st: ReadState, depth: nat,
                   f: Renaming, r: ReadAllResult)
    requires depth <= RECURSION_GUARD && GoodObject(heap, o) && o.Table? && |body| >= |ObjectParts(o)| && Injective(f)
    requires Occurs(data, at, [TableLead(o.weakness, o.parent.Some?)] + IntBytes(|o.pairs|) + body)
    requires ReadAll(data, at + 1 + |IntBytes(|o.pairs|)|, Allocate(st, Table(o.weakness, None, [])), |ObjectParts(o)|,
             depth + 1)
          == Some(r)
    requires CoversObject(f, o) && r.values == RenameAll(f, ObjectParts(o))
    requires forall a <- f :: a in heap && f[a] in r.state.heap && (r.state.heap[f[a]].Table? <==> heap[a].Table?)
    ensures ReadOne(data, at, st, depth)
            == Some(ReadOneResult(Ref(st.top), r.next, Fill(r.state, st.top, RenameObject(f, o))))
  {
    TablePartsCount(o);
    TableValue(heap, r.state.heap, f, o, r.values);
    ReadTable(data, at, o.weakness, o.parent.Some?, |o.pairs|, |ObjectParts(o)|, body, st, depth, r);
  }

  lemma TableBack(heap: Heap, w: Written, id: nat, data: seq<Byte>, at: nat, st: ReadState,
                  depth: nat, f: Renaming, f': Renaming, open: set<nat>)
    requires depth <= RECURSION_GUARD && GoodHeap(heap) && id in heap && heap[id].Table?
    requires |w.bytes| >= |Parts(heap, Ref(id))|
    requires Occurs(data, at, Header(heap, Ref(id)) + w.bytes) && id !in f
    requires ReadsAllBack(heap, w, Parts(heap, Ref(id)), data, at + |Header(heap, Ref(id))|,
             Allocate(st, Blank(heap[id])),
                          depth + 1, f[id := st.top], f', open + {id})
    ensures ReadsBack(heap, w.(bytes := Header(heap, Ref(id)) + w.bytes), Ref(id), data, at, st, depth, f, f', open)
  {
    var st1 := Allocate(st, Table(heap[id].weakness, None, []));
    var r := ReadAll(data, at + |Header(heap, Ref(id))|, st1, |ObjectParts(heap[id])|, depth + 1).value;
    assert GoodObject(heap, heap[id]);
    assert forall a <- f' :: ObjectAgrees(heap, r.state, f', a);
    TableReads(heap, heap[id], w.bytes, data, at, st, depth, f', r);
    FillRelated(heap, w.seen, w.nextid, r.state, f', open, id);
  }

  lemma LastBack(heap: Heap, w: Written, x: Value, data: seq<Byte>, at: nat, st: ReadState,
                 depth: nat, f: Renaming, f': Renaming, open: set<nat>)
    requires depth <= RECURSION_GUARD && GoodHeap(heap) && Good(heap, x) && NumberedLast(x)
    requires |w.bytes| >= |Parts(heap, x)|
    requires Occurs(data, at, Header(heap, x) + w.bytes)
    requires ReadsAllBack(heap, w, Parts(heap, x), data, at + |Header(heap, x)|, st, depth + 1, f, f', open)
    ensures ReadsBack(heap, Written(Header(heap, x) + w.bytes, Remember(w.seen, x, w.nextid), w.nextid + 1),
                      x, data, at, st, depth, f, f', open)
  {
    if x.Tuple? {
      TupleBack(heap, w, x, data, at, st, depth, f, f', open);
    } else {
      StructBack(heap, w, x, data, at, st, depth, f, f', open);
    }
  }

  lemma ObjectBack(heap: Heap, inner: Written, w: Written, id: nat, data: seq<Byte>, at: nat, st: ReadState,
                   depth: nat, f: Renaming, f': Renaming, open: set<nat>)
    requires depth <= RECURSION_GUARD && GoodHeap(heap) && id in heap && !heap[id].Buffer?
    requires w == inner.(bytes := Header(heap, Ref(id)) + inner.bytes) && |inner.bytes| >= |Parts(heap, Ref(id))|
    requires Occurs(data, at, w.bytes) && id !in f
    requires ReadsAllBack(heap, inner, Parts(heap, Ref(id)), data, at + |Header(heap, Ref(id))|,
             Allocate(st, Blank(heap[id])),
                          depth + 1, f[id := st.top], f', open + {id})
    ensures ReadsBack(heap, w, Ref(id), data, at, st, depth, f, f', open)
  {
    if heap[id].Array? {
      ArrayBack(heap, inner, id, data, at, st, depth, f, f', open);
    } else {
      TableBack(heap, inner, id, data, at, st, depth, f, f', open);
    }
  }

  // Whole graphs

  /** Bytes and states line up before a value: what the writer wrote from here on stands at this
      place of the input, and its numbers fit 32 bits. */
  ghost predicate Ready(heap: Heap, seen: map<Value, nat>, nextid: nat, w: Written, data: seq<Byte>, at: nat,
                        st: ReadState, f: Renaming, open: set<nat>)
  {
    && GoodHeap(heap) && Occurs(data, at, w.bytes) && w.nextid <= INT32_LIMIT
    && Related(heap, seen, nextid, st, f, open)
  }

  lemma LeafBack(heap: Heap, seen: map<Value, nat>, nextid: nat, x: Value, depth: nat, data: seq<Byte>, at: nat,
                 st: ReadState, f: Renaming, open: set<nat>)
    requires GoodHeap(heap) && Good(heap, x) && (x.Real? || x.Text?) && depth <= RECURSION_GUARD
    requires Related(heap, seen, nextid, st, f, open) && Occurs(data, at, Header(heap, x))
    ensures ReadsBack(heap, Written(Header(heap, x), Remember(seen, x, nextid), nextid + 1), x, data, at, st, depth, f,
            f, open)
  {
    if x.Real? {
      RealRoundTrip(data, at, x.raw, st, depth);
    } else {
      TextRoundTrip(data, at, x.kind, x.text, st, depth);
    }
    PushRelated(heap, seen, nextid, st, f, open, x);
  }

  lemma BufferBack(heap: Heap, seen: map<Value, nat>, nextid: nat, id: nat, depth: nat, data: seq<Byte>, at: nat,
                   st: ReadState, f: Renaming, open: set<nat>)
    requires GoodHeap(heap) && id in heap && heap[id].Buffer? && depth <= RECURSION_GUARD
    requires Related(heap, seen, nextid, st, f, open) && Ref(id) !in seen
    requires Occurs(data, at, Header(heap, Ref(id)))
    ensures ReadsBack(heap, Written(Header(heap, Ref(id)), seen[Ref(id) := nextid], nextid + 1), Ref(id), data, at, st,
            depth,
                      f, f[id := st.top], open)
  {
    var o := heap[id];
    assert GoodObject(heap, o);
    AllocateRelated(heap, seen, nextid, st, f, open, id, o);
    BufferRoundTrip(data, at, o.content, st, depth);
    FillRelated(heap, seen[Ref(id) := nextid], nextid + 1, Allocate(st, o), f[id := st.top], open, id);
    assert Allocate(st, o).heap[st.top := o] == Allocate(st, o).heap;
  }

  /** A value without parts is its header. */
  lemma WriteLeaf(heap: Heap, seen: map<Value, nat>, nextid: nat, x: Value, depth: nat, w: Written)
    requires GoodHeap(heap) && Good(heap, x) && !Plain(x) && x !in seen && !NumberedLast(x) && Parts(heap, x) == []
    requires WriteOne(heap, seen, nextid, x, depth) == Some(w)
    ensures depth <= RECURSION_GUARD && w == Written(Header(heap, x), Remember(seen, x, nextid), nextid + 1)
  {
    assert Header(heap, x) + [] == Header(heap, x);
  }

  lemma {:induction false} RoundLast(heap: Heap, seen: map<Value, nat>, nextid: nat, x: Value, depth: nat, w: Written,
                                    data: seq<Byte>, at: nat, st: ReadState, f: Renaming,
                                      open: set<nat>) returns (f': Renaming)
    requires Good(heap, x) && Ready(heap, seen, nextid, w, data, at, st, f, open)
    requires NumberedLast(x) && x !in seen && WriteOne(heap, seen, nextid, x, depth) == Some(w)
    ensures ReadsBack(heap, w, x, data, at, st, depth, f, f', open)
    decreases Measure(depth), 0
  {
    PartsGood(heap, x);
    var inner := WriteAll(heap, seen, nextid, Parts(heap, x), depth + 1).value;
    OccursSplit(data, at, Header(heap, x), inner.bytes);
    f' := RoundAll(heap, seen, nextid, Parts(heap, x), depth + 1, inner, data, at + |Header(heap, x)|, st, f, open);
    LastBack(heap, inner, x, data, at, st, depth, f, f', open);
  }

  /** The parts of an object are written after it has its number. */
  lemma WriteObject(heap: Heap, seen: map<Value, nat>, nextid: nat, id: nat, depth: nat, w: Written)
    returns (inner: Written)
    requires GoodHeap(heap) && id in heap && Ref(id) !in seen && WriteOne(heap, seen, nextid, Ref(id), depth) == Some(w)
    ensures depth <= RECURSION_GUARD && AllGood(heap, Parts(heap, Ref(id))) && |inner.bytes| >= |Parts(heap, Ref(id))|
    ensures WriteAll(heap, seen[Ref(id) := nextid], nextid + 1, Parts(heap, Ref(id)), depth + 1) == Some(inner)
    ensures w == inner.(bytes := Header(heap, Ref(id)) + inner.bytes)
  {
    PartsGood(heap, Ref(id));
    inner := WriteAll(heap, seen[Ref(id) := nextid], nextid + 1, Parts(heap, Ref(id)), depth + 1).value;
  }

  lemma {:induction false} RoundObjectParts(heap: Heap, seen: map<Value, nat>, nextid: nat, id: nat, depth: nat,
                                            inner: Written,
                                           data: seq<Byte>, at: nat, st: ReadState, f: Renaming,
                                             open: set<nat>) returns (f': Renaming)
    requires id in heap && Ref(id) !in seen && Ready(heap, seen, nextid, inner, data, at, st, f, open)
    requires AllGood(heap, Parts(heap, Ref(id))) && depth <= RECURSION_GUARD
    requires WriteAll(heap, seen[Ref(id) := nextid], nextid + 1, Parts(heap, Ref(id)), depth + 1) == Some(inner)
    ensures id !in f
    ensures ReadsAllBack(heap, inner, Parts(heap, Ref(id)), data, at, Allocate(st, Blank(heap[id])), depth + 1,
                         f[id := st.top], f', open + {id})
    decreases Measure(depth), 0
  {
    AllocateRelated(heap, seen, nextid, st, f, open, id, Blank(heap[id]));
    f' := RoundAll(heap, seen[Ref(id) := nextid], nextid + 1, Parts(heap, Ref(id)), depth + 1, inner, data, at,
                   Allocate(st, Blank(heap[id])), f[id := st.top], open + {id});
  }

  lemma {:induction false} RoundObject(heap: Heap, seen: map<Value, nat>, nextid: nat, id: nat, depth: nat, w: Written,
                                      data: seq<Byte>, at: nat, st: ReadState, f: Renaming,
                                        open: set<nat>) returns (f': Renaming)
    requires id in heap && !heap[id].Buffer? && Ready(heap, seen, nextid, w, data, at, st, f, open)
    requires Ref(id) !in seen && WriteOne(heap, seen, nextid, Ref(id), depth) == Some(w)
    ensures ReadsBack(heap, w, Ref(id), data, at, st, depth, f, f', open)
    decreases Measure(depth), 1
  {
    var inner := WriteObject(heap, seen, nextid, id, depth, w);
    OccursSplit(data, at, Header(heap, Ref(id)), inner.bytes);
    f' := RoundObjectParts(heap, seen, nextid, id, depth, inner, data, at + |Header(heap, Ref(id))|, st, f, open);
    ObjectBack(heap, inner, w, id, data, at, st, depth, f, f', open);
  }

  lemma {:induction false} RoundFresh(heap: Heap, seen: map<Value, nat>, nextid: nat, x: Value, depth: nat, w: Written,
                                     data: seq<Byte>, at: nat, st: ReadState, f: Renaming,
                                       open: set<nat>) returns (f': Renaming)
    requires Good(heap, x) && Ready(heap, seen, nextid, w, data, at, st, f, open)
    requires !Plain(x) && x !in seen && WriteOne(heap, seen, nextid, x, depth) == Some(w)
    ensures ReadsBack(heap, w, x, data, at, st, depth, f, f', open)
    decreases Measure(depth), 2
  {
    if NumberedLast(x) {
      f' := RoundLast(heap, seen, nextid, x, depth, w, data, at, st, f, open);
    } else if x.Ref? && !heap[x.id].Buffer? {
      f' := RoundObject(heap, seen, nextid, x.id, depth, w, data, at, st, f, open);
    } else {
      WriteLeaf(heap, seen, nextid, x, depth, w);
      if x.Ref? {
        f' := f[x.id := st.top];
        BufferBack(heap, seen, nextid, x.id, depth, data, at, st, f, open);
      } else {
        f' := f;
        LeafBack(heap, seen, nextid, x, depth, data, at, st, f, open);
      }
    }
  }

  lemma {:induction false} RoundOne(heap: Heap, seen: map<Value, nat>, nextid: nat, x: Value, depth: nat, w: Written,
                                   data: seq<Byte>, at: nat, st: ReadState, f: Renaming,
                                     open: set<nat>) returns (f': Renaming)
    requires Good(heap, x) && Ready(heap, seen, nextid, w, data, at, st, f, open)
    requires WriteOne(heap, seen, nextid, x, depth) == Some(w)
    ensures ReadsBack(heap, w, x, data, at, st, depth, f, f', open)
    decreases Measure(depth), 3
  {
    if Plain(x) {
      f' := f;
      PlainRoundTrip(data, at, x, st, depth);
    } else if x in seen {
      f' := f;
      assert NumberAgrees(seen, st, f, x);
      ReferenceRoundTrip(data, at, seen[x], st, depth);
    } else {
      f' := RoundFresh(heap, seen, nextid, x, depth, w, data, at, st, f, open);
    }
  }

  lemma YieldsCons(data: seq<Byte>, at: nat, st: ReadState, depth: nat, xs: seq<Value>, f: Renaming, f': Renaming,
                   first: nat, rest: nat)
    requires xs != [] && Yields(data, at, st, depth, xs[0], f, first) && Extends(f, f')
    requires YieldsAll(data, at + first, ReadOne(data, at, st, depth).value.state, depth, xs[1..], f', rest)
    ensures YieldsAll(data, at, st, depth, xs, f', first + rest)
    ensures ReadAll(data, at, st, |xs|, depth).value.state
         == ReadAll(data, at + first, ReadOne(data, at, st, depth).value.state, |xs| - 1, depth).value.state
  {
    RenameExtends(f, f', xs[0]);
    assert RenameAll(f', xs) == [Rename(f', xs[0])] + RenameAll(f', xs[1..]);
    assert |xs[1..]| == |xs| - 1;
  }

  lemma WriteAllCons(heap: Heap, seen: map<Value, nat>, nextid: nat, xs: seq<Value>, depth: nat, w: Written)
    returns (first: Written, rest: Written)
    requires GoodHeap(heap) && AllGood(heap, xs) && xs != []
    requires WriteAll(heap, seen, nextid, xs, depth) == Some(w)
    ensures WriteOne(heap, seen, nextid, xs[0], depth) == Some(first)
    ensures AllGood(heap, xs[1..]) && WriteAll(heap, first.seen, first.nextid, xs[1..], depth) == Some(rest)
    ensures w == rest.(bytes := first.bytes + rest.bytes) && first.nextid <= rest.nextid
  {
    first := WriteOne(heap, seen, nextid, xs[0], depth).value;
    rest := WriteAll(heap, first.seen, first.nextid, xs[1..], depth).value;
  }

  lemma {:induction false} RoundAll(heap: Heap, seen: map<Value, nat>, nextid: nat, xs: seq<Value>, depth: nat,
                                    w: Written,
                                   data: seq<Byte>, at: nat, st: ReadState, f: Renaming,
                                     open: set<nat>) returns (f': Renaming)
    requires AllGood(heap, xs) && Ready(heap, seen, nextid, w, data, at, st, f, open)
    requires WriteAll(heap, seen, nextid, xs, depth) == Some(w)
    ensures ReadsAllBack(heap, w, xs, data, at, st, depth, f, f', open)
    decreases Measure(depth), 2 * |xs| + 4
  {
    if xs == [] {
      f' := f;
    } else {
      var first, rest := WriteAllCons(heap, seen, nextid, xs, depth, w);
      OccursSplit(data, at, first.bytes, rest.bytes);
      var f1 := RoundOne(heap, seen, nextid, xs[0], depth, first, data, at, st, f, open);
      f' := RoundRest(heap, xs, depth, first, rest, data, at, st, f, f1, open);
      BackCons(heap, first, rest, xs, data, at, st, depth, f, f1, f', open);
    }
  }

  lemma {:induction false} RoundRest(heap: Heap, xs: seq<Value>, depth: nat, first: Written, rest: Written,
                                     data: seq<Byte>, at: nat,
                                    st: ReadState, f: Renaming, f1: Renaming, open: set<nat>) returns (f': Renaming)
    requires GoodHeap(heap) && xs != [] && AllGood(heap, xs[1..])
    requires ReadsBack(heap, first, xs[0], data, at, st, depth, f, f1, open)
    requires WriteAll(heap, first.seen, first.nextid, xs[1..], depth) == Some(rest) && rest.nextid <= INT32_LIMIT
    requires Occurs(data, at + |first.bytes|, rest.bytes)
    ensures ReadsAllBack(heap, rest, xs[1..], data, at + |first.bytes|, ReadOne(data, at, st, depth).value.state,
            depth, f1, f', open)
    decreases Measure(depth), 2 * |xs| + 3
  {
    f' := RoundAll(heap, first.seen, first.nextid, xs[1..], depth, rest, data, at + |first.bytes|,
                   ReadOne(data, at, st, depth).value.state, f1, open);
  }

  lemma BackCons(heap: Heap, first: Written, rest: Written, xs: seq<Value>, data: seq<Byte>, at: nat, st: ReadState,
                 depth: nat, f: Renaming, f1: Renaming, f': Renaming, open: set<nat>)
    requires xs != [] && ReadsBack(heap, first, xs[0], data, at, st, depth, f, f1, open)
    requires ReadsAllBack(heap, rest, xs[1..], data, at + |first.bytes|, ReadOne(data, at, st, depth).value.state,
             depth, f1, f', open)
    ensures ReadsAllBack(heap, rest.(bytes := first.bytes + rest.bytes), xs, data, at, st, depth, f, f', open)
  {
    YieldsCons(data, at, st, depth, xs, f1, f', |first.bytes|, |rest.bytes|);
  }

  /** The result of unmarshalling is the marshalled graph under other identities: the same shape,
      contents and sharing. */
  ghost predicate SameGraph(heap: Heap, x: Value, heap': Heap, x': Value, f: Renaming) {
    && Injective(f) && Covers(f, x) && x' == Rename(f, x)
    && forall a <- f :: a in heap && f[a] in heap' && CoversObject(f, heap[a])
         && heap'[f[a]] == RenameObject(f, heap[a])
  }

  /** Marshalling a graph and unmarshalling the bytes, whatever follows them, gives the same graph
      and stops exactly at the end of the bytes; no length check or reference fails on the way.
      The numbers of referable values are assumed to fit 32 bits. */
  lemma MarshalRoundTrip(heap: Heap, x: Value, w: Written, after: seq<Byte>) returns (f: Renaming)
    requires GoodHeap(heap) && Good(heap, x)
    requires WriteOne(heap, map[], 0, x, 0) == Some(w) && w.nextid <= INT32_LIMIT
    ensures var r := ReadOne(w.bytes + after, 0, ReadState([], map[], 0), 0);
            && r.Some? && r.value.next == |w.bytes|
            && SameGraph(heap, x, r.value.state.heap, r.value.value, f)
            && |r.value.state.lookup| == w.nextid
  {
    var st, data := ReadState([], map[], 0), w.bytes + after;
    assert Related(heap, map[], 0, st, map[], {});
    assert Occurs(data, 0, w.bytes);
    f := RoundOne(heap, map[], 0, x, 0, w, data, 0, st, map[], {});
    var r := ReadOne(data, 0, st, 0).value;
    assert forall a <- f :: Copied(heap, r.state, f, a);
  }
}
