/** The marshaller and unmarshaller as they run: one appends to a buffer and numbers values, the
    other moves through the bytes and fills a lookup list. */
module Marshaller {
  import opened Options
  import opened MarshInts
  import opened MarshGraph
  import opened Marsh
  import opened MarshRoundTrip

  class Writer {
    const heap: Heap
    var buf: seq<Byte>
    var seen: map<Value, nat>
    var nextid: nat

    constructor (heap: Heap)
      ensures this.heap == heap && buf == [] && seen == map[] && nextid == 0
    {
      this.heap, buf, seen, nextid := heap, [], map[], 0;
    }

    method MarkSeen(x: Value)
      modifies this`seen, this`nextid
      ensures seen == Remember(old(seen), x, old(nextid)) && nextid == old(nextid) + 1
    {
      if !NaN(x) {
        seen := seen[x := nextid];
      }
      nextid := nextid + 1;
    }

    /** Appends the encoding of x; a stack overflow is the only failure. */
    method MarshalOne(x: Value, depth: nat) returns (ok: bool)
      requires GoodHeap(heap) && Good(heap, x)
      modifies this
      ensures match WriteOne(heap, old(seen), old(nextid), x, depth)
              case None => !ok
              case Some(w) => ok && buf == old(buf) + w.bytes && seen == w.seen && nextid == w.nextid
      decreases Measure(depth), 0
    {
      if depth > RECURSION_GUARD { return false; }
      match x {
        case Nil => buf := buf + [LB_NIL]; return true;
        case Bool(b) => buf := buf + [if b then LB_TRUE else LB_FALSE]; return true;
        case Int(n) => buf := buf + IntBytes(n); return true;
        case _ =>
      }
      if x in seen {
        buf := buf + ([LB_REFERENCE] + IntBytes(Id32(seen[x])));
        return true;
      }
      if NumberedLast(x) {
        ok := MarshalImmutable(x, depth);
      } else {
        ok := MarshalNumbered(x, depth);
      }
    }

    /** A tuple or struct that has not been written before: it gets its number last. */
    method MarshalImmutable(x: Value, depth: nat) returns (ok: bool)
      requires GoodHeap(heap) && Good(heap, x) && NumberedLast(x) && x !in seen && depth <= RECURSION_GUARD
      modifies this
      ensures match WriteOne(heap, old(seen), old(nextid), x, depth)
              case None => !ok
              case Some(w) => ok && buf == old(buf) + w.bytes && seen == w.seen && nextid == w.nextid
      decreases Measure(depth), 0, 0
    {
      PartsGood(heap, x);
      ghost var w := WriteAll(heap, seen, nextid, Parts(heap, x), depth + 1);
      buf := buf + Header(heap, x);
      ok := MarshalAll(Parts(heap, x), depth + 1);
      ImmutableWritten(heap, old(seen), old(nextid), x, depth, w);
      if ok {
        Associate(old(buf), Header(heap, x), w.value.bytes);
        MarkSeen(x);
      }
    }

    /** Any other value that has not been written before: it gets its number first. */
    method MarshalNumbered(x: Value, depth: nat) returns (ok: bool)
      requires GoodHeap(heap) && Good(heap, x) && !Plain(x) && !NumberedLast(x) && x !in seen
      requires depth <= RECURSION_GUARD
      modifies this
      ensures match WriteOne(heap, old(seen), old(nextid), x, depth)
              case None => !ok
              case Some(w) => ok && buf == old(buf) + w.bytes && seen == w.seen && nextid == w.nextid
      decreases Measure(depth), 0, 0
    {
      PartsGood(heap, x);
      MarkSeen(x);
      ghost var w := WriteAll(heap, seen, nextid, Parts(heap, x), depth + 1);
      buf := buf + Header(heap, x);
      ok := MarshalAll(Parts(heap, x), depth + 1);
      if ok {
        Associate(old(buf), Header(heap, x), w.value.bytes);
      }
    }

    /** The i-th of several values: what is left to write after it is the encoding of the later ones. */
    method MarshalNext(xs: seq<Value>, i: nat, depth: nat) returns (ok: bool, ghost bytes: seq<Byte>)
      requires GoodHeap(heap) && AllGood(heap, xs) && i < |xs|
      modifies this
      ensures !ok ==> WriteAll(heap, old(seen), old(nextid), xs[i..], depth).None?
      ensures ok ==> buf == old(buf) + bytes
      ensures ok ==> (WriteAll(heap, old(seen), old(nextid), xs[i..], depth)
                   == After(bytes, WriteAll(heap, seen, nextid, xs[i + 1..], depth)))
      decreases Measure(depth), 1
    {
      WriteAllStep(heap, seen, nextid, xs, i, depth);
      ghost var w := WriteOne(heap, seen, nextid, xs[i], depth);
      ok := MarshalOne(xs[i], depth);
      bytes := if ok then w.value.bytes else [];
    }

    method MarshalAll(xs: seq<Value>, depth: nat) returns (ok: bool)
      requires GoodHeap(heap) && AllGood(heap, xs)
      modifies this
      ensures match WriteAll(heap, old(seen), old(nextid), xs, depth)
              case None => !ok
              case Some(w) => ok && buf == old(buf) + w.bytes && seen == w.seen && nextid == w.nextid
      decreases Measure(depth), |xs| + 2
    {
      ghost var done: seq<Byte> := [];
      assert xs[0..] == xs;
      ghost var all := WriteAll(heap, seen, nextid, xs, depth);
      AfterNothing(all);
      for i := 0 to |xs|
        invariant buf == old(buf) + done
        invariant all == After(done, WriteAll(heap, seen, nextid, xs[i..], depth))
      {
        ghost var bytes;
        ok, bytes := MarshalNext(xs, i, depth);
        if !ok { return; }
        AfterAfter(done, bytes, WriteAll(heap, seen, nextid, xs[i + 1..], depth));
        Associate(old(buf), done, bytes);
        done := done + bytes;
      }
      WriteAllEnd(heap, seen, nextid, xs[|xs|..], depth);
      ok := true;
    }
  }

  lemma WriteAllEnd(heap: Heap, seen: map<Value, nat>, nextid: nat, xs: seq<Value>, depth: nat)
    requires GoodHeap(heap) && AllGood(heap, xs) && xs == []
    ensures WriteAll(heap, seen, nextid, xs, depth) == Some(Written([], seen, nextid))
  {
  }

  lemma Associate(a: seq<Byte>, b: seq<Byte>, c: seq<Byte>)
    ensures a + b + c == a + (b + c)
  {
  }

  lemma ImmutableWritten(heap: Heap, seen: map<Value, nat>, nextid: nat, x: Value, depth: nat, w: Option<Written>)
    requires GoodHeap(heap) && Good(heap, x) && NumberedLast(x) && x !in seen && depth <= RECURSION_GUARD
    requires AllGood(heap, Parts(heap, x)) && w == WriteAll(heap, seen, nextid, Parts(heap, x), depth + 1)
    ensures WriteOne(heap, seen, nextid, x, depth)
         == match w
            case None => None
            case Some(v) => Some(Written(Header(heap, x) + v.bytes, Remember(v.seen, x, v.nextid), v.nextid + 1))
  {
  }

  /** The same result with bytes that were written earlier in front. */
  ghost function After(done: seq<Byte>, w: Option<Written>): Option<Written> {
    match w
    case None => None
    case Some(w) => Some(w.(bytes := done + w.bytes))
  }

  lemma WriteAllStep(heap: Heap, seen: map<Value, nat>, nextid: nat, xs: seq<Value>, i: nat, depth: nat)
    requires GoodHeap(heap) && AllGood(heap, xs) && i < |xs|
    ensures WriteAll(heap, seen, nextid, xs[i..], depth)
         == match WriteOne(heap, seen, nextid, xs[i], depth)
            case None => None
            case Some(w) => After(w.bytes, WriteAll(heap, w.seen, w.nextid, xs[i + 1..], depth))
  {
    assert xs[i..][0] == xs[i] && xs[i..][1..] == xs[i + 1..];
  }

  lemma AfterNothing(w: Option<Written>)
    ensures After([], w) == w
  {
    if w.Some? {
      assert [] + w.value.bytes == w.value.bytes;
    }
  }

  lemma AfterAfter(a: seq<Byte>, b: seq<Byte>, w: Option<Written>)
    ensures After(a, After(b, w)) == After(a + b, w)
  {
    if w.Some? {
      assert a + (b + w.value.bytes) == a + b + w.value.bytes;
    }
  }

  class Reader {
    const data: seq<Byte>
    var lookup: seq<Value>
    var heap: Heap
    var top: nat

    constructor (data: seq<Byte>)
      ensures this.data == data && State() == ReadState([], map[], 0)
    {
      this.data, lookup, heap, top := data, [], map[], 0;
    }

    function State(): ReadState
      reads this
    {
      ReadState(lookup, heap, top)
    }

    method AllocateObject(o: Object) returns (id: nat)
      modifies this
      ensures id == old(top) && State() == Allocate(old(State()), o)
    {
      id := top;
      heap, top := heap[id := o], top + 1;
      lookup := lookup + [Ref(id)];
    }

    method PushLookup(v: Value)
      modifies this`lookup
      ensures State() == Push(old(State()), v)
    {
      lookup := lookup + [v];
    }

    /** Reads n values in a row. */
    method UnmarshalAll(at: nat, n: nat, depth: nat) returns (r: Option<Parsed<seq<Value>>>)
      modifies this
      ensures match ReadAll(data, at, old(State()), n, depth)
              case None => r.None?
              case Some(s) => r == Some(Parsed(s.values, s.next)) && State() == s.state
      decreases Measure(depth), n + 1
    {
      var values, next := [], at;
      BehindNothing(ReadAll(data, at, State(), n, depth));
      for i := 0 to n
        invariant ReadAll(data, at, old(State()), n, depth)
                  == Behind(values, ReadAll(data, next, State(), n - i, depth))
      {
        var one := UnmarshalOne(next, depth);
        if one.None? { return None; }
        BehindBehind(values, one.value.value, ReadAll(data, one.value.next, State(), n - i - 1, depth));
        values, next := values + [one.value.value], one.value.next;
      }
      assert values + [] == values;
      r := Some(Parsed(values, next));
    }

    /** Reads one value; None stands for a panic. */
    method UnmarshalOne(at: nat, depth: nat) returns (r: Option<Parsed<Value>>)
      modifies this
      ensures match ReadOne(data, at, old(State()), depth)
              case None => r.None?
              case Some(s) => r == Some(Parsed(s.value, s.next)) && State() == s.state
      decreases Measure(depth), 0
    {
      if depth > RECURSION_GUARD || at >= |data| { return None; }
      var lead := data[at];
      if lead < LB_REAL {
        var n := ReadInt(data, at);
        return if n.None? then None else Some(Parsed(Int(n.value.value), n.value.next));
      }
      if lead == LB_NIL { return Some(Parsed(Nil, at + 1)); }
      if lead == LB_FALSE { return Some(Parsed(Bool(false), at + 1)); }
      if lead == LB_TRUE { return Some(Parsed(Bool(true), at + 1)); }
      if lead == LB_INTEGER {
        return if at + 4 >= |data| then None else Some(Parsed(Int(LongInt(data, at)), at + 5));
      }
      if lead == LB_REAL {
        if at + 8 >= |data| { return None; }
        PushLookup(Real(data[at + 1..at + 9]));
        return Some(Parsed(Real(data[at + 1..at + 9]), at + 9));
      }
      if TextLeads(lead) {
        r := UnmarshalText(at);
        return;
      }
      var length := ReadNat(data, at + 1);
      if length.None? { return None; }
      var len, next := length.value.value, length.value.next;
      if lead == LB_REFERENCE {
        return if len >= |lookup| then None else Some(Parsed(lookup[len], next));
      }
      if next - 1 + len >= |data| { return None; }
      r := UnmarshalComposite(lead, len, next, depth);
    }

    method UnmarshalText(at: nat) returns (r: Option<Parsed<Value>>)
      requires at < |data|
      modifies this
      ensures match ReadText(data, at, old(State()))
              case None => r.None?
              case Some(s) => r == Some(Parsed(s.value, s.next)) && State() == s.state
    {
      var lead, length := data[at], ReadNat(data, at + 1);
      if length.None? { return None; }
      var len, next := length.value.value, length.value.next;
      if next - 1 + len >= |data| { return None; }
      var text := data[next..next + len];
      if lead == LB_BUFFER {
        var id := AllocateObject(Buffer(text));
        return Some(Parsed(Ref(id), next + len));
      }
      var kind := if lead == LB_STRING then String else if lead == LB_SYMBOL then Symbol else Keyword;
      PushLookup(Text(kind, text));
      return Some(Parsed(Text(kind, text), next + len));
    }

    method UnmarshalComposite(lead: Byte, len: nat, at: nat, depth: nat) returns (r: Option<Parsed<Value>>)
      requires depth <= RECURSION_GUARD
      modifies this
      ensures match ReadComposite(data, lead, len, at, old(State()), depth)
              case None => r.None?
              case Some(s) => r == Some(Parsed(s.value, s.next)) && State() == s.state
      decreases Measure(depth), 0, 0
    {
      if lead == LB_ARRAY || lead == LB_ARRAY_WEAK {
        var id := AllocateObject(Array(lead == LB_ARRAY_WEAK, []));
        var all := UnmarshalAll(at, len, depth + 1);
        if all.None? { return None; }
        heap := heap[id := Array(lead == LB_ARRAY_WEAK, all.value.value)];
        return Some(Parsed(Ref(id), all.value.next));
      }
      if lead == LB_TUPLE {
        var flag := ReadInt(data, at);
        if flag.None? { return None; }
        var all := UnmarshalAll(flag.value.next, len, depth + 1);
        if all.None? { return None; }
        var v := Tuple(ToInt16(flag.value.value), all.value.value);
        PushLookup(v);
        return Some(Parsed(v, all.value.next));
      }
      if lead == LB_STRUCT || lead == LB_STRUCT_PROTO {
        var proto := if lead == LB_STRUCT_PROTO then 1 else 0;
        var all := UnmarshalAll(at, proto + 2 * len, depth + 1);
        if all.None? { return None; }
        var values := all.value.value;
        if proto == 1 && !values[0].Struct? { return None; }
        var v := Struct(if proto == 1 then Some(values[0]) else None, PutAll([], values[proto..], true));
        PushLookup(v);
        return Some(Parsed(v, all.value.next));
      }
      var kind := TableOf(lead);
      if kind.None? { return None; }
      var (weakness, hasProto) := kind.value;
      var proto := if hasProto then 1 else 0;
      var id := AllocateObject(Table(weakness, None, []));
      var all := UnmarshalAll(at, proto + 2 * len, depth + 1);
      if all.None? { return None; }
      var values := all.value.value;
      if hasProto && !IsTable(heap, values[0]) { return None; }
      heap := heap[id := Table(weakness, if hasProto then Some(values[0].id) else None,
        PutAll([], values[proto..], false))];
      return Some(Parsed(Ref(id), all.value.next));
    }
  }

  /** The same result with values that were read earlier in front. */
  ghost function Behind(values: seq<Value>, r: Option<ReadAllResult>): Option<ReadAllResult> {
    match r
    case None => None
    case Some(r) => Some(r.(values := values + r.values))
  }

  lemma BehindNothing(r: Option<ReadAllResult>)
    ensures Behind([], r) == r
  {
    if r.Some? {
      assert [] + r.value.values == r.value.values;
    }
  }

  lemma BehindBehind(values: seq<Value>, v: Value, r: Option<ReadAllResult>)
    ensures Behind(values, Behind([v], r)) == Behind(values + [v], r)
  {
    if r.Some? {
      assert values + ([v] + r.value.values) == values + [v] + r.value.values;
    }
  }

  /** A value goes into bytes and comes back out of them as the same graph. */
  method CopyThroughBytes(heap: Heap, x: Value) returns (ok: bool, heap': Heap, x': Value, ghost f: Renaming)
    requires GoodHeap(heap) && Good(heap, x)
    ensures ok <==> WriteOne(heap, map[], 0, x, 0).Some? && WriteOne(heap, map[], 0, x, 0).value.nextid <= INT32_LIMIT
    ensures ok ==> SameGraph(heap, x, heap', x', f)
  {
    heap', x', f := heap, x, map[];
    var writer := new Writer(heap);
    ok := writer.MarshalOne(x, 0);
    if !ok || writer.nextid > INT32_LIMIT { return false, heap', x', f; }
    ghost var w := WriteOne(heap, map[], 0, x, 0).value;
    f := MarshalRoundTrip(heap, x, w, []);
    assert w.bytes + [] == w.bytes == [] + w.bytes == writer.buf;
    var reader := new Reader(writer.buf);
    var r := reader.UnmarshalOne(0, 0);
    heap', x' := reader.heap, r.value.value;
  }
}
