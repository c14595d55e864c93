/** The bytes themselves: what the format looks like from outside, byte by byte. */
module MarshFormat {
  import opened Options
  import opened MarshInts
  import opened MarshGraph
  import opened Marsh
  import opened MarshRoundTrip

  /** Small numbers are one byte; numbers of 14 bits are two, the first one marked by its top bits; all others are
      a mark and four bytes, most significant first. Negative numbers are in two's complement. */
  lemma IntFormat(x: Int32)
    ensures var b := IntBytes(x);
            if 0 <= x < 128 then b == [x]
            else if -8192 <= x < 8192 then
              |b| == 2 && 128 <= b[0] < 192
                && (b[0] as int - 128) * 256 + b[1] as int == if x < 0 then x as int + 16384 else x as int
            else
              |b| == 5 && b[0] == 205
                && ((b[1] as int * 256 + b[2] as int) * 256 + b[3] as int) * 256 + b[4] as int
                   == if x < 0 then x as int + 0x1_0000_0000 else x as int
  {
    if !(-8192 <= x < 8192) {
      LongIntBytes(x);
    }
  }

  lemma {:induction false} LastByte(x: nat, n: nat)
    requires 0 < x < Pow256(n)
    ensures var b := LittleEndian(x, n); b[0] as int == x % 256 && b[|b| - 1] != 0
  {
    if x >= 256 {
      LastByte(x / 256, n - 1);
    }
  }

  /** Sizes up to 240 are one byte; larger ones are a count and as many bytes, least significant first and without
      zeros at the end. */
  lemma SizeFormat(x: UInt64)
    ensures var b := SizeBytes(x);
            if x <= 240 then b == [x]
            else
              && 2 <= |b| <= 9 && b[0] as int == 240 + |b| - 1
              && b[1] as int == x % 256 && b[|b| - 1] != 0
  {
    Pow256Eight();
    if x > 240 {
      LastByte(x, 8);
    }
  }

  /** The first byte of each kind of value. */
  function LeadByte(heap: Heap, x: Value): nat
    requires x.Ref? ==> x.id in heap
  {
    match x
    case Nil => 201
    case Bool(b) => if b then 203 else 202
    case Int(n) => IntBytes(n)[0]
    case Real(_) => 200
    case Text(String, _) => 206
    case Text(Symbol, _) => 207
    case Text(Keyword, _) => 208
    case Tuple(_, _) => 210
    case Struct(proto, _) => if proto.Some? then 223 else 213
    case Ref(id) =>
      match heap[id]
      case Array(weak, _) => if weak then 232 else 209
      case Buffer(_) => 214
      case Table(Strong, parent, _) => if parent.Some? then 212 else 211
      case Table(WeakKeys, parent, _) => if parent.Some? then 229 else 226
      case Table(WeakValues, parent, _) => if parent.Some? then 230 else 227
      case Table(WeakBoth, parent, _) => if parent.Some? then 231 else 228
  }

  /** How many bytes, items or pairs a value has. */
  function Size(heap: Heap, x: Value): Option<nat>
    requires x.Ref? ==> x.id in heap
  {
    match x
    case Text(_, text) => Some(|text|)
    case Tuple(_, items) => Some(|items|)
    case Struct(_, entries) => Some(|entries|)
    case Ref(id) =>
      (match heap[id]
       case Array(_, elements) => Some(|elements|)
       case Buffer(content) => Some(|content|)
       case Table(_, _, pairs) => Some(|pairs|))
    case _ => None
  }

  ghost predicate Begins(bytes: seq<Byte>, lead: seq<Byte>) {
    |lead| <= |bytes| && bytes[..|lead|] == lead
  }

  /** Written for the first time, a value begins with the byte of its kind and then its size, if it has one;
      written again, it is a back reference. */
  lemma Leads(heap: Heap, seen: map<Value, nat>, nextid: nat, x: Value, depth: nat, w: Written)
    requires GoodHeap(heap) && Good(heap, x) && WriteOne(heap, seen, nextid, x, depth) == Some(w)
    ensures if x in seen && !Plain(x) then Begins(w.bytes, [218])
            else
              && w.bytes[0] as nat == LeadByte(heap, x)
              && (Size(heap, x).Some? ==>
                   Size(heap, x).value < INT32_LIMIT
                     && Begins(w.bytes, [w.bytes[0]] + IntBytes(Size(heap, x).value)))
  {
    if !Plain(x) && x !in seen {
      assert Begins(Header(heap, x), [Header(heap, x)[0]]);
      HeaderLeads(heap, x);
    }
  }

  lemma HeaderLeads(heap: Heap, x: Value)
    requires GoodHeap(heap) && Good(heap, x) && !Plain(x)
    ensures Header(heap, x)[0] as nat == LeadByte(heap, x)
    ensures Size(heap, x).Some? ==>
            Size(heap, x).value < INT32_LIMIT
              && Begins(Header(heap, x), [Header(heap, x)[0]] + IntBytes(Size(heap, x).value))
  {
    if x.Ref? {
      assert GoodObject(heap, heap[x.id]);
    }
  }

  /** Parts in order: the prototype first, then each key with its value. */
  ghost predicate InOrder(parts: seq<Value>, proto: Option<Value>, entries: seq<Entry>) {
    var first := if proto.Some? then 1 else 0;
    && |parts| == first + 2 * |entries| && (proto.Some? ==> parts[0] == proto.value)
    && forall i :: 0 <= i < |entries| ==>
         parts[first + 2 * i] == entries[i].key && parts[first + 2 * i + 1] == entries[i].value
  }

  lemma FlatInOrder(proto: Option<Value>, entries: seq<Entry>)
    ensures InOrder((if proto.Some? then [proto.value] else []) + Flatten(entries), proto, entries)
  {
    var flat, first := Flatten(entries), if proto.Some? then 1 else 0;
    var parts := (if proto.Some? then [proto.value] else []) + flat;
    forall i | 0 <= i < |entries|
      ensures parts[first + 2 * i] == entries[i].key && parts[first + 2 * i + 1] == entries[i].value
    {
      FlattenAt(entries, i);
      assert parts[first + 2 * i] == flat[2 * i] && parts[first + 2 * i + 1] == flat[2 * i + 1];
    }
  }

  lemma PartsOrder(heap: Heap, x: Value)
    requires Good(heap, x)
    ensures x.Struct? ==> InOrder(Parts(heap, x), x.proto, x.entries)
    ensures x.Ref? && heap[x.id].Table? ==>
            var table := heap[x.id];
            InOrder(Parts(heap, x), if table.parent.Some? then Some(Ref(table.parent.value)) else None, table.pairs)
    ensures x.Tuple? ==> Parts(heap, x) == x.items
    ensures x.Ref? && heap[x.id].Array? ==> Parts(heap, x) == heap[x.id].elements
  {
    if x.Struct? {
      FlatInOrder(x.proto, x.entries);
    } else if x.Ref? && heap[x.id].Table? {
      var table := heap[x.id];
      FlatInOrder(if table.parent.Some? then Some(Ref(table.parent.value)) else None, table.pairs);
    }
  }
}
