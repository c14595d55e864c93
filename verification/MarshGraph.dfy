/** The value graphs that are marshalled, and what it means for a copy to be the same graph. */
module MarshGraph {
  import opened Options
  import opened MarshInts

  datatype TextKind = String | Symbol | Keyword
  datatype Weakness = Strong | WeakKeys | WeakValues | WeakBoth

  datatype Entry = Entry(key: Value, value: Value)

  /** Immutable values are compared by content; arrays, tables and buffers have an identity. */
  datatype Value =
    | Nil
    | Bool(b: bool)
    | Int(n: Int32)
    | Real(raw: seq<Byte>) // a number that is not a 32-bit integer, as its eight bytes
    | Text(kind: TextKind, text: seq<Byte>)
    | Tuple(flag: Int16, items: seq<Value>)
    | Struct(proto: Option<Value>, entries: seq<Entry>) // entries in slot order
    | Ref(id: nat)

  datatype Object =
    | Array(weak: bool, elements: seq<Value>)
    | Table(weakness: Weakness, parent: Option<nat>, pairs: seq<Entry>)
    | Buffer(content: seq<Byte>)

  type Heap = map<nat, Object>

  const INT32_LIMIT := 0x8000_0000

  /** Exponent all ones and mantissa not zero, in little-endian order. */
  predicate IsNaN(raw: seq<Byte>) {
    |raw| == 8 && raw[7] % 128 == 127 && raw[6] >= 0xF0 &&
    (raw[6] != 0xF0 || raw[5] != 0 || raw[4] != 0 || raw[3] != 0 || raw[2] != 0 || raw[1] != 0 || raw[0] != 0)
  }

  predicate NaN(v: Value) {
    v.Real? && IsNaN(v.raw)
  }

  // Well-formed graphs

  /** Keys that can be keys and are there once, and values that are there. */
  ghost predicate GoodEntries(entries: seq<Entry>) {
    && |entries| < INT32_LIMIT
    && (forall i :: 0 <= i < |entries| ==> !entries[i].key.Nil? && !NaN(entries[i].key) && !entries[i].value.Nil?)
    && (forall i, j :: 0 <= i < j < |entries| ==> entries[i].key != entries[j].key)
  }

  ghost predicate Good(heap: Heap, v: Value) {
    match v
    case Real(raw) => |raw| == 8
    case Text(_, text) => |text| < INT32_LIMIT
    case Tuple(_, items) => |items| < INT32_LIMIT && forall i :: 0 <= i < |items| ==> Good(heap, items[i])
    case Struct(proto, entries) =>
      && (proto.Some? ==> proto.value.Struct? && Good(heap, proto.value))
      && GoodEntries(entries)
      && (forall i :: 0 <= i < |entries| ==> Good(heap, entries[i].key) && Good(heap, entries[i].value))
    case Ref(id) => id in heap
    case _ => true
  }

  ghost predicate GoodObject(heap: Heap, o: Object) {
    match o
    case Array(_, elements) => |elements| < INT32_LIMIT && forall i :: 0 <= i < |elements| ==> Good(heap, elements[i])
    case Table(_, parent, pairs) =>
      && (parent.Some? ==> parent.value in heap && heap[parent.value].Table?)
      && GoodEntries(pairs)
      && (forall i :: 0 <= i < |pairs| ==> Good(heap, pairs[i].key) && Good(heap, pairs[i].value))
    case Buffer(content) => |content| < INT32_LIMIT
  }

  ghost predicate GoodHeap(heap: Heap) {
    forall id {:trigger GoodObject(heap, heap[id])} :: id in heap ==> GoodObject(heap, heap[id])
  }

  // Renaming of identities

  type Renaming = map<nat, nat>

  ghost function Rename(f: Renaming, v: Value): (r: Value)
    ensures r.Nil? == v.Nil? && r.Struct? == v.Struct? && (v.Real? || r.Real? ==> r == v)
  {
    match v
    case Tuple(flag, items) => Tuple(flag, seq(|items|, i requires 0 <= i < |items| => Rename(f, items[i])))
    case Struct(proto, entries) =>
      Struct(match proto case None => None case Some(p) => Some(Rename(f, p)),
             seq(|entries|, i requires 0 <= i < |entries| =>
               Entry(Rename(f, entries[i].key), Rename(f, entries[i].value))))
    case Ref(id) => if id in f then Ref(f[id]) else v
    case _ => v
  }

  ghost function RenameAll(f: Renaming, vs: seq<Value>): (r: seq<Value>)
    ensures |r| == |vs|
  {
    seq(|vs|, i requires 0 <= i < |vs| => Rename(f, vs[i]))
  }

  ghost function RenameEntries(f: Renaming, es: seq<Entry>): (r: seq<Entry>)
    ensures |r| == |es|
  {
    seq(|es|, i requires 0 <= i < |es| => Entry(Rename(f, es[i].key), Rename(f, es[i].value)))
  }

  ghost function RenameObject(f: Renaming, o: Object): Object {
    match o
    case Array(weak, elements) => Array(weak, RenameAll(f, elements))
    case Table(weakness, parent, pairs) =>
      Table(weakness, if parent.Some?
        && parent.value in f then Some(f[parent.value]) else parent, RenameEntries(f, pairs))
    case Buffer(_) => o
  }

  /** Every identity in v is renamed by f. */
  ghost predicate Covers(f: Renaming, v: Value) {
    match v
    case Tuple(_, items) => forall i :: 0 <= i < |items| ==> Covers(f, items[i])
    case Struct(proto, entries) =>
      && (proto.Some? ==> Covers(f, proto.value))
      && forall i :: 0 <= i < |entries| ==> Covers(f, entries[i].key) && Covers(f, entries[i].value)
    case Ref(id) => id in f
    case _ => true
  }

  ghost predicate CoversAll(f: Renaming, vs: seq<Value>) {
    forall i :: 0 <= i < |vs| ==> Covers(f, vs[i])
  }

  ghost predicate Injective(f: Renaming) {
    forall a <- f, b <- f :: f[a] == f[b] ==> a == b
  }

  ghost predicate Extends(f: Renaming, f': Renaming) {
    forall a <- f :: a in f' && f'[a] == f[a]
  }

  lemma {:induction false} RenameExtends(f: Renaming, f': Renaming, v: Value)
    requires Covers(f, v) && Extends(f, f')
    ensures Covers(f', v) && Rename(f', v) == Rename(f, v)
  {
    match v
    case Tuple(_, items) =>
      forall i | 0 <= i < |items|
        ensures Covers(f', items[i]) && Rename(f', items[i]) == Rename(f, items[i])
      {
        RenameExtends(f, f', items[i]);
      }
    case Struct(proto, entries) =>
      if proto.Some? {
        RenameExtends(f, f', proto.value);
      }
      forall i | 0 <= i < |entries|
        ensures Covers(f', entries[i].key) && Rename(f', entries[i].key) == Rename(f, entries[i].key)
        ensures Covers(f', entries[i].value) && Rename(f', entries[i].value) == Rename(f, entries[i].value)
      {
        RenameExtends(f, f', entries[i].key);
        RenameExtends(f, f', entries[i].value);
      }
    case _ =>
  }

  /** Renaming keeps values apart. */
  lemma {:induction false} RenameInjective(f: Renaming, u: Value, v: Value)
    requires Injective(f) && Covers(f, u) && Covers(f, v) && Rename(f, u) == Rename(f, v)
    ensures u == v
  {
    match u
    case Tuple(_, items) =>
      var r := Rename(f, u);
      assert v.Tuple? && |v.items| == |items|;
      forall i | 0 <= i < |items|
        ensures items[i] == v.items[i]
      {
        assert Rename(f, items[i]) == r.items[i] == Rename(f, v.items[i]);
        RenameInjective(f, items[i], v.items[i]);
      }
    case Struct(proto, entries) =>
      var r := Rename(f, u);
      assert v.Struct? && |v.entries| == |entries|;
      if proto.Some? {
        RenameInjective(f, proto.value, v.proto.value);
      }
      forall i | 0 <= i < |entries|
        ensures entries[i] == v.entries[i]
      {
        assert r.entries[i] == Entry(Rename(f, entries[i].key), Rename(f, entries[i].value));
        assert r.entries[i] == Entry(Rename(f, v.entries[i].key), Rename(f, v.entries[i].value));
        RenameInjective(f, entries[i].key, v.entries[i].key);
        RenameInjective(f, entries[i].value, v.entries[i].value);
      }
    case _ =>
  }
}
