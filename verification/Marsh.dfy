/** The marshalling format: what the writer emits for a value and what the reader makes of it. */
module Marsh {
  import opened Options
  import opened MarshInts
  import opened MarshGraph

  const RECURSION_GUARD := 1024

  // Lead bytes
  const LB_REAL: Byte := 200
  const LB_NIL: Byte := 201
  const LB_FALSE: Byte := 202
  const LB_TRUE: Byte := 203
  const LB_STRING: Byte := 206
  const LB_SYMBOL: Byte := 207
  const LB_KEYWORD: Byte := 208
  const LB_ARRAY: Byte := 209
  const LB_TUPLE: Byte := 210
  const LB_TABLE: Byte := 211
  const LB_TABLE_PROTO: Byte := 212
  const LB_STRUCT: Byte := 213
  const LB_BUFFER: Byte := 214
  const LB_REFERENCE: Byte := 218
  const LB_STRUCT_PROTO: Byte := 223
  const LB_TABLE_WEAKK: Byte := 226
  const LB_TABLE_WEAKV: Byte := 227
  const LB_TABLE_WEAKKV: Byte := 228
  const LB_TABLE_WEAKK_PROTO: Byte := 229
  const LB_TABLE_WEAKV_PROTO: Byte := 230
  const LB_TABLE_WEAKKV_PROTO: Byte := 231
  const LB_ARRAY_WEAK: Byte := 232

  function TextLead(kind: TextKind): Byte {
    match kind
    case String => LB_STRING
    case Symbol => LB_SYMBOL
    case Keyword => LB_KEYWORD
  }

  function TableLead(weakness: Weakness, proto: bool): Byte {
    match weakness
    case Strong => if proto then LB_TABLE_PROTO else LB_TABLE
    case WeakKeys => if proto then LB_TABLE_WEAKK_PROTO else LB_TABLE_WEAKK
    case WeakValues => if proto then LB_TABLE_WEAKV_PROTO else LB_TABLE_WEAKV
    case WeakBoth => if proto then LB_TABLE_WEAKKV_PROTO else LB_TABLE_WEAKKV
  }

  // Writing

  function Flatten(entries: seq<Entry>): (r: seq<Value>)
    ensures |r| == 2 * |entries|
  {
    if entries == [] then [] else [entries[0].key, entries[0].value] + Flatten(entries[1..])
  }

  /** Everything written for a composite value before its parts. */
  function Header(heap: Heap, x: Value): (r: seq<Byte>)
    requires GoodHeap(heap) && Good(heap, x)
    ensures |r| >= 1
  {
    match x
    case Real(raw) => [LB_REAL] + raw
    case Text(kind, text) => [TextLead(kind)] + IntBytes(|text|) + text
    case Tuple(flag, items) => [LB_TUPLE] + IntBytes(|items|) + IntBytes(flag)
    case Struct(proto, entries) => [if proto.Some? then LB_STRUCT_PROTO else LB_STRUCT] + IntBytes(|entries|)
    case Ref(id) => ObjectHeader(heap, heap[id])
    case _ => [LB_NIL]
  }

  function ObjectHeader(heap: Heap, o: Object): (r: seq<Byte>)
    requires GoodObject(heap, o)
    ensures |r| >= 1
  {
    match o
    case Array(weak, elements) => [if weak then LB_ARRAY_WEAK else LB_ARRAY] + IntBytes(|elements|)
    case Table(weakness, parent, pairs) => [TableLead(weakness, parent.Some?)] + IntBytes(|pairs|)
    case Buffer(content) => [LB_BUFFER] + IntBytes(|content|) + content
  }

  /** The parts of a composite value, in the order they are written. */
  function Parts(heap: Heap, x: Value): seq<Value>
    requires Good(heap, x)
  {
    match x
    case Tuple(_, items) => items
    case Struct(proto, entries) => (if proto.Some? then [proto.value] else []) + Flatten(entries)
    case Ref(id) => ObjectParts(heap[id])
    case _ => []
  }

  function ObjectParts(o: Object): seq<Value> {
    match o
    case Array(_, elements) => elements
    case Table(_, parent, pairs) => (if parent.Some? then [Ref(parent.value)] else []) + Flatten(pairs)
    case Buffer(_) => []
  }

  /** Values too small to be worth a reference. */
  predicate Plain(x: Value) {
    x.Nil? || x.Bool? || x.Int?
  }

  function PlainBytes(x: Value): (r: seq<Byte>)
    requires Plain(x)
    ensures |r| >= 1
  {
    match x
    case Bool(b) => [if b then LB_TRUE else LB_FALSE]
    case Int(n) => IntBytes(n)
    case _ => [LB_NIL]
  }

  /** A tuple or struct gets its number after its parts, everything else before. */
  predicate NumberedLast(x: Value) {
    x.Tuple? || x.Struct?
  }

  /** The numbers given out so far; a value that is not equal to itself cannot be looked up. */
  function Remember(seen: map<Value, nat>, x: Value, id: nat): map<Value, nat> {
    if NaN(x) then seen else seen[x := id]
  }

  /** A reference number as the 32-bit integer it is stored in. */
  function Id32(n: nat): Int32 {
    FromWord(n % 0x1_0000_0000)
  }

  datatype Written = Written(bytes: seq<Byte>, seen: map<Value, nat>, nextid: nat)

  function Measure(depth: nat): nat {
    if depth <= RECURSION_GUARD then RECURSION_GUARD + 1 - depth else 0
  }

  /** What marshal_one appends for x and what it then remembers; None is a stack overflow. */
  function WriteOne(heap: Heap, seen: map<Value, nat>, nextid: nat, x: Value, depth: nat): (w: Option<Written>)
    requires GoodHeap(heap) && Good(heap, x)
    ensures w.Some? ==> |w.value.bytes| >= 1 && w.value.nextid >= nextid
    decreases Measure(depth), 0
  {
    if depth > RECURSION_GUARD then None
    else if Plain(x) then Some(Written(PlainBytes(x), seen, nextid))
    else if x in seen then Some(Written([LB_REFERENCE] + IntBytes(Id32(seen[x])), seen, nextid))
    else if NumberedLast(x) then
      PartsGood(heap, x);
      match WriteAll(heap, seen, nextid, Parts(heap, x), depth + 1)
      case None => None
      case Some(w) => Some(Written(Header(heap, x) + w.bytes, Remember(w.seen, x, w.nextid), w.nextid + 1))
    else
      PartsGood(heap, x);
      match WriteAll(heap, Remember(seen, x, nextid), nextid + 1, Parts(heap, x), depth + 1)
      case None => None
      case Some(w) => Some(w.(bytes := Header(heap, x) + w.bytes))
  }

  function WriteAll(heap: Heap, seen: map<Value, nat>, nextid: nat, xs: seq<Value>, depth: nat): (w: Option<Written>)
    requires GoodHeap(heap) && AllGood(heap, xs)
    ensures w.Some? ==> |w.value.bytes| >= |xs| && w.value.nextid >= nextid
    decreases Measure(depth), |xs| + 1
  {
    if xs == [] then Some(Written([], seen, nextid))
    else
      match WriteOne(heap, seen, nextid, xs[0], depth)
      case None => None
      case Some(w) =>
        match WriteAll(heap, w.seen, w.nextid, xs[1..], depth)
        case None => None
        case Some(w') => Some(w'.(bytes := w.bytes + w'.bytes))
  }

  ghost predicate AllGood(heap: Heap, xs: seq<Value>) {
    forall i :: 0 <= i < |xs| ==> Good(heap, xs[i])
  }

  lemma {:induction false} FlattenGood(heap: Heap, entries: seq<Entry>)
    requires forall i :: 0 <= i < |entries| ==> Good(heap, entries[i].key) && Good(heap, entries[i].value)
    ensures AllGood(heap, Flatten(entries))
  {
    if entries != [] {
      FlattenGood(heap, entries[1..]);
    }
  }

  lemma PartsGood(heap: Heap, x: Value)
    requires GoodHeap(heap) && Good(heap, x)
    ensures AllGood(heap, Parts(heap, x))
  {
    match x
    case Struct(_, entries) => FlattenGood(heap, entries);
    case Ref(id) =>
      assert GoodObject(heap, heap[id]);
      if heap[id].Table? {
        FlattenGood(heap, heap[id].pairs);
      }
    case _ =>
  }

  // Reading

  /** Objects made so far, under numbers below top, and the values that references denote. */
  datatype ReadState = ReadState(lookup: seq<Value>, heap: Heap, top: nat)

  datatype ReadOneResult = ReadOneResult(value: Value, next: nat, state: ReadState)
  datatype ReadAllResult = ReadAllResult(values: seq<Value>, next: nat, state: ReadState)

  function Index(entries: seq<Entry>, key: Value): (i: nat)
    ensures i <= |entries| && (i < |entries| ==> entries[i].key == key)
    ensures forall j :: 0 <= j < i ==> entries[j].key != key
  {
    if entries == [] || entries[0].key == key then 0 else 1 + Index(entries[1..], key)
  }

  /** janet_table_put: a nil or NaN key is ignored and a nil value removes the key. */
  function TablePut(entries: seq<Entry>, key: Value, value: Value): seq<Entry> {
    var i := Index(entries, key);
    if key.Nil? || NaN(key) then entries
    else if value.Nil? then entries[..i] + if i < |entries| then entries[i + 1..] else []
    else if i < |entries| then entries[i := Entry(key, value)]
    else entries + [Entry(key, value)]
  }

  /** janet_struct_put: a nil or NaN key and a nil value are ignored. */
  function StructPut(entries: seq<Entry>, key: Value, value: Value): seq<Entry> {
    if value.Nil? then entries else TablePut(entries, key, value)
  }

  function PutAll(entries: seq<Entry>, values: seq<Value>, isStruct: bool): seq<Entry>
    decreases |values|
  {
    if |values| < 2 then entries
    else
      var put := if isStruct then StructPut(entries, values[0], values[1]) else TablePut(entries, values[0], values[1]);
      PutAll(put, values[2..], isStruct)
  }

  function ToInt16(n: Int32): Int16 {
    var u := n % 0x1_0000;
    if u < 0x8000 then u else u - 0x1_0000
  }

  predicate TextLeads(lead: Byte) {
    lead == LB_STRING || lead == LB_SYMBOL || lead == LB_KEYWORD || lead == LB_BUFFER
  }

  function TableOf(lead: Byte): Option<(Weakness, bool)> {
    if lead == LB_TABLE then Some((Strong, false))
    else if lead == LB_TABLE_PROTO then Some((Strong, true))
    else if lead == LB_TABLE_WEAKK then Some((WeakKeys, false))
    else if lead == LB_TABLE_WEAKK_PROTO then Some((WeakKeys, true))
    else if lead == LB_TABLE_WEAKV then Some((WeakValues, false))
    else if lead == LB_TABLE_WEAKV_PROTO then Some((WeakValues, true))
    else if lead == LB_TABLE_WEAKKV then Some((WeakBoth, false))
    else if lead == LB_TABLE_WEAKKV_PROTO then Some((WeakBoth, true))
    else None
  }

  /** A state with a new object, and a reference to it as the next lookup entry. */
  function Allocate(st: ReadState, o: Object): ReadState {
    ReadState(st.lookup + [Ref(st.top)], st.heap[st.top := o], st.top + 1)
  }

  function Push(st: ReadState, v: Value): ReadState {
    st.(lookup := st.lookup + [v])
  }

  function ReadText(data: seq<Byte>, at: nat, st: ReadState): Option<ReadOneResult>
    requires at < |data|
  {
    match ReadNat(data, at + 1)
    case None => None
    case Some(Parsed(len, next)) =>
      if next - 1 + len >= |data| then None
      else
        var text := data[next..next + len];
        var lead := data[at];
        if lead == LB_BUFFER then Some(ReadOneResult(Ref(st.top), next + len, Allocate(st, Buffer(text))))
        else
          var kind := if lead == LB_STRING then String else if lead == LB_SYMBOL then Symbol else Keyword;
          Some(ReadOneResult(Text(kind, text), next + len, Push(st, Text(kind, text))))
  }

  /** What unmarshal_one makes of the input; None stands for its panics. Lead bytes of functions,
      fibers, abstracts, registry values and raw pointers are not part of the model. */
  function ReadOne(data: seq<Byte>, at: nat, st: ReadState, depth: nat): Option<ReadOneResult>
    decreases Measure(depth), 0
  {
    if depth > RECURSION_GUARD || at >= |data| then None
    else
      var lead := data[at];
      if lead < LB_REAL then
        match ReadInt(data, at)
        case None => None
        case Some(Parsed(n, next)) => Some(ReadOneResult(Int(n), next, st))
      else if lead == LB_NIL then Some(ReadOneResult(Nil, at + 1, st))
      else if lead == LB_FALSE then Some(ReadOneResult(Bool(false), at + 1, st))
      else if lead == LB_TRUE then Some(ReadOneResult(Bool(true), at + 1, st))
      else if lead == LB_INTEGER then
        if at + 4 >= |data| then None else Some(ReadOneResult(Int(LongInt(data, at)), at + 5, st))
      else if lead == LB_REAL then
        if at + 8 >= |data| then None
        else var v := Real(data[at + 1..at + 9]); Some(ReadOneResult(v, at + 9, Push(st, v)))
      else if TextLeads(lead) then ReadText(data, at, st)
      else
        match ReadNat(data, at + 1)
        case None => None
        case Some(Parsed(len, next)) =>
          if lead == LB_REFERENCE then
            if len >= |st.lookup| then None else Some(ReadOneResult(st.lookup[len], next, st))
          else if next - 1 + len >= |data| then None
          else ReadComposite(data, lead, len, next, st, depth)
  }

  function ReadComposite(data: seq<Byte>, lead: Byte, len: nat, at: nat, st: ReadState,
                         depth: nat): Option<ReadOneResult>
    requires depth <= RECURSION_GUARD
    decreases Measure(depth), 0, 0
  {
    if lead == LB_ARRAY || lead == LB_ARRAY_WEAK then
      var weak := lead == LB_ARRAY_WEAK;
      match ReadAll(data, at, Allocate(st, Array(weak, [])), len, depth + 1)
      case None => None
      case Some(r) => Some(ReadOneResult(Ref(st.top), r.next, Fill(r.state, st.top, Array(weak, r.values))))
    else if lead == LB_TUPLE then
      match ReadInt(data, at)
      case None => None
      case Some(Parsed(flag, next)) =>
        match ReadAll(data, next, st, len, depth + 1)
        case None => None
        case Some(r) =>
          var v := Tuple(ToInt16(flag), r.values);
          Some(ReadOneResult(v, r.next, Push(r.state, v)))
    else if lead == LB_STRUCT || lead == LB_STRUCT_PROTO then
      var proto := if lead == LB_STRUCT_PROTO then 1 else 0;
      match ReadAll(data, at, st, proto + 2 * len, depth + 1)
      case None => None
      case Some(r) =>
        if |r.values| < proto || (proto == 1 && !r.values[0].Struct?) then None
        else
          var v := Struct(if proto == 1 then Some(r.values[0]) else None, PutAll([], r.values[proto..], true));
          Some(ReadOneResult(v, r.next, Push(r.state, v)))
    else
      match TableOf(lead)
      case None => None
      case Some((weakness, hasProto)) =>
        var proto := if hasProto then 1 else 0;
        match ReadAll(data, at, Allocate(st, Table(weakness, None, [])), proto + 2 * len, depth + 1)
        case None => None
        case Some(r) =>
          if |r.values| < proto || (hasProto && !IsTable(r.state.heap, r.values[0])) then None
          else
            var table := Table(weakness, if hasProto then Some(r.values[0].id) else None,
              PutAll([], r.values[proto..], false));
            Some(ReadOneResult(Ref(st.top), r.next, Fill(r.state, st.top, table)))
  }

  predicate IsTable(heap: Heap, v: Value) {
    v.Ref? && v.id in heap && heap[v.id].Table?
  }

  function Fill(st: ReadState, id: nat, o: Object): ReadState {
    st.(heap := st.heap[id := o])
  }

  function ReadAll(data: seq<Byte>, at: nat, st: ReadState, n: nat, depth: nat): (r: Option<ReadAllResult>)
    ensures r.Some? ==> |r.value.values| == n
    decreases Measure(depth), n + 1
  {
    if n == 0 then Some(ReadAllResult([], at, st))
    else
      match ReadOne(data, at, st, depth)
      case None => None
      case Some(one) =>
        match ReadAll(data, one.next, one.state, n - 1, depth)
        case None => None
        case Some(rest) => Some(rest.(values := [one.value] + rest.values))
  }
}
