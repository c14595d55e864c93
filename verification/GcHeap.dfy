/** The garbage-collected heap: what each kind of block refers to, and reachability. */
module GcHeap {
  import opened Options

  type Ref = nat

  /** Values other than pointers to blocks do not matter to the collector, except the two it
      writes when it drops a weak reference. */
  datatype Value = Nil | False | Plain(n: int) | Pointer(ref: Ref)

  datatype Entry = Entry(key: Value, value: Value)

  datatype Weakness = Strong | WeakKeys | WeakValues | WeakBoth

  /** A stack frame of a fiber: function, environment of closures over it, and slots. */
  datatype StackFrame = StackFrame(func: Option<Ref>, env: Option<Ref>, slots: seq<Value>)

  datatype Block =
    | Leaf // string, symbol, keyword or buffer
    | Array(items: seq<Value>, weak: bool)
    | Tuple(items: seq<Value>)
    | Table(weakness: Weakness, entries: seq<Entry>, proto: Option<Ref>)
    | Struct(entries: seq<Entry>, proto: Option<Ref>)
    | Function(def: Option<Ref>, envs: seq<Ref>)
    | FuncDef(constants: seq<Value>, defs: seq<Ref>, strings: seq<Ref>)
    | StackEnv(fiber: Ref)           // closure environment still on the stack of a live fiber
    | DetachedEnv(values: seq<Value>) // closure environment with its own copy of the slots
    | Fiber(lastValue: Value, pushed: seq<Value>, frames: seq<StackFrame>, env: Option<Ref>,
            attached: seq<Ref>, child: Option<Ref>)
    | Abstract(marks: seq<Value>)
    | ThreadedAbstract

  type Heap = map<Ref, Block>

  /** A reference the marker follows: through janet_mark with its depth guard, or by calling the
      routine for the block directly. */
  datatype Edge = Guarded(value: Value) | Direct(ref: Ref)

  function GuardAll(vs: seq<Value>): (r: seq<Edge>) {
    seq(|vs|, i requires 0 <= i < |vs| => Guarded(vs[i]))
  }

  function DirectAll(rs: seq<Ref>): (r: seq<Edge>) {
    seq(|rs|, i requires 0 <= i < |rs| => Direct(rs[i]))
  }

  function EntryEdges(entries: seq<Entry>, keys: bool, values: bool): seq<Edge> {
    if entries == [] then []
    else
      var head := if keys then [Guarded(entries[0].key)] else [];
      var next := if values then [Guarded(entries[0].value)] else [];
      head + next + EntryEdges(entries[1..], keys, values)
  }

  function Optional(r: Option<Ref>): seq<Edge> {
    if r.Some? then [Direct(r.value)] else []
  }

  function FrameEdges(frames: seq<StackFrame>): seq<Edge> {
    if frames == [] then []
    else Optional(frames[0].func) + Optional(frames[0].env) + GuardAll(frames[0].slots) + FrameEdges(frames[1..])
  }

  /** The strong references of a block in the order they are marked, save the last link. */
  function Edges(b: Block): seq<Edge> {
    match b
    case Leaf | ThreadedAbstract => []
    case Array(items, weak) => if weak then [] else GuardAll(items)
    case Tuple(items) => GuardAll(items)
    case Table(Strong, entries, _) => EntryEdges(entries, true, true)
    case Table(WeakKeys, entries, _) => EntryEdges(entries, false, true)
    case Table(WeakValues, entries, _) => EntryEdges(entries, true, false)
    case Table(WeakBoth, _, _) => []
    case Struct(entries, _) => EntryEdges(entries, true, true)
    case Function(def, envs) => if def.Some? then DirectAll(envs) + [Direct(def.value)] else []
    case FuncDef(constants, defs, strings) => GuardAll(constants) + DirectAll(defs) + DirectAll(strings)
    case StackEnv(fiber) => [Direct(fiber)]
    case DetachedEnv(values) => GuardAll(values)
    case Fiber(lastValue, pushed, frames, env, attached, _) =>
      [Guarded(lastValue)] + GuardAll(pushed) + FrameEdges(frames) + Optional(env) + DirectAll(attached)
    case Abstract(marks) => GuardAll(marks)
  }

  /** The last link, which the marker follows in a loop instead of recursively. */
  function LastLink(b: Block): Option<Ref> {
    match b
    case Table(_, _, proto) => proto
    case Struct(_, proto) => proto
    case Fiber(_, _, _, _, _, child) => child
    case _ => None
  }

  function Target(e: Edge): Option<Ref> {
    match e
    case Guarded(Pointer(ref)) => Some(ref)
    case Guarded(_) => None
    case Direct(ref) => Some(ref)
  }

  /** One of the wanted sides of an entry is y. */
  ghost predicate Holds(e: Entry, keys: bool, values: bool, y: Ref) {
    (keys && e.key == Pointer(y)) || (values && e.value == Pointer(y))
  }

  /** An entry of a table or struct holds y. */
  ghost predicate InEntries(entries: seq<Entry>, keys: bool, values: bool, y: Ref) {
    exists i :: 0 <= i < |entries| && Holds(entries[i], keys, values, y)
  }

  ghost predicate InFrame(f: StackFrame, y: Ref) {
    f.func == Some(y) || f.env == Some(y) || Pointer(y) in f.slots
  }

  ghost predicate InFrames(frames: seq<StackFrame>, y: Ref) {
    exists i :: 0 <= i < |frames| && InFrame(frames[i], y)
  }

  /** A block strongly refers to y: one of its fields holds y, other than the weak side of a weak container. */
  ghost predicate Refers(b: Block, y: Ref) {
    match b
    case Leaf | ThreadedAbstract => false
    case Array(items, weak) => !weak && Pointer(y) in items
    case Tuple(items) => Pointer(y) in items
    case Table(weakness, entries, proto) =>
      var keys, values := weakness.Strong? || weakness.WeakValues?, weakness.Strong? || weakness.WeakKeys?;
      proto == Some(y) || InEntries(entries, keys, values, y)
    case Struct(entries, proto) => proto == Some(y) || InEntries(entries, true, true, y)
    case Function(def, envs) => def.Some? && (def == Some(y) || y in envs)
    case FuncDef(constants, defs, strings) => Pointer(y) in constants || y in defs || y in strings
    case StackEnv(fiber) => y == fiber
    case DetachedEnv(values) => Pointer(y) in values
    case Fiber(lastValue, pushed, frames, env, attached, child) =>
      || lastValue == Pointer(y) || Pointer(y) in pushed || InFrames(frames, y)
      || env == Some(y) || y in attached || child == Some(y)
    case Abstract(marks) => Pointer(y) in marks
  }

  ghost predicate Targets(edges: seq<Edge>, y: Ref) {
    exists i :: 0 <= i < |edges| && Target(edges[i]) == Some(y)
  }

  lemma TargetsConcat(a: seq<Edge>, b: seq<Edge>, y: Ref)
    ensures Targets(a + b, y) <==> Targets(a, y) || Targets(b, y)
  {
    if Targets(b, y) {
      var i :| 0 <= i < |b| && Target(b[i]) == Some(y);
      assert (a + b)[|a| + i] == b[i];
    }
    if Targets(a, y) {
      var i :| 0 <= i < |a| && Target(a[i]) == Some(y);
      assert (a + b)[i] == a[i];
    }
  }

  lemma {:induction false} EntryTargets(entries: seq<Entry>, keys: bool, values: bool, y: Ref)
    ensures Targets(EntryEdges(entries, keys, values), y)
       <==> InEntries(entries, keys, values, y)
  {
    if entries != [] {
      var head := if keys then [Guarded(entries[0].key)] else [];
      var next := if values then [Guarded(entries[0].value)] else [];
      var rest := EntryEdges(entries[1..], keys, values);
      EntryTargets(entries[1..], keys, values, y);
      TargetsConcat(head + next, rest, y);
      TargetsConcat(head, next, y);
      assert Targets(head, y) <==> keys && entries[0].key == Pointer(y) by {
        if keys && entries[0].key == Pointer(y) { assert Target(head[0]) == Some(y); }
      }
      assert Targets(next, y) <==> values && entries[0].value == Pointer(y) by {
        if values && entries[0].value == Pointer(y) { assert Target(next[0]) == Some(y); }
      }
      if InEntries(entries, keys, values, y) {
        var i :| 0 <= i < |entries| && Holds(entries[i], keys, values, y);
        if i > 0 {
          assert Holds(entries[1..][i - 1], keys, values, y);
        }
      }
      if InEntries(entries[1..], keys, values, y) {
        var i :| 0 <= i < |entries[1..]| && Holds(entries[1..][i], keys, values, y);
        assert Holds(entries[i + 1], keys, values, y);
      }
    }
  }

  lemma GuardTargets(vs: seq<Value>, y: Ref)
    ensures Targets(GuardAll(vs), y) <==> Pointer(y) in vs
  {
    var edges := GuardAll(vs);
    if Pointer(y) in vs {
      var i :| 0 <= i < |vs| && vs[i] == Pointer(y);
      assert Target(edges[i]) == Some(y);
    }
    if Targets(edges, y) {
      var i :| 0 <= i < |edges| && Target(edges[i]) == Some(y);
      assert vs[i] == Pointer(y);
    }
  }

  lemma DirectTargets(rs: seq<Ref>, y: Ref)
    ensures Targets(DirectAll(rs), y) <==> y in rs
  {
    var edges := DirectAll(rs);
    if y in rs {
      var i :| 0 <= i < |rs| && rs[i] == y;
      assert Target(edges[i]) == Some(y);
    }
  }

  lemma OneTargets(e: Edge, y: Ref)
    ensures Targets([e], y) <==> Target(e) == Some(y)
  {
    if Target(e) == Some(y) {
      assert Target([e][0]) == Some(y);
    }
  }

  lemma OptionalTargets(r: Option<Ref>, y: Ref)
    ensures Targets(Optional(r), y) <==> r == Some(y)
  {
    if r.Some? {
      OneTargets(Direct(r.value), y);
    }
  }

  lemma FrameTargets(f: StackFrame, y: Ref)
    ensures Targets(Optional(f.func) + Optional(f.env) + GuardAll(f.slots), y) <==> InFrame(f, y)
  {
    TargetsConcat(Optional(f.func) + Optional(f.env), GuardAll(f.slots), y);
    TargetsConcat(Optional(f.func), Optional(f.env), y);
    OptionalTargets(f.func, y);
    OptionalTargets(f.env, y);
    GuardTargets(f.slots, y);
  }

  lemma {:induction false} FramesTargets(frames: seq<StackFrame>, y: Ref)
    ensures Targets(FrameEdges(frames), y) <==> InFrames(frames, y)
  {
    if frames != [] {
      var f, rest := frames[0], frames[1..];
      var head := Optional(f.func) + Optional(f.env) + GuardAll(f.slots);
      FramesTargets(rest, y);
      FrameTargets(f, y);
      TargetsConcat(head, FrameEdges(rest), y);
      if InFrames(frames, y) {
        var i :| 0 <= i < |frames| && InFrame(frames[i], y);
        assert i > 0 ==> InFrame(rest[i - 1], y);
      }
      if InFrames(rest, y) {
        var i :| 0 <= i < |rest| && InFrame(rest[i], y);
        assert InFrame(frames[i + 1], y);
      }
    }
  }

  lemma FiberTargets(b: Block, y: Ref)
    requires b.Fiber?
    ensures Targets(Edges(b), y)
       <==> b.lastValue == Pointer(y) || Pointer(y) in b.pushed || InFrames(b.frames, y)
            || b.env == Some(y) || y in b.attached
  {
    var head := [Guarded(b.lastValue)];
    var one := head + GuardAll(b.pushed);
    var two := one + FrameEdges(b.frames);
    TargetsConcat(two + Optional(b.env), DirectAll(b.attached), y);
    TargetsConcat(two, Optional(b.env), y);
    TargetsConcat(one, FrameEdges(b.frames), y);
    TargetsConcat(head, GuardAll(b.pushed), y);
    OneTargets(Guarded(b.lastValue), y);
    GuardTargets(b.pushed, y);
    FramesTargets(b.frames, y);
    OptionalTargets(b.env, y);
    DirectTargets(b.attached, y);
  }

  lemma FuncDefTargets(b: Block, y: Ref)
    requires b.FuncDef?
    ensures Targets(Edges(b), y) <==> Pointer(y) in b.constants || y in b.defs || y in b.strings
  {
    TargetsConcat(GuardAll(b.constants) + DirectAll(b.defs), DirectAll(b.strings), y);
    TargetsConcat(GuardAll(b.constants), DirectAll(b.defs), y);
    GuardTargets(b.constants, y);
    DirectTargets(b.defs, y);
    DirectTargets(b.strings, y);
  }

  lemma FunctionTargets(b: Block, y: Ref)
    requires b.Function? && b.def.Some?
    ensures Targets(Edges(b), y) <==> y == b.def.value || y in b.envs
  {
    TargetsConcat(DirectAll(b.envs), [Direct(b.def.value)], y);
    DirectTargets(b.envs, y);
    OneTargets(Direct(b.def.value), y);
  }

  /** The references that the marker follows are just the strong ones, for every kind of block. */
  lemma EdgesExactly(b: Block, y: Ref)
    ensures Refers(b, y) <==> LastLink(b) == Some(y) || Targets(Edges(b), y)
  {
    match b
    case Leaf | ThreadedAbstract =>
    case Array(items, _) => GuardTargets(items, y);
    case Tuple(items) => GuardTargets(items, y);
    case Table(w, entries, _) =>
      EntryTargets(entries, w.Strong? || w.WeakValues?, w.Strong? || w.WeakKeys?, y);
    case Struct(entries, _) => EntryTargets(entries, true, true, y);
    case Function(def, _) =>
      if def.Some? {
        FunctionTargets(b, y);
      }
    case FuncDef(_, _, _) => FuncDefTargets(b, y);
    case StackEnv(fiber) => OneTargets(Direct(fiber), y);
    case DetachedEnv(values) => GuardTargets(values, y);
    case Fiber(_, _, _, _, _, _) => FiberTargets(b, y);
    case Abstract(marks) => GuardTargets(marks, y);
  }

  /** No strong reference dangles. */
  ghost predicate Intact(heap: Heap) {
    forall x: Ref, y: Ref :: x in heap && Refers(heap[x], y) ==> y in heap
  }

  ghost predicate Path(heap: Heap, origin: set<Ref>, p: seq<Ref>, x: Ref) {
    && |p| > 0 && p[0] in origin && p[|p| - 1] == x
    && forall i :: 0 <= i < |p| - 1 ==> p[i] in heap && Refers(heap[p[i]], p[i + 1])
  }

  ghost predicate Reachable(heap: Heap, origin: set<Ref>, x: Ref) {
    exists p :: Path(heap, origin, p, x)
  }

  lemma ReachOrigin(heap: Heap, origin: set<Ref>, x: Ref)
    requires x in origin
    ensures Reachable(heap, origin, x)
  {
    assert Path(heap, origin, [x], x);
  }

  lemma ReachStep(heap: Heap, origin: set<Ref>, x: Ref, y: Ref)
    requires Reachable(heap, origin, x) && x in heap && Refers(heap[x], y)
    ensures Reachable(heap, origin, y)
  {
    var p :| Path(heap, origin, p, x);
    assert Path(heap, origin, p + [y], y);
  }

  /** A set that holds the origin and follows every reference holds everything reachable. */
  lemma {:induction false} ReachableWithin(heap: Heap, origin: set<Ref>, closed: set<Ref>, p: seq<Ref>, x: Ref)
    requires Path(heap, origin, p, x) && origin <= closed
    requires forall u: Ref, v: Ref :: u in closed && u in heap && Refers(heap[u], v) ==> v in closed
    ensures x in closed
  {
    if |p| > 1 {
      var u := p[|p| - 2];
      assert Path(heap, origin, p[..|p| - 1], u) by {
        assert p[..|p| - 1][|p| - 2] == u;
      }
      ReachableWithin(heap, origin, closed, p[..|p| - 1], u);
      assert p[|p| - 2 + 1] == x;
    }
  }
}
