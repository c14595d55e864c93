/** A fiber's stack: frames, their headers and the arguments being pushed all lie in one array of
    cells, which is read here as a stack of activations. */
module FiberStack {
  import opened Options
  import opened Regalloc

  const FRAME_SIZE := 4
  const INT32_MAX := 0x7FFF_FFFF

  datatype Value = Nil | Atom(id: nat) | TupleOf(items: seq<Value>) | StructOf(pairs: seq<Value>)

  /** What a call needs to know about a function. */
  datatype Func = Func(slotcount: nat, arity: nat, minArity: nat, maxArity: nat, vararg: bool, structarg: bool,
                       closureBits: Option<seq<Chunk>>)
  {
    predicate WellFormed() {
      && arity + (if vararg then 1 else 0) <= slotcount
      && (closureBits.Some? ==> slotcount <= 32 * |closureBits.value|)
    }

    /** A closure can refer to the slot; without a bitset it may refer to any. */
    predicate Captures(slot: nat) {
      slot < slotcount
        && (closureBits.Some? ==> slot / 32 < |closureBits.value| && closureBits.value[slot / 32][slot % 32])
    }
  }

  type EnvId = nat

  /** A closure environment is a frame that is still on the stack, or has values of its own. */
  datatype Env = OnStack(offset: nat, length: nat) | Detached(values: seq<Value>)

  /** A frame header takes up four cells in front of the frame. C functions have no func. */
  datatype Header = Header(prev: nat, func: Option<Func>, env: Option<EnvId>)
  datatype Cell = Slot(v: Value) | Head(h: Header) | Pad

  datatype Activation = Activation(func: Option<Func>, slots: seq<Value>, env: Option<EnvId>)

  /** The cells from lo to hi hold values. */
  ghost predicate Values(data: seq<Cell>, lo: nat, hi: nat) {
    lo <= hi <= |data| && forall i {:trigger data[i]} :: lo <= i < hi ==> data[i].Slot?
  }

  ghost function Read(data: seq<Cell>, lo: nat, hi: nat): (r: seq<Value>)
    requires Values(data, lo, hi)
    ensures |r| == hi - lo && forall i :: 0 <= i < |r| ==> r[i] == data[lo + i].v
  {
    seq(hi - lo, i requires 0 <= i < hi - lo => data[lo + i].v)
  }

  /** From the frame downwards, frames lie one behind the other, each with its header in front, and a
      function's frame has as many slots as the function; start is where the frame above would lie. */
  ghost predicate Chain(data: seq<Cell>, frame: nat, start: nat)
    decreases frame
  {
    if frame == 0 then start == FRAME_SIZE <= |data|
    else
      && FRAME_SIZE <= frame && frame + FRAME_SIZE <= start <= |data|
      && Values(data, frame, start - FRAME_SIZE)
      && data[frame - FRAME_SIZE].Head?
      && var h := data[frame - FRAME_SIZE].h;
      && h.prev < frame
      && (h.func.Some? ==> h.func.value.WellFormed() && start - FRAME_SIZE - frame == h.func.value.slotcount)
      && Chain(data, h.prev, frame)
  }

  /** The stack of activations, outermost first. */
  ghost function Activations(data: seq<Cell>, frame: nat, start: nat): seq<Activation>
    requires Chain(data, frame, start)
    decreases frame
  {
    if frame == 0 then []
    else
      var h := data[frame - FRAME_SIZE].h;
      Activations(data, h.prev, frame) + [Activation(h.func, Read(data, frame, start - FRAME_SIZE), h.env)]
  }

  /** Only cells below the next header matter. */
  lemma {:induction false} ChainFrame(data: seq<Cell>, data': seq<Cell>, frame: nat, start: nat)
    requires Chain(data, frame, start) && start <= |data'|
    requires forall i :: 0 <= i < start - FRAME_SIZE ==> data'[i] == data[i]
    ensures Chain(data', frame, start) && Activations(data', frame, start) == Activations(data, frame, start)
    decreases frame
  {
    if frame > 0 {
      ChainFrame(data, data', data[frame - FRAME_SIZE].h.prev, frame);
      assert Read(data', frame, start - FRAME_SIZE) == Read(data, frame, start - FRAME_SIZE);
    }
  }

  /** What the rest parameter of a function gets. */
  function RestOf(func: Func, items: seq<Value>): Value {
    if func.structarg then StructOf(items[..|items| - |items| % 2]) else TupleOf(items)
  }

  /** The slots of a function that is called with some arguments: the arguments, with those beyond the
      arity also collected in the rest parameter, and nil. */
  function Entered(func: Func, args: seq<Value>): (r: seq<Value>)
    requires func.WellFormed()
    ensures |r| == func.slotcount
  {
    seq(func.slotcount, k requires 0 <= k < func.slotcount =>
      if func.vararg && k == func.arity then RestOf(func, if |args| > func.arity then args[func.arity..] else [])
      else if k < |args| then args[k] else Nil)
  }

  /** The same for a tail call, where the slots behind the rest parameter are cleared. */
  function TailEntered(func: Func, args: seq<Value>): (r: seq<Value>)
    requires func.WellFormed()
    ensures |r| == func.slotcount
  {
    seq(func.slotcount, k requires 0 <= k < func.slotcount =>
      if func.vararg && k == func.arity then RestOf(func, if |args| > func.arity then args[func.arity..] else [])
      else if k < |args| && !(func.vararg && k > func.arity) then args[k] else Nil)
  }

  /** Both ways of entering a function agree on its parameters, and on all slots unless an argument
      collected in the rest parameter is also left behind it. */
  lemma EntriesAgree(func: Func, args: seq<Value>)
    requires func.WellFormed()
    ensures forall k :: 0 <= k < func.arity + (if func.vararg then 1 else 0) ==>
            TailEntered(func, args)[k] == Entered(func, args)[k]
    ensures TailEntered(func, args) == Entered(func, args)
       <==> !(func.vararg && exists k :: func.arity < k < func.slotcount && k < |args| && args[k] != Nil)
  {
    if func.vararg {
      if k :| func.arity < k < func.slotcount && k < |args| && args[k] != Nil {
        assert TailEntered(func, args)[k] != Entered(func, args)[k];
      }
    }
  }

  /** No argument is lost or moved: the parameters and what the rest parameter collects are the arguments, in
      order, and what is missing is nil. A struct is made of whole pairs, so it leaves out an odd last argument.
      Behind the rest parameter of a call, but not of a tail call, the arguments are still where they were
      pushed. */
  ghost predicate Receives(func: Func, args: seq<Value>, slots: seq<Value>, tail: bool) {
    && |slots| == func.slotcount
    && if !func.vararg then Pads(args, slots)
       else
         && func.arity < |slots|
         && var params, rest := slots[..func.arity], slots[func.arity];
         && (if func.structarg then rest.StructOf? && |rest.pairs| % 2 == 0 else rest.TupleOf?)
         && var items := if func.structarg then rest.pairs else rest.items;
         && (if |args| < func.arity then Pads(args, params) && items == []
             else if func.structarg && (|args| - func.arity) % 2 == 1 then params + items == args[..|args| - 1]
             else params + items == args)
         && forall k :: func.arity < k < |slots| ==> slots[k] == if k < |args| && !tail then args[k] else Nil
  }

  /** The arguments, as many as there is room for, and nil behind them. */
  ghost predicate Pads(args: seq<Value>, slots: seq<Value>) {
    forall k :: 0 <= k < |slots| ==> slots[k] == if k < |args| then args[k] else Nil
  }

  lemma EnteredReceives(func: Func, args: seq<Value>)
    requires func.WellFormed()
    ensures Receives(func, args, Entered(func, args), false)
  {
    if func.vararg {
      RestReceives(func, args, Entered(func, args));
    }
  }

  lemma TailEnteredReceives(func: Func, args: seq<Value>)
    requires func.WellFormed()
    ensures Receives(func, args, TailEntered(func, args), true)
  {
    if func.vararg {
      RestReceives(func, args, TailEntered(func, args));
    }
  }

  lemma RestReceives(func: Func, args: seq<Value>, slots: seq<Value>)
    requires func.vararg && func.arity < |slots| && forall k :: 0 <= k < func.arity ==>
             slots[k] == if k < |args| then args[k] else Nil
    requires slots[func.arity] == RestOf(func, if |args| > func.arity then args[func.arity..] else [])
    ensures var rest := slots[func.arity];
            && (if func.structarg then rest.StructOf? && |rest.pairs| % 2 == 0 else rest.TupleOf?)
            && var items := if func.structarg then rest.pairs else rest.items;
            && (|args| <= func.arity ==> items == [])
            && (|args| >= func.arity ==>
                 slots[..func.arity] + items
                 == args[..|args| - if func.structarg then (|args| - func.arity) % 2 else 0])
    ensures |args| >= func.arity ==> args[..|args|] == args
  {
    if |args| >= func.arity {
      var n := |args| - if func.structarg then (|args| - func.arity) % 2 else 0;
      var items := if func.structarg then slots[func.arity].pairs else slots[func.arity].items;
      assert slots[..func.arity] == args[..func.arity];
      assert items == args[func.arity..n];
      assert args[..func.arity] + args[func.arity..n] == args[..n];
    }
  }

  /** The values an environment keeps when it leaves the stack. */
  function Detach(func: Func, values: seq<Value>): (r: seq<Value>)
    ensures |r| == |values|
    ensures forall k :: 0 <= k < |values| && func.Captures(k) ==> r[k] == values[k]
    ensures func.closureBits.None? ==> r == values
    ensures func.closureBits.Some? ==> forall k :: 0 <= k < |values| && !func.Captures(k) ==> r[k] == Nil
  {
    seq(|values|, k requires 0 <= k < |values| => if func.closureBits.None? || func.Captures(k) then values[k] else Nil)
  }

  /** The frame at the given offset is in the chain and has the environment. */
  ghost predicate HasEnv(data: seq<Cell>, frame: nat, start: nat, id: EnvId, at: nat)
    requires Chain(data, frame, start)
    decreases frame
  {
    && frame > 0
    && var h := data[frame - FRAME_SIZE].h;
    (h.env == Some(id) && frame == at) || HasEnv(data, h.prev, frame, id, at)
  }

  ghost predicate EnvAt(data: seq<Cell>, e: Env, at: nat) {
    && FRAME_SIZE <= at <= |data| && data[at - FRAME_SIZE].Head? && data[at - FRAME_SIZE].h.func.Some?
    && e == OnStack(at, data[at - FRAME_SIZE].h.func.value.slotcount)
  }

  /** The environments on the stack are exactly those of the frames in the chain, which are frames of
      functions. */
  ghost predicate EnvsOk(data: seq<Cell>, frame: nat, start: nat, envs: map<EnvId, Env>)
    requires Chain(data, frame, start)
  {
    && (forall id {:trigger envs[id]} :: id in envs && envs[id].OnStack? ==>
         HasEnv(data, frame, start, id, envs[id].offset))
    && (forall id, at {:trigger HasEnv(data, frame, start, id, at)} ::
          HasEnv(data, frame, start, id, at) ==> id in envs && EnvAt(data, envs[id], at))
  }

  lemma {:induction false} EnvRegion(data: seq<Cell>, frame: nat, start: nat, id: EnvId, at: nat)
    requires Chain(data, frame, start) && HasEnv(data, frame, start, id, at)
    ensures FRAME_SIZE <= at <= frame && data[at - FRAME_SIZE].Head? && data[at - FRAME_SIZE].h.env == Some(id)
    ensures var f := data[at - FRAME_SIZE].h.func;
            f.Some? ==> at + f.value.slotcount + FRAME_SIZE <= start && Values(data, at, at + f.value.slotcount)
    ensures at < frame ==> data[frame - FRAME_SIZE].h.prev >= at
    decreases frame
  {
    var h := data[frame - FRAME_SIZE].h;
    if !(h.env == Some(id) && frame == at) {
      EnvRegion(data, h.prev, frame, id, at);
    }
  }

  lemma {:induction false} HasEnvFrame(data: seq<Cell>, data': seq<Cell>, frame: nat, start: nat, id: EnvId, at: nat)
    requires Chain(data, frame, start) && start <= |data'|
    requires forall i :: 0 <= i < start - FRAME_SIZE ==> data'[i] == data[i]
    ensures Chain(data', frame, start) && (HasEnv(data', frame, start, id, at) <==> HasEnv(data, frame, start, id, at))
    decreases frame
  {
    ChainFrame(data, data', frame, start);
    if frame > 0 {
      HasEnvFrame(data, data', data[frame - FRAME_SIZE].h.prev, frame, id, at);
    }
  }

  lemma EnvsFrame(data: seq<Cell>, data': seq<Cell>, frame: nat, start: nat, envs: map<EnvId, Env>)
    requires Chain(data, frame, start) && start <= |data'| && EnvsOk(data, frame, start, envs)
    requires forall i :: 0 <= i < start - FRAME_SIZE ==> data'[i] == data[i]
    ensures Chain(data', frame, start) && EnvsOk(data', frame, start, envs)
  {
    ChainFrame(data, data', frame, start);
    forall id, at
      ensures HasEnv(data', frame, start, id, at) <==> HasEnv(data, frame, start, id, at)
    {
      HasEnvFrame(data, data', frame, start, id, at);
    }
    forall id, at | HasEnv(data', frame, start, id, at)
      ensures id in envs && EnvAt(data', envs[id], at)
    {
      assert HasEnv(data, frame, start, id, at);
      EnvRegion(data, frame, start, id, at);
    }
  }

  /** The values that closures see in an environment. */
  ghost function EnvRead(data: seq<Cell>, e: Env): seq<Value> {
    match e
    case OnStack(offset, length) => if Values(data, offset,
      offset + length) then Read(data, offset, offset + length) else []
    case Detached(values) => values
  }

  /** A new frame on top of the chain. */
  lemma FrameAdded(data: seq<Cell>, data': seq<Cell>, frame: nat, start: nat, start': nat, h: Header,
                   envs: map<EnvId, Env>)
    requires Chain(data, frame, start) && EnvsOk(data, frame, start, envs)
    requires start + FRAME_SIZE <= start' <= |data'| && start <= |data'|
    requires forall i :: 0 <= i < start - FRAME_SIZE ==> data'[i] == data[i]
    requires data'[start - FRAME_SIZE] == Head(h) && h.prev == frame && h.env.None?
    requires Values(data', start, start' - FRAME_SIZE)
    requires h.func.Some? ==> h.func.value.WellFormed() && start' - FRAME_SIZE - start == h.func.value.slotcount
    ensures Chain(data', start, start') && EnvsOk(data', start, start', envs)
    ensures Activations(data', start, start')
         == Activations(data, frame, start) + [Activation(h.func, Read(data', start, start' - FRAME_SIZE), None)]
  {
    ChainFrame(data, data', frame, start);
    ChainBounds(data, frame, start);
    EnvsFrame(data, data', frame, start, envs);
    forall id, at
      ensures HasEnv(data', start, start', id, at) <==> HasEnv(data', frame, start, id, at)
    {
    }
  }

  lemma ChainBounds(data: seq<Cell>, frame: nat, start: nat)
    requires Chain(data, frame, start)
    ensures frame < start && FRAME_SIZE <= start <= |data|
  {
  }

  class Fiber {
    var data: seq<Cell>
    var frame: nat
    var stackstart: nat
    var stacktop: nat
    var envs: map<EnvId, Env>

    ghost predicate Valid()
      reads this
    {
      && Chain(data, frame, stackstart) && stackstart <= stacktop && Values(data, stackstart, stacktop)
      && EnvsOk(data, frame, stackstart, envs)
    }

    ghost function Stack(): seq<Activation>
      requires Valid()
      reads this
    {
      Activations(data, frame, stackstart)
    }

    /** The arguments pushed for the next call. */
    ghost function Args(): seq<Value>
      requires Valid()
      reads this
    {
      Read(data, stackstart, stacktop)
    }

    ghost function Environment(id: EnvId): seq<Value>
      requires Valid() && id in envs
      reads this
    {
      EnvRead(data, envs[id])
    }

    /** Nothing but the arguments changed. */
    twostate predicate SameFrames()
      requires old(Valid()) && Valid()
      reads this
    {
      && Stack() == old(Stack()) && envs == old(envs)
      && forall id :: id in envs ==> Environment(id) == old(Environment(id))
    }

    constructor (capacity: nat)
      ensures Valid() && Stack() == [] && Args() == [] && envs == map[]
    {
      data := seq(if capacity < 32 then 32 else capacity, i => Pad);
      frame, stackstart, stacktop := 0, FRAME_SIZE, FRAME_SIZE;
      envs := map[];
    }

    method SetCapacity(n: nat)
      requires Valid() && n >= |data|
      modifies this`data
      ensures Valid() && |data| == n && data[..|old(data)|] == old(data) && SameFrames() && Args() == old(Args())
    {
      ghost var before := data;
      data := data + seq(n - |data|, i => Pad);
      EnvsFrame(before, data, frame, stackstart, envs);
      ChainFrame(before, data, frame, stackstart);
      SameEnvironments(before, data, frame, stackstart, envs);
      assert Read(data, stackstart, stacktop) == Read(before, stackstart, stacktop);
    }

    method Grow(needed: nat)
      requires Valid() && |data| <= needed <= INT32_MAX && needed > 0
      modifies this`data
      ensures Valid() && |data| >= needed && (needed < INT32_MAX ==> |data| > needed) && SameFrames()
      ensures Args() == old(Args())
    {
      SetCapacity(if needed > INT32_MAX / 2 then INT32_MAX else 2 * needed);
    }

    /** One more argument, in a cell that is there already. */
    method Store(x: Value)
      requires Valid() && stacktop < |data|
      modifies this`data, this`stacktop
      ensures Valid() && SameFrames() && Args() == old(Args()) + [x] && |data| == |old(data)|
      ensures stacktop == old(stacktop) + 1
    {
      ghost var before := data;
      data := data[stacktop := Slot(x)];
      Pushed(before, data, frame, stackstart, envs);
      stacktop := stacktop + 1;
    }

    method Push(x: Value) returns (panicked: bool)
      requires Valid() && stacktop <= INT32_MAX
      modifies this
      ensures Valid() && SameFrames() && panicked == (old(stacktop) == INT32_MAX)
      ensures Args() == if panicked then old(Args()) else old(Args()) + [x]
    {
      if stacktop == INT32_MAX { return true; }
      if stacktop >= |data| {
        Grow(stacktop);
      }
      Store(x);
      panicked := false;
    }

    method Push2(x: Value, y: Value) returns (panicked: bool)
      requires Valid() && stacktop <= INT32_MAX
      modifies this
      ensures Valid() && SameFrames() && panicked == (old(stacktop) >= INT32_MAX - 1)
      ensures Args() == if panicked then old(Args()) else old(Args()) + [x, y]
    {
      panicked := PushN([x, y]);
    }

    method Push3(x: Value, y: Value, z: Value) returns (panicked: bool)
      requires Valid() && stacktop <= INT32_MAX
      modifies this
      ensures Valid() && SameFrames() && panicked == (old(stacktop) >= INT32_MAX - 2)
      ensures Args() == if panicked then old(Args()) else old(Args()) + [x, y, z]
    {
      panicked := PushN([x, y, z]);
    }

    method PushN(xs: seq<Value>) returns (panicked: bool)
      requires Valid() && stacktop <= INT32_MAX
      modifies this
      ensures Valid() && SameFrames() && panicked == (old(stacktop) > INT32_MAX - |xs|)
      ensures Args() == if panicked then old(Args()) else old(Args()) + xs
    {
      if stacktop > INT32_MAX - |xs| { return true; }
      var newtop := stacktop + |xs|;
      if newtop > |data| {
        Grow(newtop);
      }
      for i := 0 to |xs|
        invariant Valid() && SameFrames() && stacktop == newtop - |xs| + i && newtop <= |data|
        invariant Args() == old(Args()) + xs[..i]
      {
        Store(xs[i]);
        assert xs[..i + 1] == xs[..i] + [xs[i]];
      }
      assert xs[..|xs|] == xs;
      panicked := false;
    }

    /** Sets the cells from lo to hi to nil. */
    method Clear(lo: nat, hi: nat)
      requires hi <= |data|
      modifies this`data
      ensures |data| == |old(data)|
      ensures forall i :: 0 <= i < |data| ==> data[i] == if lo <= i < hi then Slot(Nil) else old(data)[i]
    {
      var i := lo;
      while i < hi
        invariant |data| == |old(data)| && (lo <= hi ==> lo <= i <= hi)
        invariant forall j :: 0 <= j < |data| ==> data[j] == if lo <= j < i && j < hi then Slot(Nil) else old(data)[j]
      {
        data := data[i := Slot(Nil)];
        i := i + 1;
      }
    }

    /** Turns the arguments into the slots of a function: missing ones are nil, and those beyond the
        arity go into the rest parameter. */
    method PlaceArgs(func: Func)
      requires Valid() && func.WellFormed() && stackstart + func.slotcount + FRAME_SIZE <= |data|
      modifies this`data
      ensures |data| == |old(data)| && data[..stackstart] == old(data)[..stackstart]
      ensures Values(data, stackstart, stackstart + func.slotcount)
      ensures Read(data, stackstart, stackstart + func.slotcount) == Entered(func, old(Args()))
    {
      ghost var before := data;
      Clear(stacktop, stackstart + func.slotcount + FRAME_SIZE);
      if func.vararg {
        var tuplehead := stackstart + func.arity;
        var items := if tuplehead >= stacktop then [] else ValuesOf(data[tuplehead..stacktop]);
        assert tuplehead < stacktop ==> data[tuplehead..stacktop] == before[tuplehead..stacktop];
        data := data[tuplehead := Slot(RestOf(func, items))];
      }
      ArgsPlaced(before, data, stackstart, stacktop, func);
    }

    /** Calls a function with the arguments pushed so far; false arity leaves everything as it was. */
    method FuncFrame(func: Func) returns (failed: bool)
      requires Valid() && func.WellFormed()
      modifies this
      ensures Valid() && failed == !(func.minArity <= |old(Args())| <= func.maxArity)
      ensures failed ==> SameFrames() && Args() == old(Args())
      ensures !failed ==> Stack() == old(Stack()) + [Activation(Some(func), Entered(func, old(Args())), None)]
      ensures !failed ==> Receives(func, old(Args()), Stack()[|old(Stack())|].slots, false)
      ensures !failed ==> Args() == []
      ensures !failed ==> envs == old(envs) && forall id :: id in envs ==> Environment(id) == old(Environment(id))
      ensures !failed ==> frame == old(stackstart) && frame > old(frame)
    {
      var nextframe := stackstart;
      var nextstacktop := nextframe + func.slotcount + FRAME_SIZE;
      var nextArity := stacktop - stackstart;
      if nextArity < func.minArity || nextArity > func.maxArity { return true; }
      if |data| < nextstacktop {
        SetCapacity(2 * nextstacktop);
      }
      EnteredReceives(func, Args());
      EnterFunc(func);
      failed := false;
    }

    /** The call itself, once there is room. */
    method EnterFunc(func: Func)
      requires Valid() && func.WellFormed() && stackstart + func.slotcount + FRAME_SIZE <= |data|
      modifies this
      ensures Valid() && Stack() == old(Stack()) + [Activation(Some(func), Entered(func, old(Args())), None)]
      ensures Args() == []
      ensures envs == old(envs) && forall id :: id in envs ==> Environment(id) == old(Environment(id))
      ensures frame == old(stackstart) && frame > old(frame)
    {
      ghost var before := data;
      PlaceArgs(func);
      SetHeader(Header(frame, Some(func), None), stackstart + func.slotcount + FRAME_SIZE, before);
    }

    /** Puts the header of a new frame in front of the arguments. */
    method SetHeader(h: Header, nextstacktop: nat, ghost before: seq<Cell>)
      requires Chain(before, frame, stackstart) && EnvsOk(before, frame, stackstart, envs)
      requires |data| == |before| && data[..stackstart] == before[..stackstart]
      requires stackstart + FRAME_SIZE <= nextstacktop <= |data| && Values(data, stackstart, nextstacktop - FRAME_SIZE)
      requires h.prev == frame && h.env.None?
      requires h.func.Some? ==>
               h.func.value.WellFormed() && nextstacktop - FRAME_SIZE - stackstart == h.func.value.slotcount
      modifies this
      ensures Valid() && frame == old(stackstart) > old(frame) && envs == old(envs) && Args() == []
      ensures Stack() == Activations(before, old(frame), old(stackstart))
                         + [Activation(h.func, Read(old(data), old(stackstart), nextstacktop - FRAME_SIZE), None)]
      ensures forall id :: id in envs ==> Environment(id) == EnvRead(before, envs[id])
    {
      ghost var args := data;
      data := data[stackstart - FRAME_SIZE := Head(h)];
      data := data[stackstart - 3 := Pad][stackstart - 2 := Pad][stackstart - 1 := Pad];
      HeaderPlaced(before, args, data, frame, stackstart, nextstacktop, h, envs);
      frame := stackstart;
      stackstart, stacktop := nextstacktop, nextstacktop;
    }

    /** Calls a C function: its frame is the arguments. */
    method CFrame()
      requires Valid()
      modifies this
      ensures Valid() && Stack() == old(Stack()) + [Activation(None, old(Args()), None)] && Args() == []
      ensures envs == old(envs) && forall id :: id in envs ==> Environment(id) == old(Environment(id))
      ensures frame == old(stackstart) && frame > old(frame)
    {
      var nextstacktop := stacktop + FRAME_SIZE;
      if |data| < nextstacktop {
        SetCapacity(2 * nextstacktop);
      }
      SetHeader(Header(frame, None, None), nextstacktop, data);
    }

    /** The environment of the top frame, if it has one, gets values of its own: those in the slots that
        closures can refer to. All closures share the environment, so all see them. */
    method DetachTop()
      requires Valid() && frame > 0
      modifies this`data, this`envs
      ensures Valid() && |data| == |old(data)| && Args() == old(Args()) && data[frame - FRAME_SIZE].h.env.None?
      ensures var top := old(Stack())[|old(Stack())| - 1];
              && Stack() == old(Stack())[..|old(Stack())| - 1] + [top.(env := None)]
              && (top.env.None? ==> envs == old(envs))
              && (top.env.Some? ==>
                   top.func.Some? && envs == old(envs)[top.env.value := Detached(Detach(top.func.value, top.slots))])
      ensures forall id :: id in old(envs) && old(Stack())[|old(Stack())| - 1].env != Some(id) ==>
              Environment(id) == old(Environment(id))
    {
      var h := data[frame - FRAME_SIZE].h;
      if h.env.None? {
        return;
      }
      ghost var before, was := data, envs;
      assert HasEnv(data, frame, stackstart, h.env.value, frame);
      var slots := ValuesOf(data[frame..frame + h.func.value.slotcount]);
      assert slots == Read(data, frame, stackstart - FRAME_SIZE);
      var values := DetachedValues(h.func.value, slots);
      envs := envs[h.env.value := Detached(values)];
      data := data[frame - FRAME_SIZE := Head(h.(env := None))];
      EnvDropped(before, data, frame, stackstart, was, Detached(values));
      assert Read(data, stackstart, stacktop) == Read(before, stackstart, stacktop);
    }

    method DetachedValues(func: Func, slots: seq<Value>) returns (values: seq<Value>)
      requires func.WellFormed() && |slots| == func.slotcount
      ensures values == Detach(func, slots)
    {
      values := slots;
      if func.closureBits.Some? {
        for j := 0 to |slots|
          invariant |values| == |slots|
          invariant forall k :: 0 <= k < |slots| ==> values[k] == if k < j && !func.Captures(k) then Nil else slots[k]
        {
          if !func.closureBits.value[j / 32][j % 32] {
            values := values[j := Nil];
          }
        }
      }
    }

    /** Returns from the top frame: the caller's frame is on top again, as it was. */
    method PopFrame()
      requires Valid()
      modifies this
      ensures Valid() && (old(frame) == 0 ==> unchanged(this))
      ensures old(frame) > 0 ==>
              Stack() == old(Stack())[..|old(Stack())| - 1] && Args() == [] && stackstart == old(frame)
      ensures old(frame) > 0 ==>
                var top := old(Stack())[|old(Stack())| - 1];
                && (top.env.None? ==> envs == old(envs))
                && (top.env.Some? ==>
                     top.func.Some? && envs == old(envs)[top.env.value := Detached(Detach(top.func.value, top.slots))])
      ensures forall id :: id in old(envs) && (old(frame) > 0 ==> old(Stack())[|old(Stack())| - 1].env != Some(id)) ==>
                Environment(id) == old(Environment(id))
    {
      if frame == 0 { return; }
      DetachTop();
      var h := data[frame - FRAME_SIZE].h;
      FrameDropped(data, frame, stackstart, envs);
      stackstart, stacktop := frame, frame;
      frame := h.prev;
    }

    /** Arranges the arguments of a tail call above the frame they will replace. */
    method TailArgs(func: Func) returns (stacksize: nat)
      requires Valid() && func.WellFormed()
      modifies this`data
      ensures |data| >= |old(data)| && (forall i :: 0 <= i < stackstart ==> data[i] == old(data)[i])
      ensures Values(data, stackstart, stackstart + stacksize)
      ensures Read(data, stackstart, stackstart + stacksize) == TailParams(func, old(Args()))
    {
      if func.vararg {
        RestArg(func);
        stacksize := func.arity + 1;
      } else {
        stacksize := stacktop - stackstart;
      }
      TailPlaced(old(data), data, stackstart, stacktop, func);
    }

    /** Collects the rest parameter of a tail call, where it is among the arguments or behind them. */
    method RestArg(func: Func)
      requires Valid() && func.vararg
      modifies this`data
      ensures |data| >= |old(data)| && stackstart + func.arity < |data|
      ensures forall i :: 0 <= i <= stackstart + func.arity ==>
              data[i] == TailCell(old(data), stackstart, stacktop, func, i)
    {
      var tuplehead := stackstart + func.arity;
      if tuplehead >= stacktop {
        ghost var before := data;
        if tuplehead >= |data| {
          SetCapacity(2 * (tuplehead + 1));
        }
        assert forall i :: 0 <= i < |before| ==> data[i] == data[..|before|][i] == before[i];
        Clear(stacktop, tuplehead);
        data := data[tuplehead := Slot(RestOf(func, []))];
      } else {
        data := data[tuplehead := Slot(RestOf(func, ValuesOf(data[tuplehead..stacktop])))];
      }
    }

    /** Calls a function in place of the top frame. */
    method FuncFrameTail(func: Func) returns (failed: bool)
      requires Valid() && func.WellFormed() && frame > 0
      modifies this
      ensures Valid() && failed == !(func.minArity <= |old(Args())| <= func.maxArity)
      ensures failed ==> SameFrames() && Args() == old(Args())
      ensures !failed ==>
                && Stack() == old(Stack())[..|old(Stack())| - 1]
                     + [Activation(Some(func), TailEntered(func, old(Args())), None)]
                && Args() == [] && frame == old(frame)
      ensures !failed ==> Receives(func, old(Args()), Stack()[|old(Stack())| - 1].slots, true)
      ensures !failed ==>
                var top := old(Stack())[|old(Stack())| - 1];
                && (top.env.None? ==> envs == old(envs))
                && (top.env.Some? ==>
                     top.func.Some? && envs == old(envs)[top.env.value := Detached(Detach(top.func.value, top.slots))])
      ensures !failed ==> forall id :: id in old(envs) && old(Stack())[|old(Stack())| - 1].env != Some(id) ==>
              Environment(id) == old(Environment(id))
    {
      var nextArity := stacktop - stackstart;
      if nextArity < func.minArity || nextArity > func.maxArity { return true; }
      var nextstacktop := frame + func.slotcount + FRAME_SIZE;
      if |data| < nextstacktop {
        SetCapacity(2 * nextstacktop);
      }
      DetachTop();
      ReplaceTop(func);
      failed := false;
    }

    /** The tail call itself, when the top frame has no environment any more. */
    method ReplaceTop(func: Func)
      requires Valid() && func.WellFormed() && frame > 0 && data[frame - FRAME_SIZE].h.env.None?
      requires frame + func.slotcount + FRAME_SIZE <= |data|
      modifies this
      ensures Valid() && frame == old(frame) && envs == old(envs) && Args() == []
      ensures Stack() == old(Stack())[..|old(Stack())| - 1]
              + [Activation(Some(func), TailEntered(func, old(Args())), None)]
      ensures Receives(func, old(Args()), Stack()[|old(Stack())| - 1].slots, true)
      ensures forall id :: id in envs ==> Environment(id) == old(Environment(id))
    {
      ghost var before, args := data, Args();
      TailEnteredReceives(func, args);
      ChainBounds(data, frame, stackstart);
      var stacksize := TailArgs(func);
      Settle(stacksize, func, args);
      SetTopFunc(func, before);
    }

    /** The frame now belongs to another function. */
    method SetTopFunc(func: Func, ghost before: seq<Cell>)
      requires Chain(before, frame, stackstart) && EnvsOk(before, frame, stackstart, envs) && frame > 0
      requires before[frame - FRAME_SIZE].h.env.None? && func.WellFormed()
      requires frame + func.slotcount + FRAME_SIZE <= |data|
      requires forall i :: 0 <= i < frame ==> data[i] == before[i]
      requires Values(data, frame, frame + func.slotcount)
      modifies this
      ensures Valid() && frame == old(frame) && envs == old(envs) && Args() == []
      ensures var was := Activations(before, old(frame), old(stackstart));
              Stack() == was[..|was| - 1]
                + [Activation(Some(func), Read(old(data), frame, frame + func.slotcount), None)]
      ensures forall id :: id in envs ==> Environment(id) == EnvRead(before, envs[id])
    {
      ghost var placed := data;
      data := data[frame - FRAME_SIZE := Head(data[frame - FRAME_SIZE].h.(func := Some(func)))];
      FrameReplaced(before, placed, data, frame, stackstart, frame + func.slotcount + FRAME_SIZE, func, envs);
      stackstart := frame + func.slotcount + FRAME_SIZE;
      stacktop := stackstart;
    }

    /** The arranged arguments become the slots of the frame, and its other slots nil. */
    method Settle(stacksize: nat, func: Func, ghost args: seq<Value>)
      requires func.WellFormed() && frame < stackstart && stackstart + stacksize <= |data|
      requires frame + func.slotcount <= |data|
      requires Values(data, stackstart, stackstart + stacksize)
      requires Read(data, stackstart, stackstart + stacksize) == TailParams(func, args)
      modifies this`data
      ensures |data| == |old(data)| && (forall i :: 0 <= i < frame ==> data[i] == old(data)[i])
      ensures Values(data, frame, frame + func.slotcount)
      ensures Read(data, frame, frame + func.slotcount) == TailEntered(func, args)
    {
      ghost var arranged := data;
      MoveDown(stacksize);
      ghost var moved := data;
      Clear(frame + stacksize, frame + func.slotcount);
      TailMoved(arranged, moved, data, frame, stackstart, stacksize, func, args);
    }

    /** Moves the arranged arguments onto the frame. */
    method MoveDown(stacksize: nat)
      requires frame < stackstart && stackstart + stacksize <= |data|
      modifies this`data
      ensures |data| == |old(data)|
      ensures forall i {:trigger data[i]} :: 0 <= i < |data| ==>
              data[i] == MovedCell(old(data), frame, stackstart, stacksize, i)
    {
      data := data[..frame] + data[stackstart..stackstart + stacksize] + data[frame + stacksize..];
    }

    /** The environment of the running function, which is its frame until the frame goes away. */
    method Capture(candidate: EnvId) returns (id: EnvId)
      requires Valid() && frame > 0 && data[frame - FRAME_SIZE].h.func.Some? && candidate !in envs
      modifies this`data, this`envs
      ensures Valid() && Args() == old(Args()) && id in envs
      ensures var top := old(Stack())[|old(Stack())| - 1];
              && Stack() == old(Stack())[..|old(Stack())| - 1] + [top.(env := Some(id))]
              && Environment(id) == top.slots && (top.env.Some? ==> id == top.env.value)
      ensures forall other :: other in old(envs) ==> other in envs && Environment(other) == old(Environment(other))
    {
      var h := data[frame - FRAME_SIZE].h;
      if h.env.Some? {
        assert HasEnv(data, frame, stackstart, h.env.value, frame);
        return h.env.value;
      }
      id := candidate;
      ghost var before, was := data, envs;
      envs := envs[id := OnStack(frame, h.func.value.slotcount)];
      data := data[frame - FRAME_SIZE := Head(h.(env := Some(id)))];
      EnvAdded(before, data, frame, stackstart, was, id);
      assert Read(data, stackstart, stacktop) == Read(before, stackstart, stacktop);
    }

    /** The running function writes one of its slots; closures over the frame see it. */
    method SetSlot(k: nat, v: Value)
      requires Valid() && frame > 0 && k < stackstart - FRAME_SIZE - frame
      modifies this`data
      ensures Valid() && Args() == old(Args())
      ensures var top := old(Stack())[|old(Stack())| - 1];
              Stack() == old(Stack())[..|old(Stack())| - 1] + [top.(slots := top.slots[k := v])]
      ensures forall id :: id in envs && old(Stack())[|old(Stack())| - 1].env != Some(id) ==>
              Environment(id) == old(Environment(id))
      ensures forall id :: id in envs && old(Stack())[|old(Stack())| - 1].env == Some(id) ==>
              Environment(id) == Stack()[|Stack()| - 1].slots
    {
      ghost var before := data;
      data := data[frame + k := Slot(v)];
      SlotSet(before, data, frame, stackstart, envs, k, v);
      assert Read(data, stackstart, stacktop) == Read(before, stackstart, stacktop);
    }
  }

  /** A cell after the arguments have been placed. */
  function PlacedCell(before: seq<Cell>, start: nat, top: nat, func: Func, i: nat): Cell
    requires i < |before| && top <= |before|
  {
    if func.vararg && i == start + func.arity then Slot(RestOf(func, if i >= top then [] else ValuesOf(before[i..top])))
    else if top <= i < start + func.slotcount + FRAME_SIZE then Slot(Nil)
    else before[i]
  }

  lemma ArgsPlaced(before: seq<Cell>, data: seq<Cell>, start: nat, top: nat, func: Func)
    requires start <= top && Values(before, start, top) && func.WellFormed()
    requires |data| == |before| && start + func.slotcount + FRAME_SIZE <= |data|
    requires forall i :: 0 <= i < |data| ==> data[i] == PlacedCell(before, start, top, func, i)
    ensures Values(data, start, start + func.slotcount)
    ensures Read(data, start, start + func.slotcount) == Entered(func, Read(before, start, top))
  {
    var args := Read(before, start, top);
    if func.vararg && start + func.arity < top {
      assert ValuesOf(before[start + func.arity..top]) == args[func.arity..];
    }
    var read, entered := Read(data, start, start + func.slotcount), Entered(func, args);
    forall k | 0 <= k < func.slotcount
      ensures read[k] == entered[k]
    {
      assert data[start + k].Slot?;
    }
  }

  function ValuesOf(cells: seq<Cell>): (r: seq<Value>)
    ensures |r| == |cells| && forall i :: 0 <= i < |cells| ==> r[i] == if cells[i].Slot? then cells[i].v else Nil
  {
    seq(|cells|, i requires 0 <= i < |cells| => if cells[i].Slot? then cells[i].v else Nil)
  }

  lemma HeaderPlaced(before: seq<Cell>, args: seq<Cell>, data: seq<Cell>, frame: nat, start: nat, start': nat,
                     h: Header, envs: map<EnvId, Env>)
    requires Chain(before, frame, start) && EnvsOk(before, frame, start, envs)
    requires |data| == |args| == |before| && args[..start] == before[..start]
    requires start + FRAME_SIZE <= start' <= |data| && Values(args, start, start' - FRAME_SIZE)
    requires h.prev == frame && h.env.None?
    requires h.func.Some? ==> h.func.value.WellFormed() && start' - FRAME_SIZE - start == h.func.value.slotcount
    requires data[start - FRAME_SIZE] == Head(h)
    requires forall i :: 0 <= i < |data| && !(start - FRAME_SIZE <= i < start) ==> data[i] == args[i]
    ensures Chain(data, start, start') && EnvsOk(data, start, start', envs) && frame < start
    ensures Activations(data, start, start')
         == Activations(before, frame, start) + [Activation(h.func, Read(args, start, start' - FRAME_SIZE), None)]
    ensures forall id :: id in envs ==> EnvRead(data, envs[id]) == EnvRead(before, envs[id])
  {
    ChainBounds(before, frame, start);
    assert forall i :: 0 <= i < start ==> args[i] == args[..start][i] == before[i];
    assert Read(data, start, start' - FRAME_SIZE) == Read(args, start, start' - FRAME_SIZE);
    FrameAdded(before, data, frame, start, start', h, envs);
    SameEnvironments(before, data, frame, start, envs);
  }

  /** Changes at or above start - FRAME_SIZE leave the frames and their environments alone. */
  lemma Pushed(data: seq<Cell>, data': seq<Cell>, frame: nat, start: nat, envs: map<EnvId, Env>)
    requires Chain(data, frame, start) && EnvsOk(data, frame, start, envs) && start <= |data'|
    requires forall i :: 0 <= i < start - FRAME_SIZE ==> data'[i] == data[i]
    ensures Chain(data', frame, start) && EnvsOk(data', frame, start, envs)
    ensures Activations(data', frame, start) == Activations(data, frame, start)
    ensures forall id :: id in envs ==> EnvRead(data', envs[id]) == EnvRead(data, envs[id])
  {
    ChainFrame(data, data', frame, start);
    EnvsFrame(data, data', frame, start, envs);
    SameEnvironments(data, data', frame, start, envs);
  }

  lemma SameEnvironments(data: seq<Cell>, data': seq<Cell>, frame: nat, start: nat, envs: map<EnvId, Env>)
    requires Chain(data, frame, start) && EnvsOk(data, frame, start, envs) && start <= |data'|
    requires forall i :: 0 <= i < start - FRAME_SIZE ==> data'[i] == data[i]
    ensures forall id :: id in envs ==> EnvRead(data', envs[id]) == EnvRead(data, envs[id])
  {
    forall id | id in envs
      ensures EnvRead(data', envs[id]) == EnvRead(data, envs[id])
    {
      if envs[id].OnStack? {
        var at, length := envs[id].offset, envs[id].length;
        assert HasEnv(data, frame, start, id, at);
        EnvRegion(data, frame, start, id, at);
        assert Read(data', at, at + length) == Read(data, at, at + length);
      }
    }
  }

  /** The top frame's environment is no longer on the stack. */
  lemma EnvDropped(data: seq<Cell>, data': seq<Cell>, frame: nat, start: nat, envs: map<EnvId, Env>, e: Env)
    requires Chain(data, frame, start) && EnvsOk(data, frame, start, envs) && frame > 0
    requires data[frame - FRAME_SIZE].h.env.Some?
    requires data' == data[frame - FRAME_SIZE := Head(data[frame - FRAME_SIZE].h.(env := None))] && e.Detached?
    ensures Chain(data', frame, start) && EnvsOk(data', frame, start, envs[data[frame - FRAME_SIZE].h.env.value := e])
    ensures var top := Activations(data, frame, start)[|Activations(data, frame, start)| - 1];
            Activations(data', frame, start)
              == Activations(data, frame, start)[..|Activations(data, frame, start)| - 1] + [top.(env := None)]
    ensures forall id :: id in envs && id != data[frame - FRAME_SIZE].h.env.value ==>
            EnvRead(data', envs[id]) == EnvRead(data, envs[id])
  {
    var h := data[frame - FRAME_SIZE].h;
    var envs' := envs[h.env.value := e];
    ChainFrame(data, data', h.prev, frame);
    assert Read(data', frame, start - FRAME_SIZE) == Read(data, frame, start - FRAME_SIZE);
    forall id, at
      ensures HasEnv(data', frame, start, id, at) <==> HasEnv(data, frame, start, id, at) && id != h.env.value
    {
      HasEnvFrame(data, data', h.prev, frame, id, at);
      if HasEnv(data, h.prev, frame, id, at) {
        EnvRegion(data, h.prev, frame, id, at);
        assert HasEnv(data, frame, start, id, at) && HasEnv(data, frame, start, h.env.value, frame);
      }
    }
    DroppedEnvs(data, data', frame, start, envs, envs', h.env.value);
    forall id | id in envs && id != h.env.value {
      LowerEnvironments(data, data', frame, start, envs, id);
    }
  }

  lemma DroppedEnvs(data: seq<Cell>, data': seq<Cell>, frame: nat, start: nat, envs: map<EnvId, Env>,
                    envs': map<EnvId, Env>, gone: EnvId)
    requires Chain(data, frame, start) && Chain(data', frame, start) && EnvsOk(data, frame, start, envs) && frame > 0
    requires |data'| == |data|
    requires gone in envs' && envs'[gone].Detached? && forall id :: id != gone ==>
             ((id in envs' <==> id in envs) && (id in envs ==> envs'[id] == envs[id]))
    requires forall id, at :: HasEnv(data', frame, start, id, at) <==> HasEnv(data, frame, start, id, at) && id != gone
    requires forall i :: 0 <= i < |data| && i != frame - FRAME_SIZE ==> data'[i] == data[i]
    requires data[frame - FRAME_SIZE].h.env == Some(gone)
    ensures EnvsOk(data', frame, start, envs')
  {
    forall id, at | HasEnv(data', frame, start, id, at)
      ensures id in envs' && EnvAt(data', envs'[id], at)
    {
      assert HasEnv(data, frame, start, id, at);
      EnvRegion(data, frame, start, id, at);
      assert at != frame;
    }
  }

  /** Environments of frames below are not touched by what happens to a frame and its header. */
  lemma LowerEnvironments(data: seq<Cell>, data': seq<Cell>, frame: nat, start: nat, envs: map<EnvId, Env>, id: EnvId)
    requires Chain(data, frame, start) && EnvsOk(data, frame, start, envs) && frame > 0 && frame <= |data'|
    requires id in envs
    requires forall i :: 0 <= i < frame - FRAME_SIZE ==> data'[i] == data[i]
    requires data[frame - FRAME_SIZE].h.env != Some(id)
    ensures EnvRead(data', envs[id]) == EnvRead(data, envs[id])
  {
    if envs[id].OnStack? {
      var at, length := envs[id].offset, envs[id].length;
      assert HasEnv(data, frame, start, id, at);
      EnvRegion(data, data[frame - FRAME_SIZE].h.prev, frame, id, at);
      assert Read(data', at, at + length) == Read(data, at, at + length);
    }
  }

  /** A top frame without environment can be taken away. */
  lemma FrameDropped(data: seq<Cell>, frame: nat, start: nat, envs: map<EnvId, Env>)
    requires Chain(data, frame, start) && EnvsOk(data, frame, start, envs) && frame > 0
    requires data[frame - FRAME_SIZE].h.env.None?
    ensures var h := data[frame - FRAME_SIZE].h; Chain(data, h.prev, frame) && EnvsOk(data, h.prev, frame, envs)
  {
    var h := data[frame - FRAME_SIZE].h;
    forall id, at
      ensures HasEnv(data, frame, start, id, at) <==> HasEnv(data, h.prev, frame, id, at)
    {
    }
  }

  /** What a tail call moves down: the arguments, or the parameters including the rest parameter. */
  function TailParams(func: Func, args: seq<Value>): seq<Value> {
    if func.vararg then
      seq(func.arity + 1, k requires 0 <= k < func.arity + 1 =>
        if k == func.arity then RestOf(func, if |args| > func.arity then args[func.arity..] else [])
        else if k < |args| then args[k] else Nil)
    else args
  }

  lemma TailPlaced(before: seq<Cell>, data: seq<Cell>, start: nat, top: nat, func: Func)
    requires start <= top && Values(before, start, top) && |before| <= |data|
    requires !func.vararg ==> data == before
    requires func.vararg ==> start + func.arity < |data|
    requires func.vararg ==> forall i :: 0 <= i <= start + func.arity ==>
             data[i] == TailCell(before, start, top, func, i)
    ensures var n := if func.vararg then func.arity + 1 else top - start;
            Values(data, start, start + n) && Read(data, start, start + n) == TailParams(func, Read(before, start, top))
  {
    var args := Read(before, start, top);
    if func.vararg {
      if start + func.arity < top {
        assert ValuesOf(before[start + func.arity..top]) == args[func.arity..];
      }
      var n := func.arity + 1;
      assert forall i :: start <= i < start + n ==> data[i] == TailCell(before, start, top, func, i);
      assert Values(data, start, start + n);
      assert Read(data, start, start + n) == TailParams(func, args);
    }
  }

  function TailCell(before: seq<Cell>, start: nat, top: nat, func: Func, i: nat): Cell
    requires top <= |before|
  {
    if i == start + func.arity then Slot(RestOf(func, if i >= top then [] else ValuesOf(before[i..top])))
    else if top <= i < start + func.arity then Slot(Nil)
    else if i < |before| then before[i] else Pad
  }

  function MovedCell(cells: seq<Cell>, frame: nat, start: nat, n: nat, i: nat): Cell
    requires frame <= start && start + n <= |cells| && i < |cells|
  {
    if frame <= i < frame + n then cells[i - frame + start] else cells[i]
  }

  lemma TailMoved(arranged: seq<Cell>, moved: seq<Cell>, data: seq<Cell>, frame: nat, start: nat, n: nat, func: Func,
                  args: seq<Value>)
    requires func.WellFormed() && frame < start && start + n <= |arranged| == |moved| == |data|
    requires frame + func.slotcount <= |data|
    requires Values(arranged, start, start + n) && Read(arranged, start, start + n) == TailParams(func, args)
    requires forall i {:trigger moved[i]} :: 0 <= i < |moved| ==> moved[i] == MovedCell(arranged, frame, start, n, i)
    requires forall i {:trigger data[i]} :: 0 <= i < |data| ==>
             data[i] == if frame + n <= i < frame + func.slotcount then Slot(Nil) else moved[i]
    ensures Values(data, frame, frame + func.slotcount)
    ensures Read(data, frame, frame + func.slotcount) == TailEntered(func, args)
    ensures forall i :: 0 <= i < frame ==> data[i] == arranged[i]
  {
    var params := TailParams(func, args);
    assert forall i :: 0 <= i < frame ==> data[i] == moved[i];
    forall k | 0 <= k < func.slotcount
      ensures data[frame + k] == Slot(TailEntered(func, args)[k])
    {
      if k < n {
        assert data[frame + k] == moved[frame + k] == arranged[start + k];
        assert Read(arranged, start, start + n)[k] == params[k];
      }
    }
    assert forall i :: frame <= i < frame + func.slotcount ==> data[i] == Slot(TailEntered(func, args)[i - frame]);
  }

  /** Another function's frame in place of the top one. */
  lemma FrameReplaced(before: seq<Cell>, placed: seq<Cell>, data: seq<Cell>, frame: nat, start: nat, start': nat,
                      func: Func, envs: map<EnvId, Env>)
    requires Chain(before, frame, start) && EnvsOk(before, frame, start, envs) && frame > 0
    requires before[frame - FRAME_SIZE].h.env.None?
    requires func.WellFormed() && start' == frame + func.slotcount + FRAME_SIZE <= |data| == |placed|
    requires forall i :: 0 <= i < frame ==> placed[i] == before[i]
    requires Values(placed, frame, frame + func.slotcount)
    requires data == placed[frame - FRAME_SIZE := Head(before[frame - FRAME_SIZE].h.(func := Some(func)))]
    ensures Chain(data, frame, start') && EnvsOk(data, frame, start', envs)
    ensures Activations(data, frame, start')
         == Activations(before, frame, start)[..|Activations(before, frame, start)| - 1]
            + [Activation(Some(func), Read(placed, frame, frame + func.slotcount), None)]
    ensures forall id :: id in envs ==> EnvRead(data, envs[id]) == EnvRead(before, envs[id])
  {
    var h := before[frame - FRAME_SIZE].h;
    FrameDropped(before, frame, start, envs);
    var h' := h.(func := Some(func));
    FrameAdded(before, data, h.prev, frame, start', h', envs);
    assert Read(data, frame, start' - FRAME_SIZE) == Read(placed, frame, frame + func.slotcount);
    forall id | id in envs {
      LowerEnvironments(before, data, frame, start, envs, id);
    }
  }

  /** A top frame without environment gets one. */
  lemma EnvAdded(data: seq<Cell>, data': seq<Cell>, frame: nat, start: nat, envs: map<EnvId, Env>, id: EnvId)
    requires Chain(data, frame, start) && EnvsOk(data, frame, start, envs) && frame > 0 && id !in envs
    requires data[frame - FRAME_SIZE].h.env.None? && data[frame - FRAME_SIZE].h.func.Some?
    requires data' == data[frame - FRAME_SIZE := Head(data[frame - FRAME_SIZE].h.(env := Some(id)))]
    ensures var envs' := envs[id := OnStack(frame, data[frame - FRAME_SIZE].h.func.value.slotcount)];
            && Chain(data', frame, start) && EnvsOk(data', frame, start, envs')
            && EnvRead(data', envs'[id]) == Read(data, frame, start - FRAME_SIZE)
    ensures var top := Activations(data, frame, start)[|Activations(data, frame, start)| - 1];
            Activations(data', frame, start)
              == Activations(data, frame, start)[..|Activations(data, frame, start)| - 1] + [top.(env := Some(id))]
    ensures forall other :: other in envs ==> EnvRead(data', envs[other]) == EnvRead(data, envs[other])
  {
    var h := data[frame - FRAME_SIZE].h;
    ChainFrame(data, data', h.prev, frame);
    assert Read(data', frame, start - FRAME_SIZE) == Read(data, frame, start - FRAME_SIZE);
    forall other, at
      ensures HasEnv(data', frame, start, other, at)
              <==> HasEnv(data, frame, start, other, at) || (other == id && at == frame)
    {
      HasEnvFrame(data, data', h.prev, frame, other, at);
    }
    AddedEnvs(data, data', frame, start, envs, id);
    forall other | other in envs {
      LowerEnvironments(data, data', frame, start, envs, other);
    }
  }

  lemma AddedEnvs(data: seq<Cell>, data': seq<Cell>, frame: nat, start: nat, envs: map<EnvId, Env>, id: EnvId)
    requires Chain(data, frame, start) && Chain(data', frame, start) && EnvsOk(data, frame, start, envs) && frame > 0
    requires id !in envs
    requires data[frame - FRAME_SIZE].h.env.None? && data[frame - FRAME_SIZE].h.func.Some?
    requires data' == data[frame - FRAME_SIZE := Head(data[frame - FRAME_SIZE].h.(env := Some(id)))]
    requires forall other, at ::
               HasEnv(data', frame, start, other, at)
               <==> HasEnv(data, frame, start, other, at) || (other == id && at == frame)
    ensures EnvsOk(data', frame, start, envs[id := OnStack(frame, data[frame - FRAME_SIZE].h.func.value.slotcount)])
  {
    var envs' := envs[id := OnStack(frame, data[frame - FRAME_SIZE].h.func.value.slotcount)];
    forall other, at | HasEnv(data', frame, start, other, at)
      ensures other in envs' && EnvAt(data', envs'[other], at)
    {
      if HasEnv(data, frame, start, other, at) {
        EnvRegion(data, frame, start, other, at);
      }
    }
  }

  /** An environment after a write to the top frame: it is that frame, or it is unchanged. */
  ghost predicate SetRead(data: seq<Cell>, data': seq<Cell>, frame: nat, start: nat, e: Env, ofTop: bool)
    requires Chain(data', frame, start) && frame > 0
  {
    EnvRead(data', e) == if ofTop then Read(data', frame, start - FRAME_SIZE) else EnvRead(data, e)
  }

  lemma SlotSet(data: seq<Cell>, data': seq<Cell>, frame: nat, start: nat, envs: map<EnvId, Env>, k: nat, v: Value)
    requires Chain(data, frame, start) && EnvsOk(data, frame, start, envs) && frame > 0
    requires k < start - FRAME_SIZE - frame
    requires data' == data[frame + k := Slot(v)]
    ensures Chain(data', frame, start) && EnvsOk(data', frame, start, envs)
    ensures var top := Activations(data, frame, start)[|Activations(data, frame, start)| - 1];
            && Activations(data', frame, start)
               == Activations(data, frame, start)[..|Activations(data, frame, start)| - 1]
                 + [top.(slots := top.slots[k := v])]
            && forall id :: id in envs ==> SetRead(data, data', frame, start, envs[id], top.env == Some(id))
  {
    var h := data[frame - FRAME_SIZE].h;
    ChainFrame(data, data', h.prev, frame);
    assert Read(data', frame, start - FRAME_SIZE) == Read(data, frame, start - FRAME_SIZE)[k := v];
    forall id, at
      ensures HasEnv(data', frame, start, id, at) <==> HasEnv(data, frame, start, id, at)
    {
      HasEnvFrame(data, data', h.prev, frame, id, at);
    }
    SetEnvs(data, data', frame, start, envs, k, v);
  }

  lemma SetEnvs(data: seq<Cell>, data': seq<Cell>, frame: nat, start: nat, envs: map<EnvId, Env>, k: nat, v: Value)
    requires Chain(data, frame, start) && Chain(data', frame, start) && EnvsOk(data, frame, start, envs) && frame > 0
    requires k < start - FRAME_SIZE - frame && data' == data[frame + k := Slot(v)]
    requires Read(data', frame, start - FRAME_SIZE) == Read(data, frame, start - FRAME_SIZE)[k := v]
    requires forall id, at :: HasEnv(data', frame, start, id, at) <==> HasEnv(data, frame, start, id, at)
    ensures EnvsOk(data', frame, start, envs)
    ensures forall id :: id in envs ==>
            SetRead(data, data', frame, start, envs[id], data[frame - FRAME_SIZE].h.env == Some(id))
  {
    forall id, at | HasEnv(data', frame, start, id, at)
      ensures id in envs && EnvAt(data', envs[id], at)
    {
      assert HasEnv(data, frame, start, id, at);
      EnvRegion(data, frame, start, id, at);
    }
    forall id | id in envs
      ensures SetRead(data, data', frame, start, envs[id], data[frame - FRAME_SIZE].h.env == Some(id))
    {
      if data[frame - FRAME_SIZE].h.env == Some(id) {
        assert HasEnv(data, frame, start, id, frame);
      } else {
        LowerEnvironments(data, data', frame, start, envs, id);
      }
    }
  }
}
