/** Calling a definition that the verifier accepts: the frame that the fiber makes for it is one that its
    code can run in. */
module Calls {
  import opened Options
  import opened Bytecode
  import opened Machine
  import opened Verifier
  import FiberStack

  /** The function that belongs to a definition, as far as a call is concerned. */
  function FuncOf(def: Def, minArity: nat, maxArity: nat, structarg: bool): FiberStack.Func
    requires def.arity >= 0
  {
    FiberStack.Func(def.frame.slotcount, def.arity, minArity, maxArity, def.vararg, structarg, def.frame.closureBits)
  }

  /** Acceptance is what a call asks for: the parameters, the rest parameter included, have slots. */
  lemma AcceptedCallable(def: Def, minArity: nat, maxArity: nat, structarg: bool)
    requires Verified(def) && def.WellFormed() && def.arity >= 0
    ensures FuncOf(def, minArity, maxArity, structarg).WellFormed()
  {
  }

  /** Without a slot for each of them there is no call, and the verifier says so. */
  lemma CallableNeedsSlots(def: Def, minArity: nat, maxArity: nat, structarg: bool)
    requires def.arity >= 0 && FuncOf(def, minArity, maxArity, structarg).WellFormed()
    ensures GoodArity(def)
  {
  }

  /** The slots that a frame keeps for closures when it goes away are those that the interpreter shares with them;
      without a bitset all are kept. */
  lemma SameCaptures(def: Def, minArity: nat, maxArity: nat, structarg: bool, slot: nat)
    requires def.arity >= 0
    ensures FuncOf(def, minArity, maxArity, structarg).Captures(slot)
       <==> def.frame.CapturedSlot(slot) || (def.frame.closureBits.None? && slot < def.frame.slotcount)
  {
  }

  /** The interpreter at the start of a call, when the slots stand for these values. */
  function Started(slots: seq<FiberStack.Value>, meaning: FiberStack.Value -> Value, trace: Trace): State {
    Running(0, seq(|slots|, k requires 0 <= k < |slots| => meaning(slots[k])), [], trace)
  }

  /** However the surroundings answer, a run from these slots never leaves its bounds. */
  ghost predicate RunsSafely(def: Def, slots: seq<FiberStack.Value>) {
    forall meaning, trace, world, n: nat ::
      InCode(|def.code|, def.frame, Run(def, world, Started(slots, meaning, trace), n))
  }

  lemma SlotsRunSafely(def: Def, slots: seq<FiberStack.Value>)
    requires Verified(def) && |slots| == def.frame.slotcount
    ensures RunsSafely(def, slots)
  {
    forall meaning, trace, world, n: nat
      ensures InCode(|def.code|, def.frame, Run(def, world, Started(slots, meaning, trace), n))
    {
      VerifiedRunsSafely(def, world, Started(slots, meaning, trace), n);
    }
  }

  /** Calls an accepted definition, or replaces the top frame by it: unless the number of arguments is wrong, its
      code gets all of them and runs within its bounds, whatever happens. */
  method Call(fiber: FiberStack.Fiber, def: Def, minArity: nat, maxArity: nat, structarg: bool, tail: bool)
    returns (failed: bool)
    requires fiber.Valid() && Verified(def) && def.WellFormed() && def.arity >= 0 && (tail ==> fiber.frame > 0)
    modifies fiber
    ensures fiber.Valid() && failed == !(minArity <= |old(fiber.Args())| <= maxArity)
    ensures !failed ==>
              var func, callers := FuncOf(def, minArity, maxArity, structarg),
                if tail then old(fiber.Stack())[..|old(fiber.Stack())| - 1] else old(fiber.Stack());
              && |fiber.Stack()| == |callers| + 1 && fiber.Stack()[..|callers|] == callers && fiber.Args() == []
              && var slots := fiber.Stack()[|callers|].slots;
              && FiberStack.Receives(func, old(fiber.Args()), slots, tail) && RunsSafely(def, slots)
  {
    var func := FuncOf(def, minArity, maxArity, structarg);
    AcceptedCallable(def, minArity, maxArity, structarg);
    if tail {
      failed := fiber.FuncFrameTail(func);
    } else {
      failed := fiber.FuncFrame(func);
    }
    if !failed {
      SlotsRunSafely(def, fiber.Stack()[|fiber.Stack()| - 1].slots);
    }
  }
}
