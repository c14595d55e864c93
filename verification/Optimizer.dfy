/** The compiler's two clean-up passes together: dead writes out, then noops out. */
module Optimizer {
  import opened Options
  import opened Bytecode
  import opened Machine
  import opened Verifier
  import opened NoopRemoval
  import opened NoopSemantics
  import opened MovOpt
  import opened FuncDefs
  import opened Runs

  // Acceptance

  lemma ErasedFaultFree(frame: Frame, length: nat, at: nat)
    ensures InstructionFault(frame, length, at, Decode(NOOP)) == 0
  {
    DecodeNoop(NOOP);
  }

  lemma LastNotErased(def: Def, def': Def)
    requires Verified(def) && PrunedDef(def, def')
    ensures |def'.code| == |def.code| && def'.code[|def.code| - 1] == def.code[|def.code| - 1]
  {
    var last := |def.code| - 1;
    LastDecodes(def.code[last]);
    DecodeNoop(NOOP);
    NotErased(def.frame, DecodeAll(def.code), DecodeAll(def'.code), last);
  }

  lemma NotErased(frame: Frame, code: seq<Instruction>, code': seq<Instruction>, k: nat)
    requires Pruned(frame, code, code') && k < |code| && Last(code[k]) && !code[k].op.Noop?
    ensures |code'| == |code| && code'[k] == code[k]
  {
  }

  lemma LastPruned(def: Def, def': Def)
    requires Verified(def) && PrunedDef(def, def')
    ensures |def'.code| == |def.code| > 0 && GoodLast(def')
  {
    LastNotErased(def, def');
  }

  lemma PrunedFaultFree(def: Def, def': Def, k: nat)
    requires Verified(def) && PrunedDef(def, def') && k < |def'.code| == |def.code|
    ensures FaultAt(def', k) == 0
  {
    assert FaultAt(def, k) == 0;
    ErasedFaultFree(def.frame, |def.code|, k);
  }

  /** Pruning accepted code leaves accepted code. */
  lemma PrunedVerified(def: Def, def': Def)
    requires Verified(def) && PrunedDef(def, def')
    ensures Verified(def')
  {
    LastPruned(def, def');
    forall k | 0 <= k < |def'.code|
      ensures FaultAt(def', k) == 0
    {
      PrunedFaultFree(def, def', k);
    }
    forall k | 0 <= k < |def'.symbols|
      ensures SymbolFault(def', def'.symbols[k]) == 0
    {
      assert SymbolFault(def, def.symbols[k]) == 0;
    }
  }

  lemma PrunedCompactable(def: Def, def': Def)
    requires Compactable(def) && PrunedDef(def, def')
    ensures Compactable(def')
  {
    DecodeNoop(NOOP);
    forall k | 0 <= k < |def'.code|
      ensures 0 <= Target(k, Decode(def'.code[k])) < |def'.code|
    {
    }
  }

  // Behaviour

  /** No observer of pushes, events and results can tell the states apart. */
  ghost predicate Indistinguishable(s: State, s': State) {
    if s.Running? && s'.Running? then s'.args == s.args && s'.trace == s.trace else s' == s
  }

  /** Every state of a run of the original is matched by the optimized definition, as long as no
      instruction that was deleted faults on the way. */
  lemma OptimizedForward(def: Def, def': Def, world: World, s: State, n: nat) returns (m: nat)
    requires Verified(def) && Compactable(def) && PrunedDef(def, def') && Entry(def, s)
    requires NoDeletedFault(def, def', world, s, n)
    ensures Verified(def') && Compactable(def')
    ensures Indistinguishable(Run(def, world, s, n), Run(WithoutNoops(def'), world, s, m))
  {
    PrunedVerified(def, def');
    PrunedCompactable(def, def');
    PrunedLockstep(def, def', world, s, n);
    m := NoopsForward(def', world, s, n);
  }

  /** Every state of a run of the optimized definition comes from the original. */
  lemma OptimizedBackward(def: Def, def': Def, world: World, s: State, m: nat) returns (n: nat)
    requires Verified(def) && Compactable(def) && PrunedDef(def, def') && Entry(def, s)
    ensures Verified(def') && Compactable(def')
    ensures NoDeletedFault(def, def', world, s, n) ==>
              Indistinguishable(Run(def, world, s, n), Run(WithoutNoops(def'), world, s, m))
  {
    PrunedVerified(def, def');
    PrunedCompactable(def, def');
    n := NoopsBackward(def', world, s, m);
    PrunedLockstep(def, def', world, s, n);
  }

  /** The optimized definition is still accepted. */
  lemma OptimizedVerified(def: Def, def': Def)
    requires Verified(def) && Compactable(def) && PrunedDef(def, def')
    ensures Compactable(def') && Verified(WithoutNoops(def'))
  {
    PrunedVerified(def, def');
    PrunedCompactable(def, def');
    WithoutNoopsVerified(def');
  }

  /** Both passes in the order the compiler runs them. */
  method Optimize(f: FuncDef) returns (ghost pruned: Def)
    requires Verified(f.Value()) && Compactable(f.Value())
    modifies f
    ensures PrunedDef(old(f.Value()), pruned) && Settled(pruned.frame, DecodeAll(pruned.code))
    ensures Compactable(pruned) && f.Value() == WithoutNoops(pruned) && Verified(f.Value())
  {
    ghost var def := f.Value();
    VerifiedSound(def);
    f.MovOpt();
    pruned := f.Value();
    OptimizedVerified(def, pruned);
    f.RemoveNoops();
  }

  // Why the condition is there

  const GET_INDEX_1_0_0: Word := 0x0000_013D // get-index of slot 0 at 0 into slot 1
  const RETURN_NIL: Word := 4

  /** A function that reads an element of its argument, ignores it, and returns nil. */
  function IgnoredRead(): Def {
    Def([GET_INDEX_1_0_0, RETURN_NIL], Frame(2, 0, 0, 0, None), 1, false, [], None)
  }

  function NothingIndexable(): World {
    World(Nil, c => Nil, (d, t) => Nil, (e, v, t) => None, (x, i, t) => None, (x, t) => None, t => Stop(Nil))
  }

  lemma IgnoredReadDecodes()
    ensures Decode(GET_INDEX_1_0_0).(d := 0, e := 0, ds := 0, es := 0) == Instruction(GetIndex, 1, 0, 0, 0, 0, 0, 0)
    ensures Decode(RETURN_NIL).op == ReturnNil && Decode(NOOP).op == Noop
  {
    assert OpcodeOf(61) == GetIndex && OpcodeOf(4) == ReturnNil;
    DecodeNoop(NOOP);
  }

  lemma IgnoredReadVerified()
    ensures Verified(IgnoredRead())
  {
    IgnoredReadDecodes();
    var def := IgnoredRead();
    assert FaultAt(def, 0) == 0 && FaultAt(def, 1) == 0;
  }

  lemma IgnoredReadDead(code: seq<Instruction>)
    requires code == [Decode(GET_INDEX_1_0_0), Decode(RETURN_NIL)]
    ensures Dead(IgnoredRead().frame, code, code[0])
  {
    IgnoredReadDecodes();
    assert Touched(code[0]) == {0} && Touched(code[1]) == {};
  }

  /** The passes do delete the read. */
  lemma IgnoredReadDeleted(pruned: Def)
    requires PrunedDef(IgnoredRead(), pruned) && Settled(pruned.frame, DecodeAll(pruned.code))
    ensures pruned.code == [NOOP, RETURN_NIL]
  {
    IgnoredReadVerified();
    LastNotErased(IgnoredRead(), pruned);
    IgnoredReadDecodes();
    if pruned.code[0] == GET_INDEX_1_0_0 {
      IgnoredReadDead(DecodeAll(pruned.code));
      SettledExactly(pruned.frame, DecodeAll(pruned.code));
      assert false;
    }
  }

  lemma IgnoredReadCompacted(pruned: Def)
    requires PrunedDef(IgnoredRead(), pruned) && Settled(pruned.frame, DecodeAll(pruned.code))
    ensures Compactable(pruned) && WithoutNoops(pruned).code == [RETURN_NIL]
  {
    IgnoredReadDeleted(pruned);
    IgnoredReadDecodes();
    var code := pruned.code;
    assert Number(code[0]) == 0 && Number(code[1]) != 0;
    assert PcMap(code, 1) == 0 && PcMap(code, 2) == 1;
    CompactEnd(code);
  }

  lemma OneStep(def: Def, world: World, s: State)
    ensures Run(def, world, s, 1) == Step(DecodeAll(def.code), def.frame, world, s)
  {
    var f := Stepper(DecodeAll(def.code), def.frame, world);
    assert Iterate(f, s, 1) == f(Iterate(f, s, 0)) == f(s);
  }

  lemma IgnoredReadFaults(s: State)
    requires Entry(IgnoredRead(), s)
    ensures Run(IgnoredRead(), NothingIndexable(), s, 1) == Halted(Outcome.Fault, map[], s.trace)
  {
    IgnoredReadDecodes();
    OneStep(IgnoredRead(), NothingIndexable(), s);
  }

  lemma ReturnNilSteps(frame: Frame, world: World, s: State, i: Instruction)
    requires s.Running? && i.op.ReturnNil? && frame.closureBits.None?
    ensures InBounds(frame, i, |s.regs|) && Execute(frame, world, s, i) == Halted(Returned(Nil), map[], s.trace)
  {
  }

  /** The passes are not transparent to code whose ignored reads fail: the function above raises
      on an argument that cannot be indexed, and its optimized form returns nil. */
  lemma IgnoredReadDiffers(pruned: Def, s: State)
    requires PrunedDef(IgnoredRead(), pruned) && Settled(pruned.frame, DecodeAll(pruned.code))
    requires Entry(IgnoredRead(), s)
    ensures Run(IgnoredRead(), NothingIndexable(), s, 1) == Halted(Outcome.Fault, map[], s.trace)
    ensures Compactable(pruned) && WithoutNoops(pruned).code == [RETURN_NIL]
    ensures Run(WithoutNoops(pruned), NothingIndexable(), s, 1) == Halted(Returned(Nil), map[], s.trace)
  {
    IgnoredReadFaults(s);
    IgnoredReadCompacted(pruned);
    IgnoredReadDecodes();
    var shipped := WithoutNoops(pruned);
    OneStep(shipped, NothingIndexable(), s);
    ReturnNilSteps(shipped.frame, NothingIndexable(), s, Decode(RETURN_NIL));
  }
}
