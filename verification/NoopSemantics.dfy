/** Compacted code runs like the code it came from, with the steps on noops left out. */
module NoopSemantics {
  import opened Bytecode
  import opened Machine
  import opened Verifier
  import opened NoopRemoval
  import opened Runs

  /** The compacted program's view of a state: only the pc differs. */
  ghost function Moved(pcs: seq<nat>, s: State): State {
    if s.Running? && 0 <= s.pc < |pcs| then s.(pc := pcs[s.pc]) else s
  }

  ghost predicate AtNoop(code: seq<Instruction>, s: State) {
    s.Running? && 0 <= s.pc < |code| && code[s.pc].op.Noop?
  }

  /** Only a branch looks at the pc. */
  lemma ExecuteElsewhere(frame: Frame, world: World, s: State, p: int, i: Instruction)
    requires s.Running? && InBounds(frame, i, |s.regs|) && !ClassOf(i.op).Branch?
    ensures var t := Execute(frame, world, s, i);
            && (t.Running? ==> t.pc == s.pc + 1)
            && Execute(frame, world, s.(pc := p), i) == if t.Running? then t.(pc := p + 1) else t
  {
  }

  lemma BranchTo(frame: Frame, world: World, s: State, i: Instruction)
    requires s.Running? && InBounds(frame, i, |s.regs|) && (i.op.Jump? || ConditionalJump(i.op))
    ensures Execute(frame, world, s, i) == s.(pc := s.pc + Offset(i, Read(s.regs, Operands(i))))
  {
  }

  lemma RedirectedOffset(i: Instruction, i': Instruction, delta: int, regs: seq<Value>)
    requires (i.op.Jump? || ConditionalJump(i.op)) && Redirected(i, i', delta)
    ensures Operands(i') == Operands(i)
    ensures var vs := Read(regs, Operands(i));
            || (Offset(i, vs) == 1 && Offset(i', vs) == 1)
            || (Offset(i, vs) == Target(0, i) && Offset(i', vs) == Offset(i, vs) + delta)
  {
  }

  /** An instruction and its redirected form do the same, up to the pc. */
  ghost predicate Parallel(pcs: seq<nat>, frame: Frame, world: World, s: State, i: Instruction, i': Instruction)
    requires s.Running? && InBounds(frame, i, |s.regs|)
  {
    && InBounds(frame, i', |s.regs|)
    && Execute(frame, world, Moved(pcs, s), i') == Moved(pcs, Execute(frame, world, s, i))
  }

  lemma BranchParallel(pcs: seq<nat>, frame: Frame, world: World, s: State, i: Instruction, i': Instruction, delta: int)
    requires s.Running? && 0 <= s.pc < |pcs| - 1 && pcs[s.pc + 1] == pcs[s.pc] + 1
    requires (i.op.Jump? || ConditionalJump(i.op)) && InBounds(frame, i, |s.regs|) && Redirected(i, i', delta)
    requires 0 <= Target(s.pc, i) < |pcs| - 1 && pcs[s.pc] + Target(0, i) + delta == pcs[Target(s.pc, i)]
    ensures Parallel(pcs, frame, world, s, i, i')
  {
    RedirectedOffset(i, i', delta, s.regs);
    BranchTo(frame, world, s, i);
    BranchTo(frame, world, Moved(pcs, s), i');
  }

  lemma KeptParallel(code: seq<Instruction>, code': seq<Instruction>, pcs: seq<nat>, frame: Frame, world: World,
                     s: State)
    requires Compacted(code, code', pcs) && s.Running? && 0 <= s.pc < |code|
    requires !code[s.pc].op.Noop? && InBounds(frame, code[s.pc], |s.regs|)
    ensures pcs[s.pc] < |code'| && Parallel(pcs, frame, world, s, code[s.pc], code'[pcs[s.pc]])
    ensures code'[pcs[s.pc]].op == code[s.pc].op
  {
    var i := code[s.pc];
    assert CompactedAt(code, code', pcs, s.pc);
    var i' := code'[pcs[s.pc]];
    if i.op.Jump? || ConditionalJump(i.op) {
      var target := Target(s.pc, i);
      BranchParallel(pcs, frame, world, s, i, i', pcs[target] - target + (s.pc - pcs[s.pc]));
    } else {
      ExecuteElsewhere(frame, world, s, pcs[s.pc], i);
    }
  }

  lemma NoopStep(code: seq<Instruction>, frame: Frame, world: World, s: State)
    requires AtNoop(code, s)
    ensures Step(code, frame, world, s) == s.(pc := s.pc + 1)
  {
  }

  /** One step of the original is one step of the compacted code, or none. */
  lemma StepMoved(code: seq<Instruction>, code': seq<Instruction>, pcs: seq<nat>, frame: Frame, world: World, s: State)
    requires Compacted(code, code', pcs) && Sound(code, frame) && InCode(|code|, frame, s)
    ensures Moved(pcs, Step(code, frame, world, s))
         == if AtNoop(code, s) then Moved(pcs, s) else Step(code', frame, world, Moved(pcs, s))
  {
    if AtNoop(code, s) {
      NoopStep(code, frame, world, s);
    } else if s.Running? {
      FaultFreeInBounds(frame, |code|, s.pc, code[s.pc]);
      KeptParallel(code, code', pcs, frame, world, s);
    }
  }

  lemma StepperMoved(code: seq<Instruction>, code': seq<Instruction>, pcs: seq<nat>, frame: Frame, world: World)
    requires Compacted(code, code', pcs) && Sound(code, frame)
    ensures Stutters(Stepper(code, frame, world), Stepper(code', frame, world),
                     s => Moved(pcs, s), s => AtNoop(code, s), s => InCode(|code|, frame, s))
  {
    forall s | InCode(|code|, frame, s)
      ensures Moved(pcs, Stepper(code, frame, world)(s))
           == if AtNoop(code, s) then Moved(pcs, s) else Stepper(code', frame, world)(Moved(pcs, s))
    {
      StepMoved(code, code', pcs, frame, world, s);
    }
  }

  ghost function ToEnd(length: nat, s: State): nat {
    if s.Running? && 0 <= s.pc <= length then length - s.pc else 0
  }

  lemma NoopsRunOut(code: seq<Instruction>, frame: Frame, world: World)
    ensures forall s :: InCode(|code|, frame, s) && AtNoop(code, s) ==>
      ToEnd(|code|, Stepper(code, frame, world)(s)) < ToEnd(|code|, s)
  {
    forall s | InCode(|code|, frame, s) && AtNoop(code, s)
      ensures ToEnd(|code|, Stepper(code, frame, world)(s)) < ToEnd(|code|, s)
    {
      NoopStep(code, frame, world, s);
    }
  }

  /** Every state the original reaches is reached by the compacted code. */
  lemma NoopsForward(def: Def, world: World, s: State, n: nat) returns (m: nat)
    requires Verified(def) && Compactable(def) && Entry(def, s)
    ensures Run(WithoutNoops(def), world, s, m) == Moved(PcMaps(def.code), Run(def, world, s, n))
  {
    var code, code', pcs := DecodeAll(def.code), DecodeAll(Compact(def.code)), PcMaps(def.code);
    VerifiedSound(def);
    CompactDecodes(def.code);
    StepperSafe(code, def.frame, world);
    StepperMoved(code, code', pcs, def.frame, world);
    var f, f' := Stepper(code, def.frame, world), Stepper(code', def.frame, world);
    m := Moves(f, s => AtNoop(code, s), s, n);
    StutterForward(f, f', s => Moved(pcs, s), s => AtNoop(code, s), s => InCode(|code|, def.frame, s), s, n);
  }

  /** Every state the compacted code reaches is reached by the original. */
  lemma NoopsBackward(def: Def, world: World, s: State, m: nat) returns (n: nat)
    requires Verified(def) && Compactable(def) && Entry(def, s)
    ensures Run(WithoutNoops(def), world, s, m) == Moved(PcMaps(def.code), Run(def, world, s, n))
  {
    var code, code', pcs := DecodeAll(def.code), DecodeAll(Compact(def.code)), PcMaps(def.code);
    VerifiedSound(def);
    CompactDecodes(def.code);
    StepperSafe(code, def.frame, world);
    StepperMoved(code, code', pcs, def.frame, world);
    NoopsRunOut(code, def.frame, world);
    var f, f' := Stepper(code, def.frame, world), Stepper(code', def.frame, world);
    n := MovesReached(f, s => AtNoop(code, s), s => InCode(|code|, def.frame, s), s => ToEnd(|code|, s), s, m);
    StutterForward(f, f', s => Moved(pcs, s), s => AtNoop(code, s), s => InCode(|code|, def.frame, s), s, n);
  }
}
