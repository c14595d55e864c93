/** Dead-write elimination: what janet_bytecode_movopt may turn into noops, and why the
    program cannot tell. */
module MovOpt {
  import opened Options
  import opened Regalloc
  import opened Bytecode
  import opened Machine
  import opened Verifier
  import opened Runs

  /** The slots the pass marks as used by an instruction. */
  function Touched(i: Instruction): set<nat> {
    match i.op
    case Jump | Noop | ReturnNil | LoadInteger | LoadConstant | LoadUpvalue | Closure
         | LoadNil | LoadTrue | LoadFalse | LoadSelf | Unknown => {}
    case MakeArray | MakeBuffer | MakeString | MakeStruct | MakeTable | MakeTuple
         | MakeBracketTuple => {i.d}
    case ErrorOp | Typecheck | JumpIf | JumpIfNot | JumpIfNil | JumpIfNotNil | SetUpvalue
         | MoveFar => {i.a}
    case Signal | AddImmediate | SubtractImmediate | MultiplyImmediate | DivideImmediate
         | ShiftLeftImmediate | ShiftRightImmediate | ShiftRightUnsignedImmediate
         | GreaterThanImmediate | LessThanImmediate | EqualsImmediate | NotEqualsImmediate
         | GetIndex => {i.b}
    case Return | Push | PushArray | Tailcall => {i.d}
    case MoveNear | Length | Bnot | Call => {i.e}
    case PutIndex => {i.a, i.b}
    case Push2 => {i.a, i.e}
    case Propagate | Band | Bor | Bxor | Add | Subtract | Multiply | Divide | DivideFloor | Modulo
         | Remainder | ShiftLeft | ShiftRight | ShiftRightUnsigned | GreaterThan | LessThan | Equals
         | Compare | In | Get | GreaterThanEqual | LessThanEqual | NotEquals | Cancel | Resume
         | Next => {i.b, i.c}
    case Put | Push3 => {i.a, i.b, i.c}
  }

  /** The written slot that decides whether the pass may delete an instruction. */
  function Deletable(i: Instruction): Option<nat> {
    match i.op
    case LoadNil | LoadTrue | LoadFalse | LoadSelf | MakeArray | MakeTuple | MakeBracketTuple => Some(i.d)
    case MoveFar => Some(i.e)
    case MoveNear | GetIndex | LoadInteger | LoadConstant | LoadUpvalue | Closure => Some(i.a)
    case _ => None
  }

  ghost predicate TouchedBelow(code: seq<Instruction>, n: nat, slot: nat)
    requires n <= |code|
  {
    exists k :: 0 <= k < n && slot in Touched(code[k])
  }

  /** A slot whose value may matter: captured by a closure, read by some instruction, or one of
      the registers the bitset always holds. */
  ghost predicate Live(frame: Frame, code: seq<Instruction>, slot: nat) {
    Reserved(slot) || frame.CapturedSlot(slot) || TouchedBelow(code, |code|, slot)
  }

  ghost predicate Dead(frame: Frame, code: seq<Instruction>, i: Instruction) {
    Deletable(i).Some? && !Live(frame, code, Deletable(i).value)
  }

  /** code' is code with some instructions turned into noops, each a load or move into a slot
      that does not matter in code'. */
  ghost predicate Pruned(frame: Frame, code: seq<Instruction>, code': seq<Instruction>) {
    && |code'| == |code|
    && forall k :: 0 <= k < |code| ==> code'[k] == code[k] || Erased(frame, code', code[k], code'[k])
  }

  ghost predicate Erased(frame: Frame, code': seq<Instruction>, i: Instruction, i': Instruction) {
    i' == Decode(NOOP) && ClassOf(i.op).Load? && !Live(frame, code', Dest(i).value)
  }

  /** No load, move, closure or index read into a slot that does not matter is left. */
  ghost predicate Settled(frame: Frame, code: seq<Instruction>) {
    forall k :: 0 <= k < |code| && ClassOf(code[k].op).Load? ==> Live(frame, code, Dest(code[k]).value)
  }

  // The analysis

  /** What counts as used is what the interpreter reads, and the result of an operation that takes the pushed
      arguments and makes something of them. */
  lemma OperandsTouched(i: Instruction)
    ensures forall o: nat :: o in Touched(i)
              <==> o in Operands(i) || (ConsumesArgs(i.op) && !i.op.Call? && Dest(i) == Some(o))
  {
    forall o: nat
      ensures o in Touched(i) <==> o in Operands(i) || (ConsumesArgs(i.op) && !i.op.Call? && Dest(i) == Some(o))
    {
      if ClassOf(i.op).Effect? {
        EffectTouched(i, o);
      } else {
        PlainTouched(i, o);
      }
    }
  }

  lemma EffectTouched(i: Instruction, o: nat)
    requires ClassOf(i.op).Effect?
    ensures o in Touched(i) <==> o in Operands(i) || (ConsumesArgs(i.op) && !i.op.Call? && Dest(i) == Some(o))
  {
  }

  lemma PlainTouched(i: Instruction, o: nat)
    requires !ClassOf(i.op).Effect?
    ensures o in Touched(i) <==> o in Operands(i)
    ensures !ConsumesArgs(i.op)
  {
  }

  /** A dead instruction is a load or move: the constructors that could also be deleted touch
      their own destination. */
  lemma DeadIsLoad(i: Instruction)
    requires Deletable(i).Some? && Deletable(i).value !in Touched(i)
    ensures ClassOf(i.op).Load? && Dest(i) == Deletable(i)
  {
  }

  /** An instruction of the code is dead exactly if it is a load, move, closure or index read into a slot that
      does not matter. */
  lemma DeadExactly(frame: Frame, code: seq<Instruction>, k: nat)
    requires k < |code|
    ensures Dead(frame, code, code[k]) <==> ClassOf(code[k].op).Load? && !Live(frame, code, Dest(code[k]).value)
  {
    if Dead(frame, code, code[k]) {
      assert !TouchedBelow(code, |code|, Deletable(code[k]).value);
      DeadIsLoad(code[k]);
    }
  }

  lemma SettledExactly(frame: Frame, code: seq<Instruction>)
    ensures Settled(frame, code) <==> forall k :: 0 <= k < |code| ==> !Dead(frame, code, code[k])
  {
    forall k | 0 <= k < |code|
      ensures Dead(frame, code, code[k]) <==> ClassOf(code[k].op).Load? && !Live(frame, code, Dest(code[k]).value)
    {
      DeadExactly(frame, code, k);
    }
  }

  lemma NoopTouchesNothing()
    ensures Decode(NOOP).op == Noop && Touched(Decode(NOOP)) == {}
  {
    DecodeNoop(NOOP);
  }

  /** Deleting instructions only shrinks the set of slots that matter. */
  lemma LiveShrinks(frame: Frame, code: seq<Instruction>, code': seq<Instruction>, slot: nat)
    requires |code'| == |code| && forall k :: 0 <= k < |code| ==> code'[k] == code[k] || code'[k] == Decode(NOOP)
    requires Live(frame, code', slot)
    ensures Live(frame, code, slot)
  {
    NoopTouchesNothing();
    if TouchedBelow(code', |code'|, slot) {
      var k :| 0 <= k < |code'| && slot in Touched(code'[k]);
      assert slot in Touched(code[k]);
    }
  }

  /** One round of deletions extends what was deleted before. */
  lemma PrunedRound(frame: Frame, code0: seq<Instruction>, code: seq<Instruction>, code': seq<Instruction>)
    requires Pruned(frame, code0, code) && |code'| == |code|
    requires forall k :: 0 <= k < |code| ==>
               code'[k] == code[k] || (code'[k] == Decode(NOOP) && Dead(frame, code, code[k]))
    ensures Pruned(frame, code0, code')
  {
    forall k | 0 <= k < |code|
      ensures code'[k] == code0[k] || Erased(frame, code', code0[k], code'[k])
    {
      if code[k] == code0[k] {
        if code'[k] != code[k] {
          assert !TouchedBelow(code, |code|, Deletable(code[k]).value);
          DeadIsLoad(code[k]);
          if Live(frame, code', Dest(code[k]).value) {
            LiveShrinks(frame, code, code', Dest(code[k]).value);
          }
        }
      } else {
        NoopTouchesNothing();
        assert code'[k] == code[k];
        if Live(frame, code', Dest(code0[k]).value) {
          LiveShrinks(frame, code, code', Dest(code0[k]).value);
        }
      }
    }
  }

  // Lockstep

  /** Slots that matter hold the same values. */
  ghost predicate Agree(frame: Frame, code: seq<Instruction>, regs: seq<Value>, regs': seq<Value>) {
    |regs'| == |regs| && forall o :: 0 <= o < |regs| && Live(frame, code, o) ==> regs'[o] == regs[o]
  }

  /** States the program cannot tell apart. */
  ghost predicate Alike(frame: Frame, code: seq<Instruction>, s: State, s': State) {
    if s.Running? && s'.Running? then
      s'.pc == s.pc && s'.args == s.args && s'.trace == s.trace && Agree(frame, code, s.regs, s'.regs)
    else s' == s
  }

  lemma AgreeReads(frame: Frame, code: seq<Instruction>, k: nat, regs: seq<Value>, regs': seq<Value>)
    requires Agree(frame, code, regs, regs') && k < |code|
    ensures Read(regs', Operands(code[k])) == Read(regs, Operands(code[k]))
  {
    OperandsTouched(code[k]);
    var slots := Operands(code[k]);
    forall j | 0 <= j < |slots|
      ensures slots[j] < |regs| ==> regs'[slots[j]] == regs[slots[j]]
    {
      assert slots[j] in slots && slots[j] in Touched(code[k]);
      assert Live(frame, code, slots[j]);
    }
  }

  lemma AgreeCaptured(frame: Frame, code: seq<Instruction>, regs: seq<Value>, regs': seq<Value>)
    requires Agree(frame, code, regs, regs')
    ensures Captured(frame, regs') == Captured(frame, regs)
  {
  }

  lemma AgreeAfter(frame: Frame, code: seq<Instruction>, regs: seq<Value>, regs': seq<Value>, dest: Option<nat>,
                   r: Response)
    requires Agree(frame, code, regs, regs') && r.Continue?
    ensures Agree(frame, code, AfterEffect(frame, regs, dest, r), AfterEffect(frame, regs', dest, r))
  {
  }

  /** An instruction that is still there does the same in both programs. */
  lemma KeptAlike(frame: Frame, code: seq<Instruction>, world: World, s: State, s': State)
    requires s.Running? && s'.Running? && Alike(frame, code, s, s') && 0 <= s.pc < |code|
    requires InBounds(frame, code[s.pc], |s.regs|)
    ensures Alike(frame, code, Execute(frame, world, s, code[s.pc]), Execute(frame, world, s', code[s.pc]))
  {
    AgreeReads(frame, code, s.pc, s.regs, s'.regs);
    AgreeCaptured(frame, code, s.regs, s'.regs);
    forall dest, r: Response | r.Continue?
      ensures Agree(frame, code, AfterEffect(frame, s.regs, dest, r), AfterEffect(frame, s'.regs, dest, r))
    {
      AgreeAfter(frame, code, s.regs, s'.regs, dest, r);
    }
  }

  /** The original stops at an instruction that the pass deleted: an upvalue or index read that
      raises although nobody uses its result. */
  ghost predicate DeletedFault(code: seq<Instruction>, code': seq<Instruction>, frame: Frame, world: World, s: State) {
    && s.Running? && 0 <= s.pc < |code| == |code'|
    && code'[s.pc] != code[s.pc]
    && Step(code, frame, world, s).Halted?
  }

  lemma DeletedAlike(frame: Frame, code': seq<Instruction>, world: World, s: State, s': State, i: Instruction)
    requires s.Running? && s'.Running? && Alike(frame, code', s, s') && InBounds(frame, i, |s.regs|)
    requires ClassOf(i.op).Load? && !Live(frame, code', Dest(i).value)
    ensures var t := Execute(frame, world, s, i);
            t.Halted? || Alike(frame, code', t, s'.(pc := s'.pc + 1))
  {
  }

  lemma NoopExecutes(frame: Frame, world: World, s: State, i: Instruction)
    requires s.Running? && i.op.Noop?
    ensures InBounds(frame, i, |s.regs|) && Execute(frame, world, s, i) == s.(pc := s.pc + 1)
  {
  }

  lemma StepTracks(code: seq<Instruction>, code': seq<Instruction>, frame: Frame, world: World, s: State, s': State)
    requires Sound(code, frame) && Pruned(frame, code, code')
    requires InCode(|code|, frame, s) && Alike(frame, code', s, s')
    ensures Alike(frame, code', Step(code, frame, world, s), Step(code', frame, world, s'))
       <==> !DeletedFault(code, code', frame, world, s)
  {
    if s.Running? {
      var i, i' := code[s.pc], code'[s.pc];
      FaultFreeInBounds(frame, |code|, s.pc, i);
      if i' == i {
        KeptAlike(frame, code', world, s, s');
      } else {
        assert Erased(frame, code', i, i');
        NoopTouchesNothing();
        NoopExecutes(frame, world, s', i');
        DeletedAlike(frame, code', world, s, s', i);
      }
    }
  }

  lemma StepperTracks(code: seq<Instruction>, code': seq<Instruction>, frame: Frame, world: World)
    requires Sound(code, frame) && Pruned(frame, code, code')
    ensures Tracks(Stepper(code, frame, world), Stepper(code', frame, world), (s, s') => Alike(frame, code', s, s'),
                   s => DeletedFault(code, code', frame, world, s), s => InCode(|code|, frame, s))
  {
    forall s, s' | InCode(|code|, frame, s) && Alike(frame, code', s, s')
      ensures Alike(frame, code', Stepper(code, frame, world)(s), Stepper(code', frame, world)(s'))
         <==> !DeletedFault(code, code', frame, world, s)
    {
      StepTracks(code, code', frame, world, s, s');
    }
  }

  /** def' is def with dead loads and moves replaced by noops. */
  ghost predicate PrunedDef(def: Def, def': Def) {
    && def' == def.(code := def'.code)
    && Pruned(def.frame, DecodeAll(def.code), DecodeAll(def'.code))
    && forall k :: 0 <= k < |def.code| ==> def'.code[k] == def.code[k] || def'.code[k] == NOOP
  }

  /** The two definitions cannot be told apart for n steps: same pc, pushes, events and outcome. */
  ghost predicate RunAlike(def: Def, def': Def, world: World, s: State, n: nat) {
    forall k :: 0 <= k <= n ==> Alike(def.frame, DecodeAll(def'.code), Run(def, world, s, k), Run(def', world, s, k))
  }

  /** In its first n steps the original does not stop at an instruction deleted from def'. */
  ghost predicate NoDeletedFault(def: Def, def': Def, world: World, s: State, n: nat) {
    NoneBad(Stepper(DecodeAll(def.code), def.frame, world),
            s => DeletedFault(DecodeAll(def.code), DecodeAll(def'.code), def.frame, world, s), s, n)
  }

  lemma RunAlikeIterates(def: Def, def': Def, world: World, s: State, n: nat)
    requires def'.frame == def.frame
    ensures RunAlike(def, def', world, s, n)
       <==> AllSame(Stepper(DecodeAll(def.code), def.frame, world), Stepper(DecodeAll(def'.code), def.frame, world),
                    (s, s') => Alike(def.frame, DecodeAll(def'.code), s, s'), s, s, n)
  {
    var f := Stepper(DecodeAll(def.code), def.frame, world);
    var f' := Stepper(DecodeAll(def'.code), def.frame, world);
    assert forall k :: 0 <= k <= n ==> Run(def, world, s, k) == Iterate(f, s, k);
    assert forall k :: 0 <= k <= n ==> Run(def', world, s, k) == Iterate(f', s, k);
  }

  /** The pruned program runs in lockstep with the original for n steps exactly when no deleted
      instruction faults in those steps. */
  lemma PrunedLockstep(def: Def, def': Def, world: World, s: State, n: nat)
    requires Verified(def) && PrunedDef(def, def') && Entry(def, s)
    ensures RunAlike(def, def', world, s, n) <==> NoDeletedFault(def, def', world, s, n)
  {
    var code, code', frame := DecodeAll(def.code), DecodeAll(def'.code), def.frame;
    VerifiedSound(def);
    StepperSafe(code, frame, world);
    StepperTracks(code, code', frame, world);
    RunAlikeIterates(def, def', world, s, n);
    Lockstep(Stepper(code, frame, world), Stepper(code', frame, world), (s, s') => Alike(frame, code', s, s'),
             s => DeletedFault(code, code', frame, world, s), s => InCode(|code|, frame, s), s, s, n);
  }
}
