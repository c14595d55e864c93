/** What janet_verify accepts, and why accepted code cannot leave its bounds. */
module Verifier {
  import opened Bytecode
  import opened Machine
  import opened Runs

  const LAST_OPCODES: set<int> := {1, 3, 4, 28, 54} // error, return, return-nil, jump, tailcall

  /** The error code of instruction number at on its own; 0 accepts it. */
  function InstructionFault(frame: Frame, length: nat, at: nat, i: Instruction): nat {
    var sc := frame.slotcount;
    if i.op.Unknown? then 3
    else match KindOf(i.op)
      case K0 => 0
      case KS => if i.d >= sc then 4 else 0
      case KSI | KST => if i.a >= sc then 4 else 0
      case KL => if !(0 <= at + i.ds < length) then 5 else 0
      case KSS => if i.a >= sc || i.e >= sc then 4 else 0
      case KSSI | KSSU => if i.a >= sc || i.b >= sc then 4 else 0
      case KSL => if i.a >= sc then 4 else if !(0 <= at + i.es < length) then 5 else 0
      case KSSS => if i.a >= sc || i.b >= sc || i.c >= sc then 4 else 0
      case KSD => if i.a >= sc then 4 else if i.e >= frame.defs then 6 else 0
      case KSC => if i.a >= sc then 4 else if i.e >= frame.constants then 7 else 0
      case KSES => if i.a >= sc then 4 else if i.b >= frame.environments then 8 else 0
  }

  function FaultAt(def: Def, at: nat): nat
    requires at < |def.code|
  {
    InstructionFault(def.frame, |def.code|, at, Decode(def.code[at]))
  }

  function SymbolFault(def: Def, s: Symbol): nat {
    if s.birth == UPVALUE && s.death >= def.frame.environments then 10
    else if s.birth != UPVALUE && s.slot >= def.frame.slotcount then 11
    else if s.birth != UPVALUE && s.birth >= |def.code| then 12
    else if s.birth != UPVALUE && s.death != UPVALUE && s.death > |def.code| then 13
    else if s.name.None? then 14
    else 0
  }

  predicate GoodLast(def: Def)
    requires |def.code| > 0
  {
    def.code[|def.code| - 1] % 0x100 in LAST_OPCODES
  }

  predicate GoodArity(def: Def) {
    def.arity + (if def.vararg then 1 else 0) <= def.frame.slotcount
  }

  ghost predicate Verified(def: Def) {
    && def.frame.environments <= 256
    && |def.code| > 0
    && GoodArity(def)
    && (forall k :: 0 <= k < |def.code| ==> FaultAt(def, k) == 0)
    && GoodLast(def)
    && (forall k :: 0 <= k < |def.symbols| ==> SymbolFault(def, def.symbols[k]) == 0)
  }

  /** What each error code reports; instruction faults are reported in code order and symbol
      faults from the last entry backwards. */
  ghost predicate Reported(def: Def, code: nat) {
    match code
    case 15 => def.frame.environments > 256
    case 1 => |def.code| == 0
    case 2 => !GoodArity(def)
    case 9 => |def.code| > 0 && !GoodLast(def)
    case _ => if code < 9 then FirstFault(def, code) else LastSymbolFault(def, code)
  }

  ghost predicate FirstFault(def: Def, code: nat) {
    exists k :: 0 <= k < |def.code| && FaultAt(def, k) == code && forall j :: 0 <= j < k ==> FaultAt(def, j) == 0
  }

  ghost predicate LastSymbolFault(def: Def, code: nat) {
    exists k :: 0 <= k < |def.symbols| && SymbolFault(def, def.symbols[k]) == code
             && forall j :: k < j < |def.symbols| ==> SymbolFault(def, def.symbols[j]) == 0
  }

  /** The slot of an entry that is no upvalue exists wherever the entry is live, which is in the code; an
      upvalue names an environment that exists; and every entry has a name. */
  ghost predicate SymbolInBounds(def: Def, s: Symbol) {
    && s.name.Some?
    && if s.birth == UPVALUE then s.death < def.frame.environments
       else s.slot < def.frame.slotcount && s.birth < |def.code| && (s.death == UPVALUE || s.death <= |def.code|)
  }

  /** The checks of a symbol map entry pass exactly when the entry is in bounds; each code names what is not. */
  lemma SymbolFaultExactly(def: Def, s: Symbol)
    ensures SymbolFault(def, s) == 0 <==> SymbolInBounds(def, s)
    ensures SymbolFault(def, s) == 10 <==> s.birth == UPVALUE && s.death >= def.frame.environments
    ensures SymbolFault(def, s) == 11 <==> s.birth != UPVALUE && s.slot >= def.frame.slotcount
    ensures SymbolFault(def, s) in {12, 13} ==>
            var pc := if SymbolFault(def, s) == 12 then s.birth else s.death;
            s.birth != UPVALUE && s.slot < def.frame.slotcount && pc >= |def.code|
    ensures SymbolFault(def, s) == 13 ==> s.birth < |def.code| < s.death && s.death != UPVALUE
    ensures SymbolFault(def, s) == 14 ==> s.name.None?
    ensures SymbolFault(def, s) in {0, 10, 11, 12, 13, 14}
  {
  }

  /** Where the instruction at index at may jump to. */
  function Target(at: nat, i: Instruction): int {
    at + if i.op.Jump? then i.ds else if ConditionalJump(i.op) then i.es else 0
  }

  /** The same acceptance, for instructions taken apart. */
  ghost predicate Sound(code: seq<Instruction>, frame: Frame) {
    && |code| > 0
    && (forall k :: 0 <= k < |code| ==> InstructionFault(frame, |code|, k, code[k]) == 0 && code[k].a <= code[k].d)
    && Last(code[|code| - 1])
  }

  ghost predicate Last(i: Instruction) {
    ClassOf(i.op).Exit? || i.op.Jump?
  }

  lemma LastOpcodes(n: nat)
    requires n in LAST_OPCODES
    ensures n < 0x80 && OpcodeOf(n) in {ErrorOp, Return, ReturnNil, Jump, Tailcall}
  {
    assert OpcodeOf(1) == ErrorOp && OpcodeOf(3) == Return && OpcodeOf(4) == ReturnNil;
    assert OpcodeOf(28) == Jump && OpcodeOf(54) == Tailcall;
  }

  lemma SmallNumber(w: Word)
    requires w % 0x100 < 0x80
    ensures Number(w) == w % 0x100
  {
  }

  lemma LastDecodes(w: Word)
    requires w % 0x100 in LAST_OPCODES
    ensures Last(Decode(w)) && !Decode(w).op.Noop?
  {
    LastOpcodes(w % 0x100);
    SmallNumber(w);
  }

  lemma FieldsNest(w: Word)
    ensures Decode(w).a <= Decode(w).d
  {
  }

  lemma VerifiedSound(def: Def)
    requires Verified(def)
    ensures Sound(DecodeAll(def.code), def.frame)
  {
    var code := DecodeAll(def.code);
    LastDecodes(def.code[|code| - 1]);
    forall k | 0 <= k < |code|
      ensures InstructionFault(def.frame, |code|, k, code[k]) == 0 && code[k].a <= code[k].d
    {
      assert FaultAt(def, k) == 0;
      FieldsNest(def.code[k]);
    }
  }

  /** The kind checks are exactly what the interpreter needs: a known opcode, every index it uses
      in range and its jump inside the code. Only the error operation is checked more strictly,
      on all of D where the interpreter reads A. */
  lemma FaultFreeExact(frame: Frame, length: nat, at: nat, i: Instruction)
    requires i.a <= i.d && at < length
    ensures InstructionFault(frame, length, at, i) == 0
       <==> && !i.op.Unknown? && InBounds(frame, i, frame.slotcount) && 0 <= Target(at, i) < length
            && (i.op.ErrorOp? ==> i.d < frame.slotcount)
  {
    if ClassOf(i.op).Effect? {
      EffectFaultFree(frame, length, at, i);
    } else if !i.op.ErrorOp? {
      PlainFaultFree(frame, length, at, i);
    }
  }

  lemma EffectFaultFree(frame: Frame, length: nat, at: nat, i: Instruction)
    requires i.a <= i.d && at < length && ClassOf(i.op).Effect?
    ensures InstructionFault(frame, length, at, i) == 0
       <==> !i.op.Unknown? && InBounds(frame, i, frame.slotcount) && 0 <= Target(at, i) < length
  {
  }

  lemma PlainFaultFree(frame: Frame, length: nat, at: nat, i: Instruction)
    requires i.a <= i.d && at < length && !i.op.ErrorOp? && !ClassOf(i.op).Effect?
    ensures InstructionFault(frame, length, at, i) == 0
       <==> !i.op.Unknown? && InBounds(frame, i, frame.slotcount) && 0 <= Target(at, i) < length
  {
  }

  /** The slots that the interpreter uses exist; the error operation is asked for more. */
  predicate SlotsExist(frame: Frame, i: Instruction) {
    && OperandsBelow(i, frame.slotcount) && (Dest(i).Some? ==> Dest(i).value < frame.slotcount)
    && (i.op.ErrorOp? ==> i.d < frame.slotcount)
  }

  /** Each code names the first thing that is wrong: the opcode, a slot, the jump, a definition, a constant or an
      environment. */
  ghost predicate Named(frame: Frame, length: nat, at: nat, i: Instruction, fault: nat) {
    if i.op.Unknown? then fault == 3
    else if !SlotsExist(frame, i) then fault == 4
    else if !(0 <= Target(at, i) < length) then fault == 5
    else if i.op.Closure? && i.e >= frame.defs then fault == 6
    else if i.op.LoadConstant? && i.e >= frame.constants then fault == 7
    else if (i.op.LoadUpvalue? || i.op.SetUpvalue?) && i.b >= frame.environments then fault == 8
    else fault == 0
  }

  lemma FaultNamed(frame: Frame, length: nat, at: nat, i: Instruction)
    requires i.a <= i.d && at < length
    ensures Named(frame, length, at, i, InstructionFault(frame, length, at, i))
  {
    if ClassOf(i.op).Effect? {
      EffectFaultNamed(frame, length, at, i);
    } else {
      PlainFaultNamed(frame, length, at, i);
    }
  }

  lemma EffectFaultNamed(frame: Frame, length: nat, at: nat, i: Instruction)
    requires i.a <= i.d && at < length && ClassOf(i.op).Effect?
    ensures Named(frame, length, at, i, InstructionFault(frame, length, at, i))
  {
  }

  lemma PlainFaultNamed(frame: Frame, length: nat, at: nat, i: Instruction)
    requires i.a <= i.d && at < length && !ClassOf(i.op).Effect?
    ensures Named(frame, length, at, i, InstructionFault(frame, length, at, i))
  {
  }

  lemma FaultFreeInBounds(frame: Frame, length: nat, at: nat, i: Instruction)
    requires InstructionFault(frame, length, at, i) == 0 && i.a <= i.d && at < length
    ensures InBounds(frame, i, frame.slotcount) && 0 <= Target(at, i) < length
  {
    FaultFreeExact(frame, length, at, i);
  }

  /** A state that has not crashed and whose pc and slots fit the code. */
  ghost predicate InCode(length: nat, frame: Frame, s: State) {
    !s.Crashed? && (s.Running? ==> 0 <= s.pc < length && |s.regs| == frame.slotcount)
  }

  lemma ExecuteSafe(frame: Frame, length: nat, world: World, s: State, i: Instruction)
    requires InCode(length, frame, s) && s.Running?
    requires InstructionFault(frame, length, s.pc, i) == 0 && i.a <= i.d
    requires s.pc == length - 1 ==> Last(i)
    ensures InBounds(frame, i, frame.slotcount)
    ensures InCode(length, frame, Execute(frame, world, s, i))
  {
    FaultFreeInBounds(frame, length, s.pc, i);
  }

  lemma StepSafe(code: seq<Instruction>, frame: Frame, world: World, s: State)
    requires Sound(code, frame) && InCode(|code|, frame, s)
    ensures InCode(|code|, frame, Step(code, frame, world, s))
  {
    if s.Running? {
      ExecuteSafe(frame, |code|, world, s, code[s.pc]);
    }
  }

  lemma StepperSafe(code: seq<Instruction>, frame: Frame, world: World)
    requires Sound(code, frame)
    ensures Preserved(Stepper(code, frame, world), s => InCode(|code|, frame, s))
  {
    forall s | InCode(|code|, frame, s)
      ensures InCode(|code|, frame, Stepper(code, frame, world)(s))
    {
      StepSafe(code, frame, world, s);
    }
  }

  /** Accepted code never crashes: every run keeps the pc and every index in range. */
  lemma VerifiedRunsSafely(def: Def, world: World, s: State, n: nat)
    requires Verified(def) && Entry(def, s)
    ensures InCode(|def.code|, def.frame, Run(def, world, s, n))
  {
    var code := DecodeAll(def.code);
    VerifiedSound(def);
    StepperSafe(code, def.frame, world);
    Invariant(Stepper(code, def.frame, world), s => InCode(|code|, def.frame, s), s, n);
  }
}
