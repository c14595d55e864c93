/** The bytecode interpreter as a step function over one activation. What other code does
    (arithmetic methods, calls, table access) is a World that answers from the history. */
module Machine {
  import opened Options
  import opened Bytecode
  import opened Runs

  datatype Value = Nil | Boolean(b: bool) | Integer(n: int) | Object(id: nat)

  predicate Truthy(v: Value) {
    v != Nil && v != Boolean(false)
  }

  /** One visible action: the operation, its operand values, the pushed arguments it consumes,
      and the slots that closures over this activation can see. */
  datatype Event = Event(op: Opcode, immediate: nat, operands: seq<Value>, args: seq<Value>, captured: map<nat, Value>)

  type Trace = seq<Event>

  /** The rest of the program either hands back a result, having written some captured slots,
      or never comes back. */
  datatype Response = Continue(result: Value, written: map<nat, Value>) | Stop(result: Value)

  datatype World = World(
    self: Value,
    constant: nat -> Value,
    closure: (nat, Trace) -> Value,
    upvalue: (nat, nat, Trace) -> Option<Value>,
    index: (Value, nat, Trace) -> Option<Value>,
    elements: (Value, Trace) -> Option<seq<Value>>,
    respond: Trace -> Response)

  datatype Outcome =
    | Returned(value: Value)
    | Raised(value: Value)
    | TailCalled(callee: Value, args: seq<Value>)
    | Stopped(value: Value)
    | Fault

  datatype State =
    | Running(pc: int, regs: seq<Value>, args: seq<Value>, trace: Trace)
    | Halted(outcome: Outcome, captured: map<nat, Value>, trace: Trace)
    | Crashed

  datatype Class = Load | Branch | Pusher | Effect | Exit

  /** Which fields of an instruction name slots it reads, in operand order, and the slot it writes. */
  datatype Reads = R0 | RA | RB | RD | RE | RAB | RAE | RBC | RABC
  datatype Writes = W0 | WA | WD | WE
  datatype Shape = Shape(role: Class, inputs: Reads, output: Writes)

  /** How the interpreter executes each opcode. */
  function ShapeOf(op: Opcode): Shape {
    match op
    case LoadNil | LoadTrue | LoadFalse | LoadSelf => Shape(Load, R0, WD)
    case LoadInteger | LoadConstant | LoadUpvalue | Closure => Shape(Load, R0, WA)
    case GetIndex => Shape(Load, RB, WA)
    case MoveNear => Shape(Load, RE, WA)
    case MoveFar => Shape(Load, RA, WE)
    case Noop | Jump => Shape(Branch, R0, W0)
    case JumpIf | JumpIfNot | JumpIfNil | JumpIfNotNil => Shape(Branch, RA, W0)
    case Push | PushArray => Shape(Pusher, RD, W0)
    case Push2 => Shape(Pusher, RAE, W0)
    case Push3 => Shape(Pusher, RABC, W0)
    case Return | Tailcall => Shape(Exit, RD, W0)
    case ErrorOp => Shape(Exit, RA, W0)
    case ReturnNil => Shape(Exit, R0, W0)
    case MakeArray | MakeBuffer | MakeString | MakeStruct | MakeTable | MakeTuple
         | MakeBracketTuple => Shape(Effect, R0, WD)
    case Typecheck | SetUpvalue => Shape(Effect, RA, W0)
    case Bnot | Length | Call => Shape(Effect, RE, WA)
    case PutIndex => Shape(Effect, RAB, W0)
    case Put => Shape(Effect, RABC, W0)
    case Signal | AddImmediate | SubtractImmediate | MultiplyImmediate | DivideImmediate
         | ShiftLeftImmediate | ShiftRightImmediate | ShiftRightUnsignedImmediate
         | GreaterThanImmediate | LessThanImmediate | EqualsImmediate
         | NotEqualsImmediate => Shape(Effect, RB, WA)
    case Add | Subtract | Multiply | Divide | DivideFloor | Modulo | Remainder | Band | Bor | Bxor
         | ShiftLeft | ShiftRight | ShiftRightUnsigned | GreaterThan | LessThan | Equals | Compare
         | Resume | Propagate | In | Get | GreaterThanEqual | LessThanEqual | Next | NotEquals
         | Cancel => Shape(Effect, RBC, WA)
    case Unknown => Shape(Effect, R0, W0)
  }

  function ClassOf(op: Opcode): Class {
    ShapeOf(op).role
  }

  function Operands(i: Instruction): seq<nat> {
    match ShapeOf(i.op).inputs
    case R0 => []
    case RA => [i.a]
    case RB => [i.b]
    case RD => [i.d]
    case RE => [i.e]
    case RAB => [i.a, i.b]
    case RAE => [i.a, i.e]
    case RBC => [i.b, i.c]
    case RABC => [i.a, i.b, i.c]
  }

  predicate OperandsBelow(i: Instruction, n: nat) {
    match ShapeOf(i.op).inputs
    case R0 => true
    case RA => i.a < n
    case RB => i.b < n
    case RD => i.d < n
    case RE => i.e < n
    case RAB => i.a < n && i.b < n
    case RAE => i.a < n && i.e < n
    case RBC => i.b < n && i.c < n
    case RABC => i.a < n && i.b < n && i.c < n
  }

  function Dest(i: Instruction): Option<nat> {
    match ShapeOf(i.op).output
    case W0 => None
    case WA => Some(i.a)
    case WD => Some(i.d)
    case WE => Some(i.e)
  }

  /** The operand that is not a slot. */
  function Immediate(i: Instruction): nat {
    match KindOf(i.op)
    case KST | KSES => i.e
    case KSSI | KSSU => i.c
    case _ => 0
  }

  predicate ConsumesArgs(op: Opcode) {
    op.Call? || op.MakeArray? || op.MakeBuffer? || op.MakeString? || op.MakeStruct? || op.MakeTable?
    || op.MakeTuple? || op.MakeBracketTuple?
  }

  /** Every slot, constant, nested definition and environment index of i exists. */
  predicate InBounds(frame: Frame, i: Instruction, slots: nat) {
    && OperandsBelow(i, slots)
    && (Dest(i).Some? ==> Dest(i).value < slots)
    && (i.op.LoadConstant? ==> i.e < frame.constants)
    && (i.op.Closure? ==> i.e < frame.defs)
    && (i.op.LoadUpvalue? || i.op.SetUpvalue? ==> i.b < frame.environments)
  }

  /** The values in some slots, all of which exist when the operands are in bounds. */
  function Read(regs: seq<Value>, slots: seq<nat>): (vs: seq<Value>)
    ensures |vs| == |slots|
  {
    seq(|slots|, k requires 0 <= k < |slots| => if slots[k] < |regs| then regs[slots[k]] else Nil)
  }

  /** The value a load, move, closure or index read produces; None when it raises. */
  function LoadValue(world: World, i: Instruction, operands: seq<Value>, trace: Trace): Option<Value>
    requires |operands| == |Operands(i)|
  {
    match i.op
    case LoadNil => Some(Nil)
    case LoadTrue => Some(Boolean(true))
    case LoadFalse => Some(Boolean(false))
    case LoadSelf => Some(world.self)
    case LoadInteger => Some(Integer(i.es))
    case LoadConstant => Some(world.constant(i.e))
    case Closure => Some(world.closure(i.e, trace))
    case LoadUpvalue => world.upvalue(i.b, i.c, trace)
    case GetIndex => world.index(operands[0], i.c, trace)
    case MoveNear | MoveFar => Some(operands[0])
    case _ => None
  }

  function Offset(i: Instruction, operands: seq<Value>): int
    requires |operands| == |Operands(i)|
  {
    match i.op
    case Jump => i.ds
    case JumpIf => if Truthy(operands[0]) then i.es else 1
    case JumpIfNot => if Truthy(operands[0]) then 1 else i.es
    case JumpIfNil => if operands[0].Nil? then i.es else 1
    case JumpIfNotNil => if operands[0].Nil? then 1 else i.es
    case _ => 1
  }

  function Pushed(world: World, op: Opcode, operands: seq<Value>, trace: Trace): Option<seq<Value>>
  {
    if op.PushArray? && |operands| == 1 then world.elements(operands[0], trace) else Some(operands)
  }

  function ExitOutcome(i: Instruction, operands: seq<Value>, args: seq<Value>): Outcome
    requires |operands| == |Operands(i)|
  {
    match i.op
    case Return => Returned(operands[0])
    case ErrorOp => Raised(operands[0])
    case Tailcall => TailCalled(operands[0], args)
    case _ => Returned(Nil)
  }

  function Captured(frame: Frame, regs: seq<Value>): map<nat, Value> {
    map i: nat | i < |regs| && frame.CapturedSlot(i) :: regs[i]
  }

  /** Slots after an effect: closures may have written captured slots, then the result lands. */
  function AfterEffect(frame: Frame, regs: seq<Value>, dest: Option<nat>, r: Response): (regs': seq<Value>)
    requires r.Continue?
    ensures |regs'| == |regs|
  {
    seq(|regs|, i requires 0 <= i < |regs| =>
      if dest == Some(i) then r.result
      else if frame.CapturedSlot(i) && i in r.written then r.written[i]
      else regs[i])
  }

  /** One instruction whose indices are all in bounds. */
  function Execute(frame: Frame, world: World, s: State, i: Instruction): State
    requires s.Running? && InBounds(frame, i, |s.regs|)
  {
    var op := i.op;
    var vs := Read(s.regs, Operands(i));
    var captured := Captured(frame, s.regs);
    match ClassOf(op)
    case Load =>
      (match LoadValue(world, i, vs, s.trace)
       case Some(v) => s.(pc := s.pc + 1, regs := s.regs[Dest(i).value := v])
       case None => Halted(Fault, captured, s.trace))
    case Branch => s.(pc := s.pc + Offset(i, vs))
    case Pusher =>
      (match Pushed(world, op, vs, s.trace)
       case Some(more) => s.(pc := s.pc + 1, args := s.args + more)
       case None => Halted(Fault, captured, s.trace))
    case Exit => Halted(ExitOutcome(i, vs, s.args), captured, s.trace)
    case Effect =>
      var consumed := if ConsumesArgs(op) then s.args else [];
      var trace := s.trace + [Event(op, Immediate(i), vs, consumed, captured)];
      (match world.respond(trace)
       case Continue(_, _) =>
         Running(s.pc + 1, AfterEffect(frame, s.regs, Dest(i), world.respond(trace)),
                 if ConsumesArgs(op) then [] else s.args, trace)
       case Stop(v) => Halted(Stopped(v), captured, trace))
  }

  /** A pc, opcode or index out of range is a crash. */
  function Step(code: seq<Instruction>, frame: Frame, world: World, s: State): State {
    if !s.Running? then s
    else if !(0 <= s.pc < |code|) then Crashed
    else if code[s.pc].op.Unknown? || !InBounds(frame, code[s.pc], |s.regs|) then Crashed
    else Execute(frame, world, s, code[s.pc])
  }

  function Stepper(code: seq<Instruction>, frame: Frame, world: World): State -> State {
    s => Step(code, frame, world, s)
  }

  /** The state after n steps of a definition's code. */
  function Run(def: Def, world: World, s: State, n: nat): State {
    Iterate(Stepper(DecodeAll(def.code), def.frame, world), s, n)
  }

  /** The first state of a call: the callee's slots are filled in and nothing is pushed. */
  ghost predicate Entry(def: Def, s: State) {
    s.Running? && s.pc == 0 && |s.regs| == def.frame.slotcount
  }
}
