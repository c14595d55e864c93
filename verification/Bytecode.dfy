/** Instruction words, their fields, the opcode tables and function definitions. */
module Bytecode {
  import opened Options
  import opened Regalloc

  /** An instruction is one unsigned 32-bit word with the opcode in its low seven bits. */
  type Word = w: int | 0 <= w < 0x1_0000_0000

  const NOOP: Word := 0

  function A(w: Word): (r: nat) ensures r < 0x100 { (w / 0x100) % 0x100 }
  function B(w: Word): (r: nat) ensures r < 0x100 { (w / 0x1_0000) % 0x100 }
  function C(w: Word): (r: nat) ensures r < 0x100 { w / 0x100_0000 }
  function D(w: Word): (r: nat) ensures r < 0x100_0000 { w / 0x100 }
  function E(w: Word): (r: nat) ensures r < 0x1_0000 { w / 0x1_0000 }

  /** The signed readings of the D and E fields. */
  function DS(w: Word): int {
    if D(w) < 0x80_0000 then D(w) else D(w) - 0x100_0000
  }

  function ES(w: Word): int {
    if E(w) < 0x8000 then E(w) else E(w) - 0x1_0000
  }

  datatype Opcode =
    | Noop | ErrorOp | Typecheck | Return | ReturnNil
    | AddImmediate | Add | SubtractImmediate | Subtract | MultiplyImmediate | Multiply
    | DivideImmediate | Divide | DivideFloor | Modulo | Remainder
    | Band | Bor | Bxor | Bnot | ShiftLeft | ShiftLeftImmediate | ShiftRight | ShiftRightImmediate
    | ShiftRightUnsigned | ShiftRightUnsignedImmediate
    | MoveFar | MoveNear
    | Jump | JumpIf | JumpIfNot | JumpIfNil | JumpIfNotNil
    | GreaterThan | GreaterThanImmediate | LessThan | LessThanImmediate
    | Equals | EqualsImmediate | Compare
    | LoadNil | LoadTrue | LoadFalse | LoadInteger | LoadConstant | LoadUpvalue | LoadSelf
    | SetUpvalue | Closure
    | Push | Push2 | Push3 | PushArray
    | Call | Tailcall | Resume | Signal | Propagate
    | In | Get | Put | GetIndex | PutIndex | Length
    | MakeArray | MakeBuffer | MakeString | MakeStruct | MakeTable | MakeTuple | MakeBracketTuple
    | GreaterThanEqual | LessThanEqual | Next | NotEquals | NotEqualsImmediate | Cancel
    | Unknown // a number the interpreter has no operation for

  const INSTRUCTION_COUNT := 77

  function Number(w: Word): (r: nat) ensures r < 0x80 {
    w % 0x80
  }

  /** The opcode with a given number, in the order of the opcode enumeration. */
  function OpcodeOf(n: nat): Opcode {
    if n < 26 then LowOpcode(n) else if n < 53 then MidOpcode(n) else HighOpcode(n)
  }

  function LowOpcode(n: nat): Opcode {
    match n
    case 0 => Noop case 1 => ErrorOp case 2 => Typecheck case 3 => Return case 4 => ReturnNil
    case 5 => AddImmediate case 6 => Add case 7 => SubtractImmediate case 8 => Subtract
    case 9 => MultiplyImmediate case 10 => Multiply case 11 => DivideImmediate case 12 => Divide
    case 13 => DivideFloor case 14 => Modulo case 15 => Remainder case 16 => Band case 17 => Bor
    case 18 => Bxor case 19 => Bnot case 20 => ShiftLeft case 21 => ShiftLeftImmediate
    case 22 => ShiftRight case 23 => ShiftRightImmediate case 24 => ShiftRightUnsigned
    case _ => ShiftRightUnsignedImmediate
  }

  function MidOpcode(n: nat): Opcode {
    match n
    case 26 => MoveFar case 27 => MoveNear case 28 => Jump case 29 => JumpIf case 30 => JumpIfNot
    case 31 => JumpIfNil case 32 => JumpIfNotNil case 33 => GreaterThan
    case 34 => GreaterThanImmediate case 35 => LessThan case 36 => LessThanImmediate
    case 37 => Equals case 38 => EqualsImmediate case 39 => Compare case 40 => LoadNil
    case 41 => LoadTrue case 42 => LoadFalse case 43 => LoadInteger case 44 => LoadConstant
    case 45 => LoadUpvalue case 46 => LoadSelf case 47 => SetUpvalue case 48 => Closure
    case 49 => Push case 50 => Push2 case 51 => Push3
    case _ => PushArray
  }

  function HighOpcode(n: nat): Opcode {
    match n
    case 53 => Call case 54 => Tailcall case 55 => Resume case 56 => Signal case 57 => Propagate
    case 58 => In case 59 => Get case 60 => Put case 61 => GetIndex case 62 => PutIndex
    case 63 => Length case 64 => MakeArray case 65 => MakeBuffer case 66 => MakeString
    case 67 => MakeStruct case 68 => MakeTable case 69 => MakeTuple case 70 => MakeBracketTuple
    case 71 => GreaterThanEqual case 72 => LessThanEqual case 73 => Next case 74 => NotEquals
    case 75 => NotEqualsImmediate
    case 76 => Cancel
    case _ => Unknown
  }

  /** An instruction taken apart; ds and es are the signed readings of d and e. */
  datatype Instruction = Instruction(op: Opcode, a: nat, b: nat, c: nat, d: nat, e: nat, ds: int, es: int)

  function Decode(w: Word): Instruction {
    Instruction(OpcodeOf(Number(w)), A(w), B(w), C(w), D(w), E(w), DS(w), ES(w))
  }

  function DecodeAll(code: seq<Word>): (r: seq<Instruction>)
    ensures |r| == |code| && forall k :: 0 <= k < |r| ==> r[k] == Decode(code[k])
  {
    seq(|code|, k requires 0 <= k < |code| => Decode(code[k]))
  }

  lemma DecodeNoop(w: Word)
    ensures Decode(w).op.Noop? <==> Number(w) == 0
    ensures Decode(NOOP).op == Noop
  {
    assert OpcodeOf(0) == Noop;
  }

  datatype Kind = K0 | KS | KL | KSS | KSL | KST | KSI | KSD | KSSS | KSSI | KSSU | KSES | KSC

  /** The operand layout of each opcode. */
  function KindOf(op: Opcode): Kind {
    match op
    case Noop | ReturnNil | Unknown => K0
    case ErrorOp | Return | LoadNil | LoadTrue | LoadFalse | LoadSelf | Push | PushArray | Tailcall
         | MakeArray | MakeBuffer | MakeString | MakeStruct | MakeTable | MakeTuple
         | MakeBracketTuple => KS
    case Typecheck => KST
    case AddImmediate | SubtractImmediate | MultiplyImmediate | DivideImmediate
         | ShiftLeftImmediate | ShiftRightImmediate | GreaterThanImmediate | LessThanImmediate
         | EqualsImmediate | NotEqualsImmediate => KSSI
    case Bnot | MoveFar | MoveNear | Push2 | Call | Length => KSS
    case ShiftRightUnsignedImmediate | Signal | GetIndex | PutIndex => KSSU
    case Jump => KL
    case JumpIf | JumpIfNot | JumpIfNil | JumpIfNotNil => KSL
    case LoadInteger => KSI
    case LoadConstant => KSC
    case LoadUpvalue | SetUpvalue => KSES
    case Closure => KSD
    case Add | Subtract | Multiply | Divide | DivideFloor | Modulo | Remainder | Band | Bor | Bxor
         | ShiftLeft | ShiftRight | ShiftRightUnsigned | GreaterThan | LessThan | Equals | Compare
         | Push3 | Resume | Propagate | In | Get | Put | GreaterThanEqual | LessThanEqual | Next
         | NotEquals | Cancel => KSSS
  }

  predicate ConditionalJump(op: Opcode) {
    op.JumpIf? || op.JumpIfNot? || op.JumpIfNil? || op.JumpIfNotNil?
  }

  /** A debugging entry: symbol lives in slot while birth <= pc < death. An entry whose birth is
      UPVALUE names an upvalue, and its death is then an environment index. */
  datatype Symbol = Symbol(birth: Word, death: Word, slot: Word, name: Option<string>)

  const UPVALUE := 0xFFFF_FFFF

  /** What an activation needs to know besides the code. */
  datatype Frame = Frame(slotcount: nat, constants: nat, defs: nat, environments: nat, closureBits: Option<seq<Chunk>>)
  {
    predicate CapturedSlot(slot: nat) {
      && slot < slotcount
      && closureBits.Some?
      && slot / 32 < |closureBits.value|
      && closureBits.value[slot / 32][slot % 32]
    }
  }

  datatype Def = Def(
    code: seq<Word>,
    frame: Frame,
    arity: int,
    vararg: bool,
    symbols: seq<Symbol>,
    sourcemap: Option<seq<(int, int)>>)
  {
    /** The closure bitset and the source map cover the slots and the code. */
    ghost predicate WellFormed() {
      && (frame.closureBits.Some? ==> frame.slotcount <= 32 * |frame.closureBits.value|)
      && (sourcemap.Some? ==> |sourcemap.value| == |code|)
    }
  }
}
