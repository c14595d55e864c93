/** Building instruction words out of an opcode and its operand fields. */
module Encoding {
  import opened Bytecode

  /** The number of an opcode. */
  function NumberOf(op: Opcode): (n: nat)
    ensures n < 0x80 && OpcodeOf(n) == op
    ensures n < INSTRUCTION_COUNT || op.Unknown?
  {
    match op
    case Noop => 0 case ErrorOp => 1 case Typecheck => 2 case Return => 3 case ReturnNil => 4
    case AddImmediate => 5 case Add => 6 case SubtractImmediate => 7 case Subtract => 8
    case MultiplyImmediate => 9 case Multiply => 10 case DivideImmediate => 11 case Divide => 12
    case DivideFloor => 13 case Modulo => 14 case Remainder => 15 case Band => 16 case Bor => 17
    case Bxor => 18 case Bnot => 19 case ShiftLeft => 20 case ShiftLeftImmediate => 21
    case ShiftRight => 22 case ShiftRightImmediate => 23 case ShiftRightUnsigned => 24
    case ShiftRightUnsignedImmediate => 25
    case MoveFar => 26 case MoveNear => 27 case Jump => 28 case JumpIf => 29 case JumpIfNot => 30
    case JumpIfNil => 31 case JumpIfNotNil => 32 case GreaterThan => 33
    case GreaterThanImmediate => 34 case LessThan => 35 case LessThanImmediate => 36
    case Equals => 37 case EqualsImmediate => 38 case Compare => 39 case LoadNil => 40
    case LoadTrue => 41 case LoadFalse => 42 case LoadInteger => 43 case LoadConstant => 44
    case LoadUpvalue => 45 case LoadSelf => 46 case SetUpvalue => 47 case Closure => 48
    case Push => 49 case Push2 => 50 case Push3 => 51 case PushArray => 52
    case Call => 53 case Tailcall => 54 case Resume => 55 case Signal => 56 case Propagate => 57
    case In => 58 case Get => 59 case Put => 60 case GetIndex => 61 case PutIndex => 62
    case Length => 63 case MakeArray => 64 case MakeBuffer => 65 case MakeString => 66
    case MakeStruct => 67 case MakeTable => 68 case MakeTuple => 69 case MakeBracketTuple => 70
    case GreaterThanEqual => 71 case LessThanEqual => 72 case Next => 73 case NotEquals => 74
    case NotEqualsImmediate => 75 case Cancel => 76
    case Unknown => 77
  }

  /** An opcode and three one-byte fields. */
  function WordABC(op: Opcode, a: nat, b: nat, c: nat): Word
    requires a < 0x100 && b < 0x100 && c < 0x100
  {
    NumberOf(op) + a * 0x100 + b * 0x1_0000 + c * 0x100_0000
  }

  /** An opcode, a one-byte field and the low sixteen bits of e. */
  function WordAE(op: Opcode, a: nat, e: int): Word
    requires a < 0x100
  {
    NumberOf(op) + a * 0x100 + (e % 0x1_0000) * 0x1_0000
  }

  /** An opcode and the low twenty-four bits of d. */
  function WordD(op: Opcode, d: int): Word {
    NumberOf(op) + (d % 0x100_0000) * 0x100
  }

  lemma Split80(w: nat, q: nat, r: nat)
    requires w == r + q * 0x80 && r < 0x80
    ensures w % 0x80 == r
  {
  }

  lemma Split100(w: nat, q: nat, r: nat)
    requires w == r + q * 0x100 && r < 0x100
    ensures w / 0x100 == q && w % 0x100 == r
  {
  }

  lemma Split10000(w: nat, q: nat, r: nat)
    requires w == r + q * 0x1_0000 && r < 0x1_0000
    ensures w / 0x1_0000 == q
  {
  }

  lemma Split1000000(w: nat, q: nat, r: nat)
    requires w == r + q * 0x100_0000 && r < 0x100_0000
    ensures w / 0x100_0000 == q
  {
  }

  /** A word with a given number and given bytes above it has them as its fields. */
  lemma SplitWord(w: Word, n: nat, a: nat, b: nat, c: nat)
    requires n < 0x80 && a < 0x100 && b < 0x100 && c < 0x100
    requires w == n + a * 0x100 + b * 0x1_0000 + c * 0x100_0000
    ensures Number(w) == n && A(w) == a && B(w) == b && C(w) == c
    ensures D(w) == a + b * 0x100 + c * 0x1_0000 && E(w) == b + c * 0x100
  {
    Split80(w, 2 * a + b * 0x200 + c * 0x2_0000, n);
    Split100(w, a + b * 0x100 + c * 0x1_0000, n);
    Split100(a + b * 0x100 + c * 0x1_0000, b + c * 0x100, a);
    Split10000(w, b + c * 0x100, n + a * 0x100);
    Split100(b + c * 0x100, c, b);
    Split1000000(w, c, n + a * 0x100 + b * 0x1_0000);
  }

  /** The fields of an instruction do not depend on how its word was put together. */
  lemma DecodeWord(w: Word, op: Opcode, a: nat, b: nat, c: nat)
    requires a < 0x100 && b < 0x100 && c < 0x100
    requires w == NumberOf(op) + a * 0x100 + b * 0x1_0000 + c * 0x100_0000
    ensures var i := Decode(w); i.op == op && i.a == a && i.b == b && i.c == c
    ensures Decode(w).d == a + b * 0x100 + c * 0x1_0000 && Decode(w).e == b + c * 0x100
  {
    SplitWord(w, NumberOf(op), a, b, c);
  }

  lemma DecodeABC(op: Opcode, a: nat, b: nat, c: nat)
    requires a < 0x100 && b < 0x100 && c < 0x100
    ensures var i := Decode(WordABC(op, a, b, c)); i.op == op && i.a == a && i.b == b && i.c == c
  {
    DecodeWord(WordABC(op, a, b, c), op, a, b, c);
  }

  lemma DecodeAE(op: Opcode, a: nat, e: int)
    requires a < 0x100
    ensures var i := Decode(WordAE(op, a, e)); i.op == op && i.a == a && i.e == e % 0x1_0000
    ensures -0x8000 <= e < 0x8000 ==> Decode(WordAE(op, a, e)).es == e
  {
    var low := e % 0x1_0000;
    HalfBytes(low);
    DecodeWord(WordAE(op, a, e), op, a, low % 0x100, low / 0x100);
  }

  lemma DecodeD(op: Opcode, d: int)
    ensures var i := Decode(WordD(op, d)); i.op == op && i.d == d % 0x100_0000
    ensures -0x80_0000 <= d < 0x80_0000 ==> Decode(WordD(op, d)).ds == d
  {
    var low := d % 0x100_0000;
    HalfBytes(low / 0x100);
    Split100(low, low / 0x100, low % 0x100);
    DecodeWord(WordD(op, d), op, low % 0x100, low / 0x100 % 0x100, low / 0x100 / 0x100);
  }

  lemma HalfBytes(e: nat)
    requires e < 0x1_0000
    ensures e == e % 0x100 + e / 0x100 * 0x100 && e / 0x100 < 0x100
  {
  }
}
