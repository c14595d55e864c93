/** The assembler and disassembler: instructions as an opcode name with arguments, and as words. */
module Asm {
  import opened Options
  import opened Bytecode
  import opened Encoding

  /** How many bytes an argument may take, whether it is signed, and whether it is a slot or a label. */
  datatype Field = Field(bytes: nat, signed: bool, role: Role)
  datatype Role = SlotRole | LabelRole | OtherRole

  const SLOT1 := Field(1, false, SlotRole)

  function Fields(kind: Kind): seq<Field> {
    match kind
    case K0 => []
    case KS => [Field(2, false, SlotRole)]
    case KL => [Field(3, true, LabelRole)]
    case KSS => [SLOT1, Field(2, false, SlotRole)]
    case KSL => [SLOT1, Field(2, true, LabelRole)]
    case KST | KSD | KSC => [SLOT1, Field(2, false, OtherRole)]
    case KSI => [SLOT1, Field(2, true, OtherRole)]
    case KSSS => [SLOT1, SLOT1, SLOT1]
    case KSSI => [SLOT1, SLOT1, Field(1, true, OtherRole)]
    case KSSU => [SLOT1, SLOT1, Field(1, false, OtherRole)]
    case KSES => [SLOT1, Field(1, false, OtherRole), Field(1, false, OtherRole)]
  }

  function Limit(bytes: nat): int {
    match bytes case 1 => 0x100 case 2 => 0x1_0000 case _ => 0x100_0000
  }

  predicate Fits(f: Field, n: int) {
    if f.signed then -Limit(f.bytes) / 2 <= n < Limit(f.bytes) / 2 else 0 <= n < Limit(f.bytes)
  }

  predicate AllFit(fields: seq<Field>, args: seq<int>) {
    |args| == |fields| && forall k :: 0 <= k < |args| ==> Fits(fields[k], args[k])
  }

  function Pack(op: Opcode, args: seq<int>): Word
    requires AllFit(Fields(KindOf(op)), args)
  {
    PackAs(KindOf(op), op, args)
  }

  function PackAs(kind: Kind, op: Opcode, args: seq<int>): Word
    requires AllFit(Fields(kind), args)
  {
    match kind
    case K0 => WordD(op, 0)
    case KS | KL => WordD(op, args[0])
    case KSS | KSL | KST | KSD | KSC | KSI => WordAE(op, args[0], args[1])
    case KSSS | KSSI | KSSU | KSES => WordABC(op, args[0], args[1], args[2] % 0x100)
  }

  /** A word for an opcode with numeric arguments. An upvalue needs as many enclosing functions as its
      environment index says. */
  function Assemble1(op: Opcode, args: seq<int>, depth: nat): Option<Word> {
    if op.Unknown? || !AllFit(Fields(KindOf(op)), args) then None
    else if KindOf(op) == KSES && args[1] + 1 > depth then None
    else Some(Pack(op, args))
  }

  function SignedByte(n: nat): int {
    if n < 0x80 then n else n - 0x100
  }

  function ArgsOf(kind: Kind, i: Instruction): seq<int> {
    match kind
    case K0 => []
    case KS => [i.d]
    case KL => [i.ds]
    case KSS | KST | KSD | KSC => [i.a, i.e]
    case KSI | KSL => [i.a, i.es]
    case KSSS | KSSU | KSES => [i.a, i.b, i.c]
    case KSSI => [i.a, i.b, SignedByte(i.c)]
  }

  /** The opcode and the arguments of a word. */
  function Disassemble(w: Word): Option<(Opcode, seq<int>)> {
    var i := Decode(w);
    if i.op.Unknown? then None else Some((i.op, ArgsOf(KindOf(i.op), i)))
  }

  lemma PackD(op: Opcode, args: seq<int>)
    requires AllFit(Fields(KindOf(op)), args) && !op.Unknown?
    requires KindOf(op) == K0 || KindOf(op) == KS || KindOf(op) == KL
    ensures Disassemble(Pack(op, args)) == Some((op, args))
  {
    DecodeD(op, if KindOf(op) == K0 then 0 else args[0]);
    if KindOf(op) == K0 {
      assert args == [];
    } else {
      assert Fits(Fields(KindOf(op))[0], args[0]) && args == [args[0]];
    }
  }

  lemma ArgsAE(kind: Kind, i: Instruction, args: seq<int>)
    requires AllFit(Fields(kind), args) && |args| == 2 && i.a == args[0] && i.e == args[1] % 0x1_0000
    requires -0x8000 <= args[1] < 0x8000 ==> i.es == args[1]
    ensures ArgsOf(kind, i) == args
  {
    assert Fits(Fields(kind)[1], args[1]);
  }

  lemma PackIs(kind: Kind, op: Opcode, args: seq<int>)
    requires AllFit(Fields(kind), args)
    ensures |args| == 2 ==> 0 <= args[0] < 0x100 && PackAs(kind, op, args) == WordAE(op, args[0], args[1])
    ensures |args| == 3 ==> 0 <= args[0] < 0x100 && 0 <= args[1] < 0x100
                            && PackAs(kind, op, args) == WordABC(op, args[0], args[1], args[2] % 0x100)
  {
    if |args| >= 2 {
      assert Fits(Fields(kind)[0], args[0]) && Fits(Fields(kind)[1], args[1]);
    }
  }

  lemma UnpackAE(w: Word, op: Opcode, args: seq<int>)
    requires AllFit(Fields(KindOf(op)), args) && !op.Unknown? && |args| == 2
    requires Decode(w).op == op && Decode(w).a == args[0] && Decode(w).e == args[1] % 0x1_0000
    requires -0x8000 <= args[1] < 0x8000 ==> Decode(w).es == args[1]
    ensures Disassemble(w) == Some((op, args))
  {
    ArgsAE(KindOf(op), Decode(w), args);
  }

  lemma PackAE(op: Opcode, args: seq<int>)
    requires AllFit(Fields(KindOf(op)), args) && !op.Unknown? && |args| == 2
    ensures Disassemble(Pack(op, args)) == Some((op, args))
  {
    PackIs(KindOf(op), op, args);
    DecodeAE(op, args[0], args[1]);
    UnpackAE(Pack(op, args), op, args);
  }

  lemma ArgsABC(kind: Kind, i: Instruction, args: seq<int>)
    requires AllFit(Fields(kind), args) && |args| == 3 && i.a == args[0] && i.b == args[1] && i.c == args[2] % 0x100
    ensures ArgsOf(kind, i) == args
  {
    assert Fits(Fields(kind)[2], args[2]);
  }

  lemma PackABC(op: Opcode, args: seq<int>)
    requires AllFit(Fields(KindOf(op)), args) && !op.Unknown? && |args| == 3
    ensures Disassemble(Pack(op, args)) == Some((op, args))
  {
    PackIs(KindOf(op), op, args);
    DecodeABC(op, args[0], args[1], args[2] % 0x100);
    UnpackABC(Pack(op, args), op, args);
  }

  lemma UnpackABC(w: Word, op: Opcode, args: seq<int>)
    requires AllFit(Fields(KindOf(op)), args) && !op.Unknown? && |args| == 3
    requires var i := Decode(w); i.op == op && i.a == args[0] && i.b == args[1] && i.c == args[2] % 0x100
    ensures Disassemble(w) == Some((op, args))
  {
    ArgsABC(KindOf(op), Decode(w), args);
  }

  /** Disassembling an assembled word gives the instruction back. */
  lemma DisassembleAssemble(op: Opcode, args: seq<int>, depth: nat)
    requires Assemble1(op, args, depth).Some?
    ensures Disassemble(Assemble1(op, args, depth).value) == Some((op, args))
  {
    match |args| {
      case 2 => PackAE(op, args);
      case 3 => PackABC(op, args);
      case _ => PackD(op, args);
    }
  }

  lemma LowDistinct(m: nat, n: nat)
    requires m < 26 && n < 26 && m != n
    ensures LowOpcode(m) != LowOpcode(n)
  {
  }

  lemma MidDistinct(m: nat, n: nat)
    requires 26 <= m < 53 && 26 <= n < 53 && m != n
    ensures MidOpcode(m) != MidOpcode(n)
  {
  }

  lemma HighDistinct(m: nat, n: nat)
    requires 53 <= m < INSTRUCTION_COUNT && 53 <= n && m != n
    ensures HighOpcode(m) != HighOpcode(n)
  {
  }

  lemma LowNotMid(m: nat, n: nat)
    ensures LowOpcode(m) != MidOpcode(n)
  {
  }

  lemma LowNotHigh(m: nat, n: nat)
    ensures LowOpcode(m) != HighOpcode(n)
  {
  }

  lemma MidNotHigh(m: nat, n: nat)
    ensures MidOpcode(m) != HighOpcode(n)
  {
  }

  /** Different numbers are different opcodes. */
  lemma NumberBack(n: nat)
    requires n < 0x80 && !OpcodeOf(n).Unknown?
    ensures NumberOf(OpcodeOf(n)) == n
  {
    var m := NumberOf(OpcodeOf(n));
    SameOpcode(m, n);
  }

  lemma SameOpcode(m: nat, n: nat)
    requires OpcodeOf(m) == OpcodeOf(n) && !OpcodeOf(n).Unknown? && m < INSTRUCTION_COUNT
    ensures m == n
  {
    LowNotMid(m, n);
    LowNotMid(n, m);
    LowNotHigh(m, n);
    LowNotHigh(n, m);
    MidNotHigh(m, n);
    MidNotHigh(n, m);
    if m != n {
      if m < 26 && n < 26 { LowDistinct(m, n); }
      if 26 <= m < 53 && 26 <= n < 53 { MidDistinct(m, n); }
      if 53 <= m && 53 <= n { HighDistinct(m, n); }
    }
  }

  /** The breakpoint bit. */
  function Break(w: Word): nat {
    w / 0x80 % 2
  }

  /** A word is its fields. */
  lemma Fielded(w: Word)
    ensures w == Number(w) + Break(w) * 0x80 + D(w) * 0x100
    ensures D(w) == A(w) + E(w) * 0x100 && E(w) == B(w) + C(w) * 0x100
  {
  }

  /** The words that reassembling gives back: no breakpoint, nothing in fields that are not arguments,
      slots of two bytes, and an environment that exists. */
  predicate Canonical(w: Word, depth: nat) {
    && Break(w) == 0
    && match KindOf(Decode(w).op)
       case K0 => D(w) == 0
       case KS => D(w) < 0x1_0000
       case KSES => B(w) + 1 <= depth
       case _ => true
  }

  lemma ArgsFit(w: Word)
    ensures var kind := KindOf(Decode(w).op);
            AllFit(Fields(kind), ArgsOf(kind, Decode(w))) <==> (kind == KS ==> D(w) < 0x1_0000)
  {
    var i := Decode(w);
    var kind := KindOf(i.op);
    FieldsFit(kind, i);
  }

  lemma FieldsFit(kind: Kind, i: Instruction)
    requires i.a < 0x100 && i.b < 0x100 && i.c < 0x100 && i.e < 0x1_0000
    requires -0x80_0000 <= i.ds < 0x80_0000 && -0x8000 <= i.es < 0x8000
    ensures AllFit(Fields(kind), ArgsOf(kind, i)) <==> (kind == KS ==> i.d < 0x1_0000)
  {
    if kind == KS {
      assert AllFit(Fields(kind), ArgsOf(kind, i)) <==> Fits(Fields(kind)[0], ArgsOf(kind, i)[0]);
    }
  }

  lemma SignedBack(w: Word)
    ensures DS(w) % 0x100_0000 == D(w) && ES(w) % 0x1_0000 == E(w) && SignedByte(C(w)) % 0x100 == C(w)
  {
  }

  /** Packing the arguments of a word clears its breakpoint, and the rest of a word without arguments. */
  lemma Repacked(w: Word)
    requires var i := Decode(w); !i.op.Unknown? && AllFit(Fields(KindOf(i.op)), ArgsOf(KindOf(i.op), i))
    ensures var i := Decode(w);
            Pack(i.op, ArgsOf(KindOf(i.op), i)) == Number(w) + (if KindOf(i.op) == K0 then 0 else D(w)) * 0x100
  {
    NumberBack(Number(w));
    SignedBack(w);
    Fielded(w);
    RepackedKind(w, KindOf(Decode(w).op));
  }

  lemma RepackedKind(w: Word, kind: Kind)
    requires var i := Decode(w); !i.op.Unknown? && kind == KindOf(i.op) && AllFit(Fields(kind), ArgsOf(kind, i))
    requires NumberOf(Decode(w).op) == Number(w) && D(w) == A(w) + E(w) * 0x100 && E(w) == B(w) + C(w) * 0x100
    requires DS(w) % 0x100_0000 == D(w) && ES(w) % 0x1_0000 == E(w) && SignedByte(C(w)) % 0x100 == C(w)
    ensures Pack(Decode(w).op, ArgsOf(kind, Decode(w))) == Number(w) + (if kind == K0 then 0 else D(w)) * 0x100
  {
  }

  /** Reassembling a disassembled word gives it back exactly when the word is canonical. */
  lemma AssembleDisassemble(w: Word, depth: nat)
    requires !Decode(w).op.Unknown?
    ensures var (op, args) := Disassemble(w).value;
            Assemble1(op, args, depth) == Some(w) <==> Canonical(w, depth)
  {
    ArgsFit(w);
    Fielded(w);
    if KindOf(Decode(w).op) == KS ==> D(w) < 0x1_0000 {
      Repacked(w);
    }
  }
}
