/** The variadic operators and comparators: as bytecode loops over an argument tuple, and as the straight
    line code that the compiler puts in place of a call. */
module VarOps {
  import opened Options
  import opened Bytecode
  import opened Encoding
  import opened Runs

  datatype Value = Nil | Boolean(b: bool) | Number(n: int) | Tuple(items: seq<Value>) | Pair(x: Value, y: Value)

  predicate Truthy(v: Value) {
    v != Nil && v != Boolean(false)
  }

  /** What the operators do; immediate forms take a small number as their second operand. */
  datatype World = World(binary: (Opcode, Value, Value) -> Value, immediate: (Opcode, Value, int) -> Value)
  {
    /** Equality tests are what they are called. */
    ghost predicate Sane() {
      && (forall x, y :: binary(Equals, x, y) == Boolean(x == y))
      && (forall x, y :: binary(NotEquals, x, y) == Boolean(x != y))
    }
  }

  /** An instruction word, by its layout. */
  datatype Micro = ABC(op: Opcode, a: nat, b: nat, c: nat) | AE(op: Opcode, a: nat, imm: int) | D(op: Opcode, d: nat)

  predicate Layout(m: Micro) {
    match m
    case ABC(op, a, b, c) => a < 6 && b < 6 && c < 6
    case AE(op, a, imm) => a < 6 && -0x8000 <= imm < 0x8000
    case D(op, d) => d < 6
  }

  function Encode(m: Micro): Word
    requires Layout(m)
  {
    match m
    case ABC(op, a, b, c) => WordABC(op, a, b, c)
    case AE(op, a, imm) => WordAE(op, a, imm)
    case D(op, d) => WordD(op, d)
  }

  /** The six registers of a loop. */
  datatype Six = Six(r0: Value, r1: Value, r2: Value, r3: Value, r4: Value, r5: Value)
  {
    function Get(r: nat): Value {
      match r case 0 => r0 case 1 => r1 case 2 => r2 case 3 => r3 case 4 => r4 case _ => r5
    }

    function Set(r: nat, v: Value): Six {
      match r
      case 0 => this.(r0 := v) case 1 => this.(r1 := v) case 2 => this.(r2 := v)
      case 3 => this.(r3 := v) case 4 => this.(r4 := v) case _ => this.(r5 := v)
    }
  }

  datatype State = Running(pc: int, regs: Six) | Returned(v: Value) | Stuck

  function Next(s: State, r: nat, v: Value): State
    requires s.Running?
  {
    Running(s.pc + 1, s.regs.Set(r, v))
  }

  function At(v: Value, i: Value): Option<Value> {
    if v.Tuple? && i.Number? && 0 <= i.n < |v.items| then Some(v.items[i.n]) else None
  }

  function Put(s: State, r: nat, v: Option<Value>): State
    requires s.Running?
  {
    match v case Some(x) => Next(s, r, x) case None => Stuck
  }

  /** One instruction of the loops; any other opcode is a binary operator. */
  function Perform(w: World, s: State, m: Micro): State
    requires s.Running? && Layout(m)
  {
    var regs := s.regs;
    match m
    case ABC(op, a, b, c) =>
      (match op
       case Length => Put(s, a, if regs.Get(b).Tuple? then Some(Number(|regs.Get(b).items|)) else None)
       case EqualsImmediate => Next(s, a, Boolean(regs.Get(b) == Number(c)))
       case LessThanImmediate => Put(s, a, if regs.Get(b).Number? then Some(Boolean(regs.Get(b).n < c)) else None)
       case GetIndex => Put(s, a, At(regs.Get(b), Number(c)))
       case In => Put(s, a, At(regs.Get(b), regs.Get(c)))
       case AddImmediate => Put(s, a, if regs.Get(b).Number? then Some(Number(regs.Get(b).n + c)) else None)
       case _ => Next(s, a, w.binary(op, regs.Get(b), regs.Get(c))))
    case AE(op, a, imm) =>
      (match op
       case LoadInteger => Next(s, a, Number(imm))
       case MoveNear => if 0 <= imm < 6 then Next(s, a, regs.Get(imm)) else Stuck
       case JumpIf => s.(pc := s.pc + if Truthy(regs.Get(a)) then imm else 1)
       case JumpIfNot => s.(pc := s.pc + if Truthy(regs.Get(a)) then 1 else imm)
       case _ => Stuck)
    case D(op, d) =>
      (match op
       case Return => Returned(regs.Get(d))
       case LoadTrue => Next(s, d, Boolean(true))
       case LoadFalse => Next(s, d, Boolean(false))
       case _ => Stuck)
  }

  /** The layout that the interpreter reads an opcode's operands in. */
  function Read(i: Instruction): Micro {
    match i.op
    case LoadInteger | JumpIf | JumpIfNot => AE(i.op, i.a, i.es)
    case MoveNear => AE(i.op, i.a, i.e)
    case Return | LoadTrue | LoadFalse => D(i.op, i.d)
    case Length => ABC(i.op, i.a, i.e, 0)
    case _ => ABC(i.op, i.a, i.b, i.c)
  }

  /** A step of code given as words. */
  function Step(w: World, code: seq<Word>, s: State): State {
    if !s.Running? then s
    else if !(0 <= s.pc < |code|) then Stuck
    else
      var m := Read(Decode(code[s.pc]));
      if Layout(m) then Perform(w, s, m) else Stuck
  }

  function Stepper(w: World, code: seq<Word>): State -> State {
    s => Step(w, code, s)
  }

  /** Words and their layout agree for the instructions of the loops. */
  predicate Readable(m: Micro) {
    && Layout(m)
    && match m
       case ABC(op, _, _, c) => op != LoadInteger && op != JumpIf && op != JumpIfNot && op != MoveNear && op != Return
                                && op != LoadTrue && op != LoadFalse && (op == Length ==> c == 0)
       case AE(op, _, imm) => op == LoadInteger || op == JumpIf || op == JumpIfNot || (op == MoveNear && imm >= 0)
       case D(op, _) => op == Return || op == LoadTrue || op == LoadFalse
  }

  lemma ReadLength(a: nat, b: nat)
    requires a < 6 && b < 6
    ensures Read(Decode(WordABC(Length, a, b, 0))) == ABC(Length, a, b, 0)
  {
    DecodeAE(Length, a, b);
    assert WordABC(Length, a, b, 0) == WordAE(Length, a, b);
  }

  lemma ReadABC(op: Opcode, a: nat, b: nat, c: nat)
    requires Readable(ABC(op, a, b, c)) && op != Length
    ensures Read(Decode(WordABC(op, a, b, c))) == ABC(op, a, b, c)
  {
    DecodeABC(op, a, b, c);
  }

  lemma ReadAE(op: Opcode, a: nat, imm: int)
    requires Readable(AE(op, a, imm))
    ensures Read(Decode(WordAE(op, a, imm))) == AE(op, a, imm)
  {
    DecodeAE(op, a, imm);
  }

  lemma ReadD(op: Opcode, d: nat)
    requires Readable(D(op, d))
    ensures Read(Decode(WordD(op, d))) == D(op, d)
  {
    DecodeD(op, d);
  }

  lemma ReadEncoded(m: Micro)
    requires Readable(m)
    ensures Read(Decode(Encode(m))) == m
  {
    match m {
      case ABC(op, a, b, c) =>
        if op == Length {
          ReadLength(a, b);
        } else {
          ReadABC(op, a, b, c);
        }
      case AE(op, a, imm) => ReadAE(op, a, imm);
      case D(op, d) => ReadD(op, d);
    }
  }

  ghost predicate AllReadable(code: seq<Micro>) {
    forall k :: 0 <= k < |code| ==> Readable(code[k])
  }

  ghost function Assemble(code: seq<Micro>): (r: seq<Word>)
    requires AllReadable(code)
    ensures |r| == |code| && forall k :: 0 <= k < |code| ==> r[k] == Encode(code[k])
  {
    seq(|code|, k requires 0 <= k < |code| => Encode(code[k]))
  }

  /** The assembled code takes one state to another in some number of steps. */
  ghost predicate Leads(w: World, code: seq<Micro>, s: State, t: State)
    requires AllReadable(code)
  {
    exists n: nat :: Iterate(Stepper(w, Assemble(code)), s, n) == t
  }

  /** Running assembled code is performing its instructions. */
  lemma Go(w: World, code: seq<Micro>, s: State, t: State)
    requires AllReadable(code) && s.Running? && 0 <= s.pc < |code| && t == Perform(w, s, code[s.pc])
    ensures Leads(w, code, s, t)
  {
    ReadEncoded(code[s.pc]);
    var f := Stepper(w, Assemble(code));
    assert Iterate(f, s, 0) == s;
    assert Iterate(f, s, 1) == f(s) == Step(w, Assemble(code), s) == t;
  }

  lemma {:induction false} IterateMore<S>(step: S -> S, s: S, m: nat, n: nat)
    ensures Iterate(step, Iterate(step, s, m), n) == Iterate(step, s, m + n)
  {
    if n > 0 {
      IterateMore(step, s, m, n - 1);
    }
  }

  lemma Then(w: World, code: seq<Micro>, a: State, b: State, c: State)
    requires AllReadable(code) && Leads(w, code, a, b) && Leads(w, code, b, c)
    ensures Leads(w, code, a, c)
  {
    var f := Stepper(w, Assemble(code));
    var m: nat :| Iterate(f, a, m) == b;
    var n: nat :| Iterate(f, b, n) == c;
    IterateMore(f, a, m, n);
  }

  /** One instruction and then the rest. */
  lemma GoThen(w: World, code: seq<Micro>, a: State, m: Micro, b: State, c: State)
    requires AllReadable(code) && a.Running? && 0 <= a.pc < |code| && code[a.pc] == m && Layout(m)
    requires b == Perform(w, a, m)
    requires Leads(w, code, b, c)
    ensures Leads(w, code, a, c)
  {
    Go(w, code, a, b);
    Then(w, code, a, b, c);
  }

  predicate Operator(op: Opcode) {
    op in {Add, Subtract, Multiply, Divide, DivideFloor, Modulo, Remainder, Band, Bor, Bxor,
           ShiftLeft, ShiftRight, ShiftRightUnsigned,
           GreaterThan, LessThan, GreaterThanEqual, LessThanEqual, Equals, NotEquals}
  }

  function VarOpCode(op: Opcode, nullary: int, unary: int): seq<Micro> {
    [ABC(Length, 1, 0, 0),
     ABC(EqualsImmediate, 2, 1, 0),
     AE(JumpIfNot, 2, 3),
     AE(LoadInteger, 3, nullary),
     D(Return, 3),
     ABC(EqualsImmediate, 2, 1, 1),
     AE(JumpIfNot, 2, 5),
     AE(LoadInteger, 3, unary),
     ABC(GetIndex, 4, 0, 0),
     ABC(op, 3, 3, 4),
     D(Return, 3),
     ABC(GetIndex, 3, 0, 0),
     AE(LoadInteger, 5, 1),
     ABC(In, 4, 0, 5),
     ABC(op, 3, 3, 4),
     ABC(AddImmediate, 5, 5, 1),
     ABC(Equals, 2, 5, 1),
     AE(JumpIfNot, 2, -4),
     D(Return, 3)]
  }

  predicate Small(n: int) {
    -0x8000 <= n < 0x8000
  }

  lemma VarOpReadable(op: Opcode, nullary: int, unary: int)
    requires Operator(op) && Small(nullary) && Small(unary)
    ensures AllReadable(VarOpCode(op, nullary, unary))
  {
  }

  /** The left fold of an operator. */
  function Fold(w: World, op: Opcode, args: seq<Value>): Value
    requires args != []
  {
    if |args| == 1 then args[0] else w.binary(op, Fold(w, op, args[..|args| - 1]), args[|args| - 1])
  }

  /** What a variadic operator means. */
  function VarOp(w: World, op: Opcode, nullary: int, unary: int, args: seq<Value>): Value {
    if |args| == 0 then Number(nullary)
    else if |args| == 1 then w.binary(op, Number(unary), args[0])
    else Fold(w, op, args)
  }

  function Regs(pc: int, r0: Value, r1: Value, r2: Value, r3: Value, r4: Value, r5: Value): State {
    Running(pc, Six(r0, r1, r2, r3, r4, r5))
  }

  lemma DoOperator(w: World, s: State, op: Opcode, a: nat, b: nat, c: nat)
    requires s.Running? && Operator(op) && a < 6 && b < 6 && c < 6
    ensures Perform(w, s, ABC(op, a, b, c)) == Next(s, a, w.binary(op, s.regs.Get(b), s.regs.Get(c)))
  {
  }

  /** The main loop of a variadic operator. */
  ghost predicate HasVarOpLoop(code: seq<Micro>, op: Opcode) {
    && AllReadable(code) && Operator(op) && |code| == 19
    && code[13] == ABC(In, 4, 0, 5) && code[14] == ABC(op, 3, 3, 4) && code[15] == ABC(AddImmediate, 5, 5, 1)
    && code[16] == ABC(Equals, 2, 5, 1) && code[17] == AE(JumpIfNot, 2, -4) && code[18] == D(Return, 3)
  }

  lemma DoVarOpRound(w: World, op: Opcode, args: seq<Value>, i: nat, r2: Value, acc: Value, r4: Value)
    requires w.Sane() && Operator(op) && i < |args|
    ensures var t, n, next, end := Tuple(args), Number(|args|), w.binary(op, acc, args[i]), i + 1 == |args|;
            && Perform(w, Regs(13, t, n, r2, acc, r4, Number(i)), ABC(In, 4, 0, 5))
                 == Regs(14, t, n, r2, acc, args[i], Number(i))
            && Perform(w, Regs(14, t, n, r2, acc, args[i], Number(i)), ABC(op, 3, 3, 4))
                 == Regs(15, t, n, r2, next, args[i], Number(i))
            && Perform(w, Regs(15, t, n, r2, next, args[i], Number(i)), ABC(AddImmediate, 5, 5, 1))
                 == Regs(16, t, n, r2, next, args[i], Number(i + 1))
            && Perform(w, Regs(16, t, n, r2, next, args[i], Number(i + 1)), ABC(Equals, 2, 5, 1))
                 == Regs(17, t, n, Boolean(end), next, args[i], Number(i + 1))
            && Perform(w, Regs(17, t, n, Boolean(end), next, args[i], Number(i + 1)), AE(JumpIfNot, 2, -4))
               == Regs(if end then 18 else 13, t, n, Boolean(end), next, args[i], Number(i + 1))
  {
    DoOperator(w, Regs(14, Tuple(args), Number(|args|), r2, acc, args[i], Number(i)), op, 3, 3, 4);
  }

  /** One round of the main loop. */
  lemma VarOpRound(w: World, code: seq<Micro>, op: Opcode, args: seq<Value>, i: nat, r2: Value, acc: Value, r4: Value,
                   end: State)
    requires w.Sane() && HasVarOpLoop(code, op) && i < |args|
    requires Leads(w, code,
             Regs(if i + 1 == |args| then 18 else 13, Tuple(args), Number(|args|), Boolean(i + 1 == |args|),
                                 w.binary(op, acc, args[i]), args[i], Number(i + 1)), end)
    ensures Leads(w, code, Regs(13, Tuple(args), Number(|args|), r2, acc, r4, Number(i)), end)
  {
    var t, n, next, last := Tuple(args), Number(|args|), w.binary(op, acc, args[i]), i + 1 == |args|;
    DoVarOpRound(w, op, args, i, r2, acc, r4);
    var s13, s14 := Regs(13, t, n, r2, acc, r4, Number(i)), Regs(14, t, n, r2, acc, args[i], Number(i));
    var s15, s16 := Regs(15, t, n, r2, next, args[i], Number(i)), Regs(16, t, n, r2, next, args[i], Number(i + 1));
    var s17 := Regs(17, t, n, Boolean(last), next, args[i], Number(i + 1));
    GoThen(w, code, s17, code[17], Regs(if last then 18 else 13, t, n, Boolean(last), next, args[i], Number(i + 1)),
      end);
    GoThen(w, code, s16, code[16], s17, end);
    GoThen(w, code, s15, code[15], s16, end);
    GoThen(w, code, s14, code[14], s15, end);
    GoThen(w, code, s13, code[13], s14, end);
  }

  lemma FoldOne(w: World, op: Opcode, args: seq<Value>)
    requires args != []
    ensures Fold(w, op, args[..1]) == args[0]
  {
  }

  lemma FoldNext(w: World, op: Opcode, args: seq<Value>, i: nat)
    requires 0 < i < |args|
    ensures Fold(w, op, args[..i + 1]) == w.binary(op, Fold(w, op, args[..i]), args[i])
    ensures i + 1 == |args| ==> Fold(w, op, args[..i + 1]) == Fold(w, op, args)
  {
    assert args[..i + 1][..i] == args[..i] && args[..i + 1][i] == args[i];
    if i + 1 == |args| {
      assert args[..i + 1] == args;
    }
  }

  lemma VarOpReturn(w: World, code: seq<Micro>, op: Opcode, regs: Six)
    requires HasVarOpLoop(code, op)
    ensures Leads(w, code, Running(18, regs), Returned(regs.r3))
  {
    Go(w, code, Running(18, regs), Returned(regs.r3));
  }

  /** The rest of the main loop. */
  lemma {:induction false} VarOpLoop(w: World, code: seq<Micro>, op: Opcode, args: seq<Value>, i: nat, r2: Value,
                                     acc: Value, r4: Value)
    requires w.Sane() && HasVarOpLoop(code, op) && 0 < i < |args| && acc == Fold(w, op, args[..i])
    ensures Leads(w, code, Regs(13, Tuple(args), Number(|args|), r2, acc, r4, Number(i)), Returned(Fold(w, op, args)))
    decreases |args| - i
  {
    FoldNext(w, op, args, i);
    var next := w.binary(op, acc, args[i]);
    if i + 1 == |args| {
      VarOpReturn(w, code, op, Six(Tuple(args), Number(|args|), Boolean(true), next, args[i], Number(i + 1)));
    } else {
      VarOpLoop(w, code, op, args, i + 1, Boolean(false), next, args[i]);
    }
    VarOpRound(w, code, op, args, i, r2, acc, r4, Returned(Fold(w, op, args)));
  }

  /** What comes before the loop: the tests for no and for one argument. */
  ghost predicate HasVarOpTests(code: seq<Micro>, op: Opcode, nullary: int, unary: int) {
    && |code| == 19 && Small(nullary) && Small(unary)
    && code[0] == ABC(Length, 1, 0, 0) && code[1] == ABC(EqualsImmediate, 2, 1, 0) && code[2] == AE(JumpIfNot, 2, 3)
    && code[3] == AE(LoadInteger, 3, nullary) && code[4] == D(Return, 3)
    && code[5] == ABC(EqualsImmediate, 2, 1, 1) && code[6] == AE(JumpIfNot, 2, 5)
    && code[7] == AE(LoadInteger, 3, unary) && code[8] == ABC(GetIndex, 4, 0, 0) && code[9] == ABC(op, 3, 3, 4)
    && code[10] == D(Return, 3)
    && code[11] == ABC(GetIndex, 3, 0, 0) && code[12] == AE(LoadInteger, 5, 1)
  }

  /** The first registers on entry to a loop. */
  function Entry(args: seq<Value>): State {
    Regs(0, Tuple(args), Nil, Nil, Nil, Nil, Nil)
  }

  lemma DoVarOpTests(w: World, args: seq<Value>)
    ensures var t, n, z := Tuple(args), Number(|args|), |args| == 0;
            && Perform(w, Entry(args), ABC(Length, 1, 0, 0)) == Regs(1, t, n, Nil, Nil, Nil, Nil)
            && Perform(w, Regs(1, t, n, Nil, Nil, Nil, Nil), ABC(EqualsImmediate, 2, 1, 0))
                 == Regs(2, t, n, Boolean(z), Nil, Nil, Nil)
            && Perform(w, Regs(2, t, n, Boolean(z), Nil, Nil, Nil), AE(JumpIfNot, 2, 3))
                 == Regs(if z then 3 else 5, t, n, Boolean(z), Nil, Nil, Nil)
  {
  }

  lemma DoVarOpSecondTest(w: World, args: seq<Value>)
    ensures var t, n, one := Tuple(args), Number(|args|), |args| == 1;
            && Perform(w, Regs(5, t, n, Boolean(false), Nil, Nil, Nil), ABC(EqualsImmediate, 2, 1, 1))
                 == Regs(6, t, n, Boolean(one), Nil, Nil, Nil)
            && Perform(w, Regs(6, t, n, Boolean(one), Nil, Nil, Nil), AE(JumpIfNot, 2, 5))
                 == Regs(if one then 7 else 11, t, n, Boolean(one), Nil, Nil, Nil)
  {
  }

  lemma DoVarOpPrime(w: World, args: seq<Value>, r1: Value, r2: Value)
    requires args != []
    ensures var t := Tuple(args);
            && Perform(w, Regs(11, t, r1, r2, Nil, Nil, Nil), ABC(GetIndex, 3, 0, 0))
                 == Regs(12, t, r1, r2, args[0], Nil, Nil)
            && Perform(w, Regs(12, t, r1, r2, args[0], Nil, Nil), AE(LoadInteger, 5, 1))
                 == Regs(13, t, r1, r2, args[0], Nil, Number(1))
  {
  }

  lemma DoVarOpUnary(w: World, args: seq<Value>, unary: int, r1: Value, r2: Value, v: Value)
    requires Small(unary) && |args| == 1
    ensures var t, x := Tuple(args), args[0];
            && Perform(w, Regs(7, t, r1, r2, Nil, Nil, Nil), AE(LoadInteger, 3, unary))
                 == Regs(8, t, r1, r2, Number(unary), Nil, Nil)
            && Perform(w, Regs(8, t, r1, r2, Number(unary), Nil, Nil), ABC(GetIndex, 4, 0, 0))
                 == Regs(9, t, r1, r2, Number(unary), x, Nil)
            && Perform(w, Regs(10, t, r1, r2, v, x, Nil), D(Return, 3)) == Returned(v)
  {
  }

  lemma VarOpTests(w: World, code: seq<Micro>, op: Opcode, nullary: int, unary: int, args: seq<Value>, end: State)
    requires HasVarOpLoop(code, op) && HasVarOpTests(code, op, nullary, unary)
    requires Leads(w, code,
             Regs(if |args| == 0 then 3 else 5, Tuple(args), Number(|args|), Boolean(|args| == 0), Nil, Nil, Nil), end)
    ensures Leads(w, code, Entry(args), end)
  {
    var t, n := Tuple(args), Number(|args|);
    var s1, s2 := Regs(1, t, n, Nil, Nil, Nil, Nil), Regs(2, t, n, Boolean(|args| == 0), Nil, Nil, Nil);
    DoVarOpTests(w, args);
    GoThen(w, code, s2, code[2], Regs(if |args| == 0 then 3 else 5, t, n, Boolean(|args| == 0), Nil, Nil, Nil), end);
    GoThen(w, code, s1, code[1], s2, end);
    GoThen(w, code, Entry(args), code[0], s1, end);
  }

  lemma DoNullary(w: World, nullary: int, r0: Value, r1: Value, r2: Value)
    requires Small(nullary)
    ensures Perform(w, Regs(3, r0, r1, r2, Nil, Nil, Nil), AE(LoadInteger, 3, nullary))
            == Regs(4, r0, r1, r2, Number(nullary), Nil, Nil)
    ensures Perform(w, Regs(4, r0, r1, r2, Number(nullary), Nil, Nil), D(Return, 3)) == Returned(Number(nullary))
  {
  }

  lemma VarOpNullary(w: World, code: seq<Micro>, op: Opcode, nullary: int, unary: int, args: seq<Value>)
    requires HasVarOpLoop(code, op) && HasVarOpTests(code, op, nullary, unary) && |args| == 0
    ensures Leads(w, code, Entry(args), Returned(Number(nullary)))
  {
    var t, n, yes := Tuple(args), Number(0), Boolean(true);
    var s3, s4 := Regs(3, t, n, yes, Nil, Nil, Nil), Regs(4, t, n, yes, Number(nullary), Nil, Nil);
    DoNullary(w, nullary, t, n, yes);
    Go(w, code, s4, Returned(Number(nullary)));
    GoThen(w, code, s3, code[3], s4, Returned(Number(nullary)));
    VarOpTests(w, code, op, nullary, unary, args, Returned(Number(nullary)));
  }

  lemma VarOpUnary(w: World, code: seq<Micro>, op: Opcode, nullary: int, unary: int, args: seq<Value>)
    requires HasVarOpLoop(code, op) && HasVarOpTests(code, op, nullary, unary) && |args| == 1
    ensures Leads(w, code, Entry(args), Returned(w.binary(op, Number(unary), args[0])))
  {
    var t, n, yes, v := Tuple(args), Number(1), Boolean(true), w.binary(op, Number(unary), args[0]);
    var s7, s8 := Regs(7, t, n, yes, Nil, Nil, Nil), Regs(8, t, n, yes, Number(unary), Nil, Nil);
    var s9, s10 := Regs(9, t, n, yes, Number(unary), args[0], Nil), Regs(10, t, n, yes, v, args[0], Nil);
    DoVarOpUnary(w, args, unary, n, yes, v);
    DoOperator(w, s9, op, 3, 3, 4);
    Go(w, code, s10, Returned(v));
    GoThen(w, code, s9, code[9], s10, Returned(v));
    GoThen(w, code, s8, code[8], s9, Returned(v));
    GoThen(w, code, s7, code[7], s8, Returned(v));
    VarOpSecondTest(w, code, op, nullary, unary, args, Returned(v));
  }

  lemma VarOpSecondTest(w: World, code: seq<Micro>, op: Opcode, nullary: int, unary: int, args: seq<Value>, end: State)
    requires HasVarOpLoop(code, op) && HasVarOpTests(code, op, nullary, unary) && |args| > 0
    requires Leads(w, code,
             Regs(if |args| == 1 then 7 else 11, Tuple(args), Number(|args|), Boolean(|args| == 1), Nil, Nil, Nil), end)
    ensures Leads(w, code, Entry(args), end)
  {
    var t, n := Tuple(args), Number(|args|);
    var s5, s6 := Regs(5, t, n, Boolean(false), Nil, Nil, Nil), Regs(6, t, n, Boolean(|args| == 1), Nil, Nil, Nil);
    DoVarOpSecondTest(w, args);
    GoThen(w, code, s6, code[6], Regs(if |args| == 1 then 7 else 11, t, n, Boolean(|args| == 1), Nil, Nil, Nil), end);
    GoThen(w, code, s5, code[5], s6, end);
    VarOpTests(w, code, op, nullary, unary, args, end);
  }

  lemma VarOpMany(w: World, code: seq<Micro>, op: Opcode, nullary: int, unary: int, args: seq<Value>)
    requires w.Sane() && HasVarOpLoop(code, op) && HasVarOpTests(code, op, nullary, unary) && |args| > 1
    ensures Leads(w, code, Entry(args), Returned(Fold(w, op, args)))
  {
    var t, n, no, end := Tuple(args), Number(|args|), Boolean(false), Returned(Fold(w, op, args));
    var s11, s12 := Regs(11, t, n, no, Nil, Nil, Nil), Regs(12, t, n, no, args[0], Nil, Nil);
    FoldOne(w, op, args);
    VarOpLoop(w, code, op, args, 1, no, args[0], Nil);
    DoVarOpPrime(w, args, n, no);
    GoThen(w, code, s12, code[12], Regs(13, t, n, no, args[0], Nil, Number(1)), end);
    GoThen(w, code, s11, code[11], s12, end);
    VarOpSecondTest(w, code, op, nullary, unary, args, end);
  }

  lemma VarOpHasLoop(op: Opcode, nullary: int, unary: int)
    requires Operator(op) && Small(nullary) && Small(unary)
    ensures HasVarOpLoop(VarOpCode(op, nullary, unary), op)
  {
    VarOpReadable(op, nullary, unary);
  }

  lemma VarOpHas(op: Opcode, nullary: int, unary: int)
    requires Operator(op) && Small(nullary) && Small(unary)
    ensures HasVarOpTests(VarOpCode(op, nullary, unary), op, nullary, unary)
  {
  }

  lemma VarOpCases(w: World, code: seq<Micro>, op: Opcode, nullary: int, unary: int, args: seq<Value>)
    requires w.Sane() && HasVarOpLoop(code, op) && HasVarOpTests(code, op, nullary, unary)
    ensures Leads(w, code, Entry(args), Returned(VarOp(w, op, nullary, unary, args)))
  {
    if |args| == 0 {
      VarOpNullary(w, code, op, nullary, unary, args);
    } else if |args| == 1 {
      VarOpUnary(w, code, op, nullary, unary, args);
    } else {
      VarOpMany(w, code, op, nullary, unary, args);
    }
  }

  /** For any number of arguments the loop returns the left fold, or what no or one argument stand for. */
  lemma VarOpComputes(w: World, op: Opcode, nullary: int, unary: int, args: seq<Value>)
    requires w.Sane() && Operator(op) && Small(nullary) && Small(unary)
    ensures AllReadable(VarOpCode(op, nullary, unary))
    ensures Leads(w, VarOpCode(op, nullary, unary), Entry(args), Returned(VarOp(w, op, nullary, unary, args)))
  {
    VarOpHasLoop(op, nullary, unary);
    VarOpHas(op, nullary, unary);
    VarOpCases(w, VarOpCode(op, nullary, unary), op, nullary, unary, args);
  }
}
