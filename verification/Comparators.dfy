/** The variadic comparators as bytecode loops. */
module Comparators {
  import opened Bytecode
  import opened VarOps

  function ComparatorCode(op: Opcode, invert: bool): seq<Micro> {
    [ABC(Length, 1, 0, 0),
     ABC(LessThanImmediate, 2, 1, 2),
     AE(JumpIf, 2, 10),
     ABC(GetIndex, 3, 0, 0),
     AE(LoadInteger, 5, 1),
     ABC(In, 4, 0, 5),
     ABC(op, 2, 3, 4),
     AE(JumpIfNot, 2, 7),
     ABC(AddImmediate, 5, 5, 1),
     AE(MoveNear, 3, 4),
     ABC(Equals, 2, 5, 1),
     AE(JumpIfNot, 2, -6),
     D(if invert then LoadFalse else LoadTrue, 3),
     D(Return, 3),
     D(if invert then LoadTrue else LoadFalse, 3),
     D(Return, 3)]
  }

  /** Every argument from the i-th on stands in the relation to the one before it. */
  predicate ChainedFrom(w: World, op: Opcode, args: seq<Value>, i: nat)
    requires i > 0
    decreases |args| - i
  {
    i >= |args| || (Truthy(w.binary(op, args[i - 1], args[i])) && ChainedFrom(w, op, args, i + 1))
  }

  /** What a variadic comparator means. */
  function Compared(w: World, op: Opcode, invert: bool, args: seq<Value>): Value {
    Boolean(ChainedFrom(w, op, args, 1) != invert)
  }

  ghost predicate HasComparator(code: seq<Micro>, op: Opcode, invert: bool) {
    && Operator(op) && |code| == 16
    && code[0] == ABC(Length, 1, 0, 0) && code[1] == ABC(LessThanImmediate, 2, 1, 2) && code[2] == AE(JumpIf, 2, 10)
    && code[3] == ABC(GetIndex, 3, 0, 0) && code[4] == AE(LoadInteger, 5, 1)
    && code[5] == ABC(In, 4, 0, 5) && code[6] == ABC(op, 2, 3, 4) && code[7] == AE(JumpIfNot, 2, 7)
    && code[8] == ABC(AddImmediate, 5, 5, 1) && code[9] == AE(MoveNear, 3, 4)
    && code[10] == ABC(Equals, 2, 5, 1) && code[11] == AE(JumpIfNot, 2, -6)
    && code[12] == D(if invert then LoadFalse else LoadTrue, 3) && code[13] == D(Return, 3)
    && code[14] == D(if invert then LoadTrue else LoadFalse, 3) && code[15] == D(Return, 3)
  }

  lemma ComparatorReadable(op: Opcode, invert: bool)
    requires Operator(op)
    ensures AllReadable(ComparatorCode(op, invert))
  {
  }

  lemma DoEnd(w: World, pc: int, regs: Six, b: bool)
    ensures Perform(w, Running(pc, regs), D(if b then LoadTrue else LoadFalse, 3))
            == Running(pc + 1, regs.Set(3, Boolean(b)))
    ensures Perform(w, Running(pc + 1, regs.Set(3, Boolean(b))), D(Return, 3)) == Returned(Boolean(b))
  {
  }

  /** Every test held. */
  lemma EndHeld(w: World, code: seq<Micro>, op: Opcode, invert: bool, regs: Six)
    requires AllReadable(code) && HasComparator(code, op, invert)
    ensures Leads(w, code, Running(12, regs), Returned(Boolean(!invert)))
  {
    DoEnd(w, 12, regs, !invert);
    Go(w, code, Running(13, regs.Set(3, Boolean(!invert))), Returned(Boolean(!invert)));
    GoThen(w, code, Running(12, regs), code[12], Running(13, regs.Set(3, Boolean(!invert))),
      Returned(Boolean(!invert)));
  }

  /** A test failed. */
  lemma EndFailed(w: World, code: seq<Micro>, op: Opcode, invert: bool, regs: Six)
    requires AllReadable(code) && HasComparator(code, op, invert)
    ensures Leads(w, code, Running(14, regs), Returned(Boolean(invert)))
  {
    DoEnd(w, 14, regs, invert);
    Go(w, code, Running(15, regs.Set(3, Boolean(invert))), Returned(Boolean(invert)));
    GoThen(w, code, Running(14, regs), code[14], Running(15, regs.Set(3, Boolean(invert))), Returned(Boolean(invert)));
  }

  lemma DoCompare(w: World, op: Opcode, args: seq<Value>, i: nat, r2: Value, r4: Value)
    requires Operator(op) && 0 < i < |args|
    ensures var t, n, last, v := Tuple(args), Number(|args|), args[i - 1], w.binary(op, args[i - 1], args[i]);
            && Perform(w, Regs(5, t, n, r2, last, r4, Number(i)), ABC(In, 4, 0, 5))
                 == Regs(6, t, n, r2, last, args[i], Number(i))
            && Perform(w, Regs(6, t, n, r2, last, args[i], Number(i)), ABC(op, 2, 3, 4))
                 == Regs(7, t, n, v, last, args[i], Number(i))
            && Perform(w, Regs(7, t, n, v, last, args[i], Number(i)), AE(JumpIfNot, 2, 7))
               == Regs(if Truthy(v) then 8 else 14, t, n, v, last, args[i], Number(i))
  {
    DoOperator(w, Regs(6, Tuple(args), Number(|args|), r2, args[i - 1], args[i], Number(i)), op, 2, 3, 4);
  }

  lemma DoAdvance(w: World, args: seq<Value>, i: nat, r2: Value)
    requires w.Sane() && 0 < i < |args|
    ensures var t, n, last, next, end := Tuple(args), Number(|args|), args[i - 1], args[i], i + 1 == |args|;
            && Perform(w, Regs(8, t, n, r2, last, next, Number(i)), ABC(AddImmediate, 5, 5, 1))
                 == Regs(9, t, n, r2, last, next, Number(i + 1))
            && Perform(w, Regs(9, t, n, r2, last, next, Number(i + 1)), AE(MoveNear, 3, 4))
                 == Regs(10, t, n, r2, next, next, Number(i + 1))
            && Perform(w, Regs(10, t, n, r2, next, next, Number(i + 1)), ABC(Equals, 2, 5, 1))
                 == Regs(11, t, n, Boolean(end), next, next, Number(i + 1))
            && Perform(w, Regs(11, t, n, Boolean(end), next, next, Number(i + 1)), AE(JumpIfNot, 2, -6))
               == Regs(if end then 12 else 5, t, n, Boolean(end), next, next, Number(i + 1))
  {
  }

  /** One test, which leads on to the next argument or to the end. */
  lemma CompareStep(w: World, code: seq<Micro>, op: Opcode, invert: bool, args: seq<Value>, i: nat, r2: Value,
                    r4: Value, end: State)
    requires AllReadable(code) && HasComparator(code, op, invert) && 0 < i < |args|
    requires var v := w.binary(op, args[i - 1], args[i]);
             Leads(w, code,
               Regs(if Truthy(v) then 8 else 14, Tuple(args), Number(|args|), v, args[i - 1], args[i], Number(i)), end)
    ensures Leads(w, code, Regs(5, Tuple(args), Number(|args|), r2, args[i - 1], r4, Number(i)), end)
  {
    var t, n, last, v := Tuple(args), Number(|args|), args[i - 1], w.binary(op, args[i - 1], args[i]);
    DoCompare(w, op, args, i, r2, r4);
    var s6, s7 := Regs(6, t, n, r2, last, args[i], Number(i)), Regs(7, t, n, v, last, args[i], Number(i));
    GoThen(w, code, s7, code[7], Regs(if Truthy(v) then 8 else 14, t, n, v, last, args[i], Number(i)), end);
    GoThen(w, code, s6, code[6], s7, end);
    GoThen(w, code, Regs(5, t, n, r2, last, r4, Number(i)), code[5], s6, end);
  }

  lemma AdvanceStep(w: World, code: seq<Micro>, op: Opcode, invert: bool, args: seq<Value>, i: nat, r2: Value,
                    end: State)
    requires w.Sane() && AllReadable(code) && HasComparator(code, op, invert) && 0 < i < |args|
    requires var last := i + 1 == |args|;
             Leads(w, code,
               Regs(if last then 12 else 5, Tuple(args), Number(|args|), Boolean(last), args[i], args[i],
               Number(i + 1)), end)
    ensures Leads(w, code, Regs(8, Tuple(args), Number(|args|), r2, args[i - 1], args[i], Number(i)), end)
  {
    var t, n, next, last := Tuple(args), Number(|args|), args[i], i + 1 == |args|;
    DoAdvance(w, args, i, r2);
    var s9, s10 := Regs(9, t, n, r2, args[i - 1], next, Number(i + 1)), Regs(10, t, n, r2, next, next, Number(i + 1));
    var s11 := Regs(11, t, n, Boolean(last), next, next, Number(i + 1));
    GoThen(w, code, s11, code[11], Regs(if last then 12 else 5, t, n, Boolean(last), next, next, Number(i + 1)), end);
    GoThen(w, code, s10, code[10], s11, end);
    GoThen(w, code, s9, code[9], s10, end);
    GoThen(w, code, Regs(8, t, n, r2, args[i - 1], next, Number(i)), code[8], s9, end);
  }

  /** The state in which the i-th argument is compared with the one before it. */
  function Comparing(args: seq<Value>, i: nat, r2: Value, r4: Value): State
    requires 0 < i < |args|
  {
    Regs(5, Tuple(args), Number(|args|), r2, args[i - 1], r4, Number(i))
  }

  lemma LoopFails(w: World, code: seq<Micro>, op: Opcode, invert: bool, args: seq<Value>, i: nat, r2: Value, r4: Value)
    requires AllReadable(code) && HasComparator(code, op, invert) && 0 < i < |args|
    requires !Truthy(w.binary(op, args[i - 1], args[i]))
    ensures Leads(w, code, Comparing(args, i, r2, r4), Returned(Boolean(invert)))
  {
    var v := w.binary(op, args[i - 1], args[i]);
    EndFailed(w, code, op, invert, Six(Tuple(args), Number(|args|), v, args[i - 1], args[i], Number(i)));
    CompareStep(w, code, op, invert, args, i, r2, r4, Returned(Boolean(invert)));
  }

  lemma LoopEnds(w: World, code: seq<Micro>, op: Opcode, invert: bool, args: seq<Value>, i: nat, r2: Value, r4: Value)
    requires w.Sane() && AllReadable(code) && HasComparator(code, op, invert) && 0 < i && i + 1 == |args|
    requires Truthy(w.binary(op, args[i - 1], args[i]))
    ensures Leads(w, code, Comparing(args, i, r2, r4), Returned(Boolean(!invert)))
  {
    EndHeld(w, code, op, invert, Six(Tuple(args), Number(|args|), Boolean(true), args[i], args[i], Number(i + 1)));
    AdvanceStep(w, code, op, invert, args, i, w.binary(op, args[i - 1], args[i]), Returned(Boolean(!invert)));
    CompareStep(w, code, op, invert, args, i, r2, r4, Returned(Boolean(!invert)));
  }

  lemma LoopGoesOn(w: World, code: seq<Micro>, op: Opcode, invert: bool, args: seq<Value>, i: nat, r2: Value,
                   r4: Value, end: State)
    requires w.Sane() && AllReadable(code) && HasComparator(code, op, invert) && 0 < i && i + 1 < |args|
    requires Truthy(w.binary(op, args[i - 1], args[i]))
    requires Leads(w, code, Comparing(args, i + 1, Boolean(false), args[i]), end)
    ensures Leads(w, code, Comparing(args, i, r2, r4), end)
  {
    AdvanceStep(w, code, op, invert, args, i, w.binary(op, args[i - 1], args[i]), end);
    CompareStep(w, code, op, invert, args, i, r2, r4, end);
  }

  lemma ChainedNext(w: World, op: Opcode, args: seq<Value>, i: nat)
    requires 0 < i < |args|
    ensures ChainedFrom(w, op, args, i)
            == (Truthy(w.binary(op, args[i - 1], args[i])) && (i + 1 == |args| || ChainedFrom(w, op, args, i + 1)))
  {
  }

  /** The loop from the i-th argument on. */
  lemma {:induction false} ComparatorLoop(w: World, code: seq<Micro>, op: Opcode, invert: bool, args: seq<Value>,
                                          i: nat, r2: Value, r4: Value,
                                          chained: bool)
    requires w.Sane() && AllReadable(code) && HasComparator(code, op, invert) && 0 < i < |args|
    requires chained == ChainedFrom(w, op, args, i)
    ensures Leads(w, code, Comparing(args, i, r2, r4), Returned(Boolean(chained != invert)))
    decreases |args| - i
  {
    ChainedNext(w, op, args, i);
    if !Truthy(w.binary(op, args[i - 1], args[i])) {
      LoopFails(w, code, op, invert, args, i, r2, r4);
    } else if i + 1 == |args| {
      LoopEnds(w, code, op, invert, args, i, r2, r4);
    } else {
      ComparatorLoop(w, code, op, invert, args, i + 1, Boolean(false), args[i], chained);
      LoopGoesOn(w, code, op, invert, args, i, r2, r4, Returned(Boolean(chained != invert)));
    }
  }

  lemma DoComparatorTests(w: World, args: seq<Value>)
    ensures var t, n, few := Tuple(args), Number(|args|), |args| < 2;
            && Perform(w, Entry(args), ABC(Length, 1, 0, 0)) == Regs(1, t, n, Nil, Nil, Nil, Nil)
            && Perform(w, Regs(1, t, n, Nil, Nil, Nil, Nil), ABC(LessThanImmediate, 2, 1, 2))
                 == Regs(2, t, n, Boolean(few), Nil, Nil, Nil)
            && Perform(w, Regs(2, t, n, Boolean(few), Nil, Nil, Nil), AE(JumpIf, 2, 10))
                 == Regs(if few then 12 else 3, t, n, Boolean(few), Nil, Nil, Nil)
  {
  }

  lemma DoComparatorPrime(w: World, args: seq<Value>, r1: Value, r2: Value)
    requires args != []
    ensures var t := Tuple(args);
            && Perform(w, Regs(3, t, r1, r2, Nil, Nil, Nil), ABC(GetIndex, 3, 0, 0))
                 == Regs(4, t, r1, r2, args[0], Nil, Nil)
            && Perform(w, Regs(4, t, r1, r2, args[0], Nil, Nil), AE(LoadInteger, 5, 1))
                 == Regs(5, t, r1, r2, args[0], Nil, Number(1))
  {
  }

  lemma ComparatorTests(w: World, code: seq<Micro>, op: Opcode, invert: bool, args: seq<Value>, end: State)
    requires AllReadable(code) && HasComparator(code, op, invert)
    requires Leads(w, code,
             Regs(if |args| < 2 then 12 else 3, Tuple(args), Number(|args|), Boolean(|args| < 2), Nil, Nil, Nil), end)
    ensures Leads(w, code, Entry(args), end)
  {
    var t, n := Tuple(args), Number(|args|);
    DoComparatorTests(w, args);
    var s1, s2 := Regs(1, t, n, Nil, Nil, Nil, Nil), Regs(2, t, n, Boolean(|args| < 2), Nil, Nil, Nil);
    GoThen(w, code, s2, code[2], Regs(if |args| < 2 then 12 else 3, t, n, Boolean(|args| < 2), Nil, Nil, Nil), end);
    GoThen(w, code, s1, code[1], s2, end);
    GoThen(w, code, Entry(args), code[0], s1, end);
  }

  lemma ComparatorFew(w: World, code: seq<Micro>, op: Opcode, invert: bool, args: seq<Value>)
    requires AllReadable(code) && HasComparator(code, op, invert) && |args| < 2
    ensures Leads(w, code, Entry(args), Returned(Compared(w, op, invert, args)))
  {
    EndHeld(w, code, op, invert, Six(Tuple(args), Number(|args|), Boolean(true), Nil, Nil, Nil));
    ComparatorTests(w, code, op, invert, args, Returned(Boolean(!invert)));
  }

  lemma ComparatorMany(w: World, code: seq<Micro>, op: Opcode, invert: bool, args: seq<Value>)
    requires w.Sane() && AllReadable(code) && HasComparator(code, op, invert) && |args| >= 2
    ensures Leads(w, code, Entry(args), Returned(Compared(w, op, invert, args)))
  {
    var t, n, end := Tuple(args), Number(|args|), Returned(Compared(w, op, invert, args));
    var s3, s4 := Regs(3, t, n, Boolean(false), Nil, Nil, Nil), Regs(4, t, n, Boolean(false), args[0], Nil, Nil);
    ComparatorLoop(w, code, op, invert, args, 1, Boolean(false), Nil, ChainedFrom(w, op, args, 1));
    DoComparatorPrime(w, args, n, Boolean(false));
    GoThen(w, code, s4, code[4], Comparing(args, 1, Boolean(false), Nil), end);
    GoThen(w, code, s3, code[3], s4, end);
    ComparatorTests(w, code, op, invert, args, end);
  }

  lemma ComparatorHas(op: Opcode, invert: bool)
    requires Operator(op)
    ensures HasComparator(ComparatorCode(op, invert), op, invert)
  {
  }

  /** For any number of arguments the loop tells whether all neighbours stand in the relation, or the
      opposite of that. */
  lemma ComparatorComputes(w: World, op: Opcode, invert: bool, args: seq<Value>)
    requires w.Sane() && Operator(op)
    ensures AllReadable(ComparatorCode(op, invert))
    ensures Leads(w, ComparatorCode(op, invert), Entry(args), Returned(Compared(w, op, invert, args)))
  {
    ComparatorReadable(op, invert);
    ComparatorHas(op, invert);
    if |args| < 2 {
      ComparatorFew(w, ComparatorCode(op, invert), op, invert, args);
    } else {
      ComparatorMany(w, ComparatorCode(op, invert), op, invert, args);
    }
  }
}
