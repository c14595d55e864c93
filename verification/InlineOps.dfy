/** The code that the compiler puts in place of a call of a variadic operator or comparator. */
module InlineOps {
  import opened Options
  import opened Bytecode
  import opened VarOps

  /** A slot: a constant, a register, a variable of an enclosing function, or a reference cell. */
  datatype Operand = Constant(v: Value) | Register(r: nat) | Upvalue(e: nat, i: nat) | Cell(n: nat)

  /** One operation; its result goes to the register t. */
  datatype Operation = Binary(op: Opcode, t: nat, x: Operand, y: Operand) | Immediate(op: Opcode, t: nat, x: Operand,
    imm: int)

  /** What the slots that are not constants hold. */
  type Store = Operand -> Value

  function Content(st: Store, o: Operand): Value {
    if o.Constant? then o.v else st(o)
  }

  function Contents(st: Store, args: seq<Operand>): (r: seq<Value>)
    ensures |r| == |args| && forall k :: 0 <= k < |args| ==> r[k] == Content(st, args[k])
  {
    seq(|args|, k requires 0 <= k < |args| => Content(st, args[k]))
  }

  function Result(w: World, o: Operation, st: Store): Value {
    match o
    case Binary(op, _, x, y) => w.binary(op, Content(st, x), Content(st, y))
    case Immediate(op, _, x, imm) => w.immediate(op, Content(st, x), imm)
  }

  function Do(w: World, o: Operation, st: Store): Store {
    (l: Operand) => if l == Register(o.t) then Result(w, o, st) else st(l)
  }

  function Run(w: World, ops: seq<Operation>, st: Store): Store {
    if ops == [] then st else Do(w, ops[|ops| - 1], Run(w, ops[..|ops| - 1], st))
  }

  /** The number of a constant that fits in a byte. */
  function SmallConstant(o: Operand): Option<int> {
    if o.Constant? && o.v.Number? && -128 <= o.v.n <= 127 then Some(o.v.n) else None
  }

  function OneOp(t: nat, x: Operand, y: Operand, op: Opcode, opim: Option<Opcode>): Operation {
    if opim.Some? && SmallConstant(y).Some? then Immediate(opim.value, t, x, SmallConstant(y).value)
      else Binary(op, t, x, y)
  }

  /** The immediate form of an operator does the same with a number. */
  ghost predicate Agrees(w: World, op: Opcode, opim: Option<Opcode>) {
    opim.Some? ==> forall x, n {:trigger w.immediate(opim.value, x, n)} ::
      -128 <= n <= 127 ==> w.immediate(opim.value, x, n) == w.binary(op, x, Number(n))
  }

  lemma OneOpResult(w: World, t: nat, x: Operand, y: Operand, op: Opcode, opim: Option<Opcode>, st: Store)
    requires Agrees(w, op, opim)
    ensures OneOp(t, x, y, op, opim).t == t
    ensures Result(w, OneOp(t, x, y, op, opim), st) == w.binary(op, Content(st, x), Content(st, y))
  {
  }

  /** The operations for the first n arguments. */
  function Reduced(args: seq<Operand>, n: nat, t: nat, op: Opcode, opim: Option<Opcode>): seq<Operation>
    requires 2 <= n <= |args|
  {
    if n == 2 then [OneOp(t, args[0], args[1], op, opim)]
    else Reduced(args, n - 1, t, op, opim) + [OneOp(t, Register(t), args[n - 1], op, opim)]
  }

  /** Operations, and the slot that holds the result. */
  datatype Inline = Inline(ops: seq<Operation>, result: Operand)

  function OpReduced(args: seq<Operand>, t: nat, op: Opcode, opim: Option<Opcode>, nullary: int, unary: int): Inline {
    if |args| == 0 then Inline([], Constant(Number(nullary)))
    else if |args| == 1 then
      if op == Subtract then Inline([Immediate(MultiplyImmediate, t, args[0], -1)], Register(t))
      else Inline([Binary(op, t, Constant(Number(unary)), args[0])], Register(t))
    else Inline(Reduced(args, |args|, t, op, opim), Register(t))
  }

  method OpReduce(args: seq<Operand>, t: nat, op: Opcode, opim: Option<Opcode>, nullary: int, unary: int)
    returns (ops: seq<Operation>, result: Operand)
    ensures Inline(ops, result) == OpReduced(args, t, op, opim, nullary, unary)
  {
    if |args| == 0 { return [], Constant(Number(nullary)); }
    if |args| == 1 {
      if op == Subtract {
        return [Immediate(MultiplyImmediate, t, args[0], -1)], Register(t);
      }
      return [Binary(op, t, Constant(Number(unary)), args[0])], Register(t);
    }
    var imm := SmallConstant(args[1]);
    if opim.Some? && imm.Some? {
      ops := [Immediate(opim.value, t, args[0], imm.value)];
    } else {
      ops := [Binary(op, t, args[0], args[1])];
    }
    for i := 2 to |args|
      invariant ops == Reduced(args, i, t, op, opim)
    {
      imm := SmallConstant(args[i]);
      if opim.Some? && imm.Some? {
        ops := ops + [Immediate(opim.value, t, Register(t), imm.value)];
      } else {
        ops := ops + [Binary(op, t, Register(t), args[i])];
      }
    }
    result := Register(t);
  }

  /** No operand after the second lives in the target. */
  predicate Unclobbered(args: seq<Operand>, n: nat, t: nat)
    requires n <= |args|
  {
    forall k :: 2 <= k < n ==> args[k] != Register(t)
  }

  lemma RunThen(w: World, ops: seq<Operation>, o: Operation, st: Store)
    ensures Run(w, ops + [o], st) == Do(w, o, Run(w, ops, st))
  {
    assert (ops + [o])[..|ops|] == ops;
  }

  lemma RunOne(w: World, o: Operation, st: Store)
    ensures Run(w, [o], st) == Do(w, o, st)
  {
    assert [o][..0] == [];
  }

  lemma {:induction false} RunFrame(w: World, args: seq<Operand>, n: nat, t: nat, op: Opcode, opim: Option<Opcode>,
                                    st: Store, l: Operand)
    requires 2 <= n <= |args| && l != Register(t)
    ensures Run(w, Reduced(args, n, t, op, opim), st)(l) == st(l)
    decreases n
  {
    if n == 2 {
      RunOne(w, OneOp(t, args[0], args[1], op, opim), st);
    } else {
      RunFrame(w, args, n - 1, t, op, opim, st, l);
      RunThen(w, Reduced(args, n - 1, t, op, opim), OneOp(t, Register(t), args[n - 1], op, opim), st);
    }
  }

  /** The value in the target after the operations for n arguments. */
  lemma ReducedNext(w: World, args: seq<Operand>, n: nat, t: nat, op: Opcode, opim: Option<Opcode>, st: Store)
    requires Agrees(w, op, opim) && 2 <= n < |args|
    ensures var before := Run(w, Reduced(args, n, t, op, opim), st);
            Run(w, Reduced(args, n + 1, t, op, opim), st)(Register(t))
            == w.binary(op, before(Register(t)),
                 if args[n] == Register(t) then before(Register(t)) else Content(st, args[n]))
  {
    var before := Run(w, Reduced(args, n, t, op, opim), st);
    RunThen(w, Reduced(args, n, t, op, opim), OneOp(t, Register(t), args[n], op, opim), st);
    OneOpResult(w, t, Register(t), args[n], op, opim, before);
    if !args[n].Constant? && args[n] != Register(t) {
      RunFrame(w, args, n, t, op, opim, st, args[n]);
    }
  }

  lemma ReducedFirst(w: World, args: seq<Operand>, t: nat, op: Opcode, opim: Option<Opcode>, st: Store)
    requires Agrees(w, op, opim) && 2 <= |args|
    ensures Run(w, Reduced(args, 2, t, op, opim), st)(Register(t))
            == w.binary(op, Content(st, args[0]), Content(st, args[1]))
  {
    RunOne(w, OneOp(t, args[0], args[1], op, opim), st);
    OneOpResult(w, t, args[0], args[1], op, opim, st);
  }

  /** The left fold of the first n values. */
  function FoldTo(w: World, op: Opcode, values: seq<Value>, n: nat): Value
    requires 0 < n <= |values|
  {
    if n == 1 then values[0] else w.binary(op, FoldTo(w, op, values, n - 1), values[n - 1])
  }

  lemma {:induction false} FoldToIs(w: World, op: Opcode, values: seq<Value>, n: nat)
    requires 0 < n <= |values|
    ensures FoldTo(w, op, values, n) == Fold(w, op, values[..n])
    ensures n == |values| ==> FoldTo(w, op, values, n) == Fold(w, op, values)
  {
    if n == 1 {
      FoldOne(w, op, values);
    } else {
      FoldToIs(w, op, values, n - 1);
      FoldNext(w, op, values, n - 1);
    }
    if n == |values| {
      assert values[..n] == values;
    }
  }

  lemma ReducedFoldsNext(w: World, args: seq<Operand>, n: nat, t: nat, op: Opcode, opim: Option<Opcode>, st: Store)
    requires Agrees(w, op, opim) && 2 <= n < |args| && args[n] != Register(t)
    requires Run(w, Reduced(args, n, t, op, opim), st)(Register(t)) == FoldTo(w, op, Contents(st, args), n)
    ensures Run(w, Reduced(args, n + 1, t, op, opim), st)(Register(t)) == FoldTo(w, op, Contents(st, args), n + 1)
  {
    ReducedNext(w, args, n, t, op, opim, st);
  }

  lemma FoldTwo(w: World, op: Opcode, values: seq<Value>)
    requires |values| >= 2
    ensures FoldTo(w, op, values, 2) == w.binary(op, values[0], values[1])
  {
    assert FoldTo(w, op, values, 1) == values[0];
  }

  /** The straight line computes the left fold while no operand is overwritten before it is read. */
  lemma {:induction false} ReducedFolds(w: World, args: seq<Operand>, n: nat, t: nat, op: Opcode, opim: Option<Opcode>,
                                        st: Store)
    requires Agrees(w, op, opim) && 2 <= n <= |args| && Unclobbered(args, n, t)
    ensures Run(w, Reduced(args, n, t, op, opim), st)(Register(t)) == FoldTo(w, op, Contents(st, args), n)
    decreases n
  {
    if n == 2 {
      ReducedFirst(w, args, t, op, opim, st);
      FoldTwo(w, op, Contents(st, args));
    } else {
      ReducedFolds(w, args, n - 1, t, op, opim, st);
      ReducedFoldsNext(w, args, n - 1, t, op, opim, st);
    }
  }

  /** Negation is multiplication by minus one, on numbers. */
  ghost predicate Negates(w: World) {
    forall n :: w.immediate(MultiplyImmediate, Number(n), -1) == w.binary(Subtract, Number(0), Number(n))
  }

  lemma NegateResult(w: World, x: Operand, t: nat, st: Store)
    requires Negates(w) && Content(st, x).Number?
    ensures Run(w, [Immediate(MultiplyImmediate, t, x, -1)], st)(Register(t))
            == w.binary(Subtract, Number(0), Content(st, x))
  {
    var o := Immediate(MultiplyImmediate, t, x, -1);
    RunOne(w, o, st);
    var k := Content(st, x).n;
    assert Content(st, x) == Number(k);
    assert Result(w, o, st) == w.immediate(MultiplyImmediate, Content(st, x), -1);
    assert Do(w, o, st)(Register(t)) == Result(w, o, st);
    assert Do(w, o, st)(Register(t)) == w.immediate(MultiplyImmediate, Number(k), -1);
  }

  lemma InlineResult(w: World, args: seq<Operand>, t: nat, op: Opcode, opim: Option<Opcode>, nullary: int, unary: int,
                     st: Store)
    requires Agrees(w, op, opim) && Unclobbered(args, |args|, t)
    requires op == Subtract && |args| == 1 ==> unary == 0 && Negates(w) && Content(st, args[0]).Number?
    ensures var inlined := OpReduced(args, t, op, opim, nullary, unary);
            Content(Run(w, inlined.ops, st), inlined.result) == VarOp(w, op, nullary, unary, Contents(st, args))
  {
    var values := Contents(st, args);
    if |args| == 1 && op == Subtract {
      NegateResult(w, args[0], t, st);
    } else if |args| == 1 {
      var o := Binary(op, t, Constant(Number(unary)), args[0]);
      RunOne(w, o, st);
      assert Do(w, o, st)(Register(t)) == Result(w, o, st);
    } else if |args| >= 2 {
      ReducedFolds(w, args, |args|, t, op, opim, st);
      FoldToIs(w, op, values, |args|);
    }
  }

  /** Inline code and the loop over an argument tuple give the same result. */
  lemma InlineAgrees(w: World, args: seq<Operand>, t: nat, op: Opcode, opim: Option<Opcode>, nullary: int, unary: int,
                     st: Store)
    requires w.Sane() && Operator(op) && Small(nullary) && Small(unary) && Agrees(w, op, opim)
    requires Unclobbered(args, |args|, t)
    requires op == Subtract && |args| == 1 ==> unary == 0 && Negates(w) && Content(st, args[0]).Number?
    ensures var inlined := OpReduced(args, t, op, opim, nullary, unary);
            && AllReadable(VarOpCode(op, nullary, unary))
            && Leads(w, VarOpCode(op, nullary, unary), Entry(Contents(st, args)),
                 Returned(Content(Run(w, inlined.ops, st), inlined.result)))
  {
    VarOpComputes(w, op, nullary, unary, Contents(st, args));
    InlineResult(w, args, t, op, opim, nullary, unary, st);
  }

  /** An operand of the inline unary minus, which multiplies by minus one where the loop subtracts from zero. */
  ghost predicate NegatedRight(w: World, x: Operand, t: nat, opim: Option<Opcode>, st: Store) {
    var inlined := OpReduced([x], t, Subtract, opim, 0, 0);
    Content(Run(w, inlined.ops, st), inlined.result) == VarOp(w, Subtract, 0, 0, [Content(st, x)])
  }

  /** Numbers negate as they should; anything else is put together with the other operand. */
  function Arithmetic(): World {
    World((op: Opcode, x: Value, y: Value) =>
            if op == Equals then Boolean(x == y)
            else if op == NotEquals then Boolean(x != y)
            else if x.Number? && y.Number? then Number(x.n - y.n)
            else Pair(x, y),
          (op: Opcode, x: Value, n: int) => if x.Number? then Number(n * x.n) else Pair(x, Number(n)))
  }

  lemma ArithmeticNegates()
    ensures Arithmetic().Sane() && Negates(Arithmetic())
  {
    forall n
      ensures Arithmetic().immediate(MultiplyImmediate, Number(n), -1)
           == Arithmetic().binary(Subtract, Number(0), Number(n))
    {
      assert -1 * n == 0 - n;
    }
  }

  /** Given that multiplying a number by minus one is subtracting it from zero, the inline unary minus is right
      exactly for numbers. */
  lemma NegatedExactly(x: Operand, t: nat, opim: Option<Opcode>, st: Store)
    ensures Content(st, x).Number?
       <==> forall w: World :: w.Sane() && Negates(w) ==> NegatedRight(w, x, t, opim, st)
  {
    if Content(st, x).Number? {
      forall w: World | w.Sane() && Negates(w)
        ensures NegatedRight(w, x, t, opim, st)
      {
        NegateResult(w, x, t, st);
      }
    } else {
      var w, o := Arithmetic(), Immediate(MultiplyImmediate, t, x, -1);
      ArithmeticNegates();
      RunOne(w, o, st);
      assert Do(w, o, st)(Register(t)) == Result(w, o, st);
      assert Result(w, o, st) == w.immediate(MultiplyImmediate, Content(st, x), -1);
      assert w.immediate(MultiplyImmediate, Content(st, x), -1) == Pair(Content(st, x), Number(-1));
      assert OpReduced([x], t, Subtract, opim, 0, 0) == Inline([o], Register(t));
      assert w.binary(Subtract, Number(0), Content(st, x)) == Pair(Number(0), Content(st, x));
      assert !NegatedRight(w, x, t, opim, st);
    }
  }

  /** An operator whose result tells its operands, and is never nil. */
  ghost predicate Telling(w: World, op: Opcode) {
    forall x, y :: Tells(w, op, x, y)
  }

  ghost predicate Tells(w: World, op: Opcode, x: Value, y: Value) {
    && w.binary(op, x, y) != Nil
    && forall x', y' {:trigger w.binary(op, x', y')} ::
         w.binary(op, x', y') == w.binary(op, x, y) ==> x' == x && y' == y
  }

  /** A wrong value stays wrong. */
  lemma {:induction false} WrongStays(w: World, args: seq<Operand>, n: nat, t: nat, op: Opcode, opim: Option<Opcode>,
                                      st: Store)
    requires Agrees(w, op, opim) && Telling(w, op) && 2 <= n < |args|
    requires Run(w, Reduced(args, n, t, op, opim), st)(Register(t)) != FoldTo(w, op, Contents(st, args), n)
    ensures Run(w, Reduced(args, n + 1, t, op, opim), st)(Register(t)) != FoldTo(w, op, Contents(st, args), n + 1)
  {
    var values, before := Contents(st, args), Run(w, Reduced(args, n, t, op, opim), st)(Register(t));
    ReducedNext(w, args, n, t, op, opim, st);
    assert Tells(w, op, FoldTo(w, op, values, n), values[n]);
  }

  /** The first operand that was overwritten before it is read makes the value wrong. */
  lemma WrongStarts(w: World, args: seq<Operand>, n: nat, t: nat, op: Opcode, opim: Option<Opcode>, st: Store)
    requires Agrees(w, op, opim) && Telling(w, op) && 2 <= n < |args| && Unclobbered(args, n, t)
    requires args[n] == Register(t) && st(Register(t)) == Nil
    ensures Run(w, Reduced(args, n + 1, t, op, opim), st)(Register(t)) != FoldTo(w, op, Contents(st, args), n + 1)
  {
    var values := Contents(st, args);
    ReducedFolds(w, args, n, t, op, opim, st);
    ReducedNext(w, args, n, t, op, opim, st);
    assert Tells(w, op, FoldTo(w, op, values, n - 1), values[n - 1]);
    assert Tells(w, op, FoldTo(w, op, values, n), Nil);
  }

  lemma {:induction false} ClobberedWrong(w: World, args: seq<Operand>, n: nat, t: nat, op: Opcode,
                                          opim: Option<Opcode>, st: Store)
    requires Agrees(w, op, opim) && Telling(w, op) && 2 <= n <= |args| && !Unclobbered(args, n, t)
    requires st(Register(t)) == Nil
    ensures Run(w, Reduced(args, n, t, op, opim), st)(Register(t)) != FoldTo(w, op, Contents(st, args), n)
    decreases n
  {
    if Unclobbered(args, n - 1, t) {
      WrongStarts(w, args, n - 1, t, op, opim, st);
    } else {
      ClobberedWrong(w, args, n - 1, t, op, opim, st);
      WrongStays(w, args, n - 1, t, op, opim, st);
    }
  }

  /** An operator that only puts its operands together. */
  function Pairing(): World {
    World((op, x, y) =>
            if op == Equals then Boolean(x == y) else if op == NotEquals then Boolean(x != y) else Pair(x, y),
          (op, x, n) => Pair(x, Number(n)))
  }

  lemma PairingTells(op: Opcode, opim: Option<Opcode>)
    requires op != Equals && op != NotEquals
    ensures Agrees(Pairing(), op, opim) && Telling(Pairing(), op)
  {
    forall x, y
      ensures Tells(Pairing(), op, x, y)
    {
      assert forall x', y' :: Pairing().binary(op, x', y') == Pair(x', y');
    }
  }

  /** The straight line of two or more arguments gives the fold for this operator and these values. */
  ghost predicate Folds(w: World, args: seq<Operand>, t: nat, op: Opcode, opim: Option<Opcode>, st: Store)
    requires 2 <= |args|
  {
    Run(w, Reduced(args, |args|, t, op, opim), st)(Register(t)) == Fold(w, op, Contents(st, args))
  }

  /** Inline code for two or more arguments gives the fold for every operator and all values exactly when
      no operand after the second lives in the target. */
  lemma ReducedExactly(args: seq<Operand>, t: nat, op: Opcode, opim: Option<Opcode>)
    requires 2 <= |args| && op != Equals && op != NotEquals
    ensures Unclobbered(args, |args|, t)
            <==> forall w: World, st: Store :: Agrees(w, op, opim) ==> Folds(w, args, t, op, opim, st)
  {
    if Unclobbered(args, |args|, t) {
      forall w: World, st: Store | Agrees(w, op, opim)
        ensures Folds(w, args, t, op, opim, st)
      {
        ReducedFolds(w, args, |args|, t, op, opim, st);
        FoldToIs(w, op, Contents(st, args), |args|);
      }
    } else {
      var st: Store := (l: Operand) => Nil;
      PairingTells(op, opim);
      ClobberedWrong(Pairing(), args, |args|, t, op, opim, st);
      FoldToIs(Pairing(), op, Contents(st, args), |args|);
      assert !Folds(Pairing(), args, t, op, opim, st);
    }
  }
}
