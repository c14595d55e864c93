/** The code that the compiler puts in place of a call of a variadic comparator: comparisons with branches
    between them, all of which go to the end. */
module InlineComparisons {
  import opened Options
  import opened Bytecode
  import opened Runs
  import opened VarOps
  import opened Comparators
  import opened InlineOps

  /** What a signed half word keeps of a distance. */
  function Field(x: nat): int {
    var e := x % 0x1_0000;
    if e < 0x8000 then e else e - 0x1_0000
  }

  /** A distance that does not fit is too short by a multiple of 0x10000. */
  lemma FieldFits(x: nat)
    ensures if x < 0x8000 then Field(x) == x else x - Field(x) >= 0x1_0000 && (x - Field(x)) % 0x1_0000 == 0
  {
    var k := x / 0x1_0000;
    assert x == 0x1_0000 * k + x % 0x1_0000;
  }

  /** A register that an instruction has room for: one of the first 256, or a temporary. */
  datatype Near = Reg(r: nat) | Temp(tag: nat)

  datatype Memory = Memory(st: Store, temps: nat -> Value)
  {
    function Get(n: Near): Value {
      if n.Reg? then st(Register(n.r)) else temps(n.tag)
    }

    function Put(n: Near, v: Value): Memory {
      if n.Reg? then SetRegister(n.r, v) else this.(temps := (k: nat) => if k == n.tag then v else temps(k))
    }

    function SetRegister(t: nat, v: Value): Memory {
      this.(st := (l: Operand) => if l == Register(t) then v else st(l))
    }
  }

  /** Fetch brings what a slot holds to a temporary; for a reference cell, Refer brings the cell itself first.
      PutBack moves a temporary to a register. A branch goes by the signed half word in its instruction. */
  datatype Instr =
    | Fetch(tag: nat, o: Operand)
    | Refer(tag: nat, cell: nat)
    | Operate(op: Opcode, dest: Near, x: Near, y: Near)
    | OperateImmediate(op: Opcode, dest: Near, x: Near, imm: int)
    | PutBack(t: nat, tag: nat)
    | Branch(onTrue: bool, n: Near, offset: int)

  /** Code without branches. */
  predicate Straight(code: seq<Instr>) {
    forall p :: 0 <= p < |code| ==> !code[p].Branch?
  }

  function Effect(w: World, i: Instr, m: Memory): Memory {
    match i
    case Fetch(tag, o) => m.Put(Temp(tag), Content(m.st, o))
    case Operate(op, dest, x, y) => m.Put(dest, w.binary(op, m.Get(x), m.Get(y)))
    case OperateImmediate(op, dest, x, imm) => m.Put(dest, w.immediate(op, m.Get(x), imm))
    case PutBack(t, tag) => m.SetRegister(t, m.temps(tag))
    case _ => m
  }

  predicate IsNear(o: Operand) {
    o.Register? && o.r <= 0xFF
  }

  function NearOf(tag: nat, o: Operand): Near {
    if IsNear(o) then Reg(o.r) else Temp(tag)
  }

  function Fetches(tag: nat, o: Operand): seq<Instr> {
    if IsNear(o) then [] else if o.Cell? then [Refer(tag, o.n), Fetch(tag, o)] else [Fetch(tag, o)]
  }

  function PutBacks(t: nat): seq<Instr> {
    if t <= 0xFF then [] else [PutBack(t, 0)]
  }

  predicate TakesImmediate(args: seq<Operand>, i: nat, opim: Option<Opcode>)
    requires i < |args|
  {
    opim.Some? && SmallConstant(args[i]).Some?
  }

  /** The i-th argument compared with the one before it, the result in register t. */
  function Comparison(args: seq<Operand>, i: nat, t: nat, op: Opcode, opim: Option<Opcode>): seq<Instr>
    requires 0 < i < |args|
  {
    var dest, x := NearOf(0, Register(t)), NearOf(1, args[i - 1]);
    Fetches(0, Register(t)) + Fetches(1, args[i - 1])
    + (if TakesImmediate(args, i, opim) then [OperateImmediate(opim.value, dest, x, SmallConstant(args[i]).value)]
       else Fetches(2, args[i]) + [Operate(op, dest, x, NearOf(2, args[i]))])
    + PutBacks(t)
  }

  function Branching(t: nat, invert: bool, offset: int): seq<Instr> {
    Fetches(0, Register(t)) + [Branch(invert, NearOf(0, Register(t)), offset)] + PutBacks(t)
  }

  /** How many instructions a comparison takes. */
  function Width(args: seq<Operand>, i: nat, t: nat, opim: Option<Opcode>): nat
    requires 0 < i < |args|
  {
    var sides := |Fetches(0, Register(t))| + |Fetches(1, args[i - 1])| + |PutBacks(t)|;
    sides + 1 + if TakesImmediate(args, i, opim) then 0 else |Fetches(2, args[i])|
  }

  lemma ComparisonLength(args: seq<Operand>, i: nat, t: nat, op: Opcode, opim: Option<Opcode>)
    requires 0 < i < |args|
    ensures |Comparison(args, i, t, op, opim)| == Width(args, i, t, opim)
    ensures Straight(Comparison(args, i, t, op, opim))
  {
  }

  /** How many instructions the comparisons from the i-th on take with the branches between them. */
  function Length(args: seq<Operand>, t: nat, opim: Option<Opcode>, i: nat): nat
    requires 0 < i < |args|
    decreases |args| - i, 1
  {
    Width(args, i, t, opim)
    + if i + 1 == |args| then 0 else |Fetches(0, Register(t))| + Distance(args, t, opim, i)
  }

  /** From the branch after the i-th comparison to the end. */
  function Distance(args: seq<Operand>, t: nat, opim: Option<Opcode>, i: nat): nat
    requires 0 < i && i + 1 < |args|
    decreases |args| - i, 0
  {
    1 + |PutBacks(t)| + Length(args, t, opim, i + 1)
  }

  /** The distance does not fit in the branch's field. */
  predicate Far(args: seq<Operand>, t: nat, opim: Option<Opcode>, i: nat)
    requires 0 < i
  {
    i + 1 < |args| && Distance(args, t, opim, i) >= 0x8000
  }

  lemma FarNext(args: seq<Operand>, t: nat, opim: Option<Opcode>, i: nat)
    requires 0 < i && !Far(args, t, opim, i)
    ensures !Far(args, t, opim, i + 1)
  {
    if i + 2 < |args| {
      assert Length(args, t, opim, i + 1) >= Distance(args, t, opim, i + 1);
    }
  }

  lemma {:induction false} FarLater(args: seq<Operand>, t: nat, opim: Option<Opcode>, i: nat, m: nat)
    requires 0 < i <= m && !Far(args, t, opim, i)
    ensures !Far(args, t, opim, m)
    decreases m
  {
    if i < m {
      FarLater(args, t, opim, i, m - 1);
      FarNext(args, t, opim, m - 1);
    }
  }

  /** Blocks of code from the i-th on, with branches between them that are all meant to go to the end.
      They are emitted with an empty field, which is set when the end is known. */
  function Linked(blocks: seq<seq<Instr>>, t: nat, invert: bool, patched: bool, i: nat): seq<Instr>
    requires i < |blocks|
    decreases |blocks| - i
  {
    if i + 1 == |blocks| then blocks[i]
    else
      var rest := Linked(blocks, t, invert, patched, i + 1);
      blocks[i] + Branching(t, invert, if patched then Field(1 + |PutBacks(t)| + |rest|) else 0) + rest
  }

  function Blocks(args: seq<Operand>, t: nat, op: Opcode, opim: Option<Opcode>): seq<seq<Instr>> {
    seq(|args|, i requires 0 <= i < |args| => if i == 0 then [] else Comparison(args, i, t, op, opim))
  }

  /** The comparisons from the i-th on. */
  function Chain(args: seq<Operand>, t: nat, op: Opcode, opim: Option<Opcode>, invert: bool, i: nat): seq<Instr>
    requires 0 < i < |args|
  {
    Linked(Blocks(args, t, op, opim), t, invert, true, i)
  }

  lemma {:induction false} ChainLength(args: seq<Operand>, t: nat, op: Opcode, opim: Option<Opcode>, invert: bool,
                                       i: nat)
    requires 0 < i < |args|
    ensures |Chain(args, t, op, opim, invert, i)| == Length(args, t, opim, i)
    decreases |args| - i
  {
    ComparisonLength(args, i, t, op, opim);
    if i + 1 < |args| {
      ChainLength(args, t, op, opim, invert, i + 1);
    }
  }

  function CompReduced(args: seq<Operand>, t: nat, op: Opcode, opim: Option<Opcode>, invert: bool): seq<Instr>
    requires |args| >= 2
  {
    Chain(args, t, op, opim, invert, 1)
  }

  /** A branch whose field is set by its distance to the end; other instructions stay. */
  function Patched(i: Instr, distance: nat): Instr {
    if i.Branch? then i.(offset := Field(distance)) else i
  }

  /** Code as it becomes when its branches are set, with more instructions after it. */
  ghost predicate Mended(raw: seq<Instr>, code: seq<Instr>, more: nat) {
    |code| == |raw| && forall p :: 0 <= p < |raw| ==> code[p] == Patched(raw[p], |raw| - p + more)
  }

  lemma MendedThen(raw: seq<Instr>, code: seq<Instr>, raw': seq<Instr>, code': seq<Instr>, more: nat)
    requires Mended(raw, code, |raw'| + more) && Mended(raw', code', more)
    ensures Mended(raw + raw', code + code', more)
  {
  }

  lemma BranchingMended(t: nat, invert: bool, more: nat)
    ensures Mended(Branching(t, invert, 0), Branching(t, invert, Field(1 + |PutBacks(t)| + more)), more)
  {
  }

  /** No block has branches of its own. */
  ghost predicate AllStraight(blocks: seq<seq<Instr>>) {
    forall i :: 0 <= i < |blocks| ==> Straight(blocks[i])
  }

  /** The code with its branches set is the code as it was emitted, but for their fields. */
  lemma {:induction false} LinkedMended(blocks: seq<seq<Instr>>, t: nat, invert: bool, i: nat)
    requires i < |blocks| && AllStraight(blocks)
    ensures Mended(Linked(blocks, t, invert, false, i), Linked(blocks, t, invert, true, i), 0)
    decreases |blocks| - i
  {
    if i + 1 < |blocks| {
      LinkedMended(blocks, t, invert, i + 1);
      BranchesMended(blocks[i], t, invert,
        Linked(blocks, t, invert, false, i + 1), Linked(blocks, t, invert, true, i + 1));
    } else {
      StraightMended(blocks[i]);
    }
  }

  lemma StraightMended(code: seq<Instr>)
    requires Straight(code)
    ensures Mended(code, code, 0)
  {
  }

  lemma BranchesMended(head: seq<Instr>, t: nat, invert: bool, raw: seq<Instr>, rest: seq<Instr>)
    requires Straight(head) && Mended(raw, rest, 0)
    ensures Mended(head + Branching(t, invert, 0) + raw,
              head + Branching(t, invert, Field(1 + |PutBacks(t)| + |rest|)) + rest, 0)
  {
    var branch, ready := Branching(t, invert, 0), Branching(t, invert, Field(1 + |PutBacks(t)| + |rest|));
    BranchingMended(t, invert, |rest|);
    MendedThen(head, head, branch, ready, |rest|);
    MendedThen(head + branch, head + ready, raw, rest, 0);
  }

  /** The places of the branches. */
  ghost predicate Labelled(code: seq<Instr>, labels: seq<nat>) {
    forall p: nat :: p in labels <==> p < |code| && code[p].Branch?
  }

  /** Emits the chain, remembers where the branches are, and sets their offsets when the end is known. */
  method CompReduce(args: seq<Operand>, t: nat, op: Opcode, opim: Option<Opcode>, invert: bool)
    returns (code: seq<Instr>, result: Operand)
    ensures |args| < 2 ==> code == [] && result == Constant(Boolean(!invert))
    ensures |args| >= 2 ==> code == CompReduced(args, t, op, opim, invert) && result == Register(t)
  {
    if |args| < 2 { return [], Constant(Boolean(!invert)); }
    var labels;
    code, labels := EmitChain(args, t, op, opim, invert);
    code := PatchLabels(code, labels);
    ghost var blocks := Blocks(args, t, op, opim);
    BlocksStraight(args, t, op, opim);
    LinkedMended(blocks, t, invert, 1);
    assert code == Linked(blocks, t, invert, true, 1);
    result := Register(t);
  }

  lemma BlocksStraight(args: seq<Operand>, t: nat, op: Opcode, opim: Option<Opcode>)
    ensures AllStraight(Blocks(args, t, op, opim))
  {
    var blocks := Blocks(args, t, op, opim);
    forall i | 0 <= i < |blocks|
      ensures Straight(blocks[i])
    {
      if i > 0 {
        ComparisonLength(args, i, t, op, opim);
      }
    }
  }

  method EmitChain(args: seq<Operand>, t: nat, op: Opcode, opim: Option<Opcode>, invert: bool)
    returns (code: seq<Instr>, labels: seq<nat>)
    requires |args| >= 2
    ensures code == Linked(Blocks(args, t, op, opim), t, invert, false, 1) && Labelled(code, labels)
  {
    code, labels := [], [];
    ghost var blocks := Blocks(args, t, op, opim);
    BlocksStraight(args, t, op, opim);
    for i := 1 to |args|
      invariant code + (if i == |args| then [] else Linked(blocks, t, invert, false, i))
             == Linked(blocks, t, invert, false, 1)
      invariant Labelled(code, labels)
    {
      ghost var before := code;
      var head := Comparison(args, i, t, op, opim);
      assert head == blocks[i];
      LabelledThen(code, labels, head);
      code := code + head;
      if i != |args| - 1 {
        code, labels := EmitBranch(code, labels, t, invert);
        Regroup(before, head, Branching(t, invert, 0), Linked(blocks, t, invert, false, i + 1));
      }
    }
  }

  lemma LabelledThen(code: seq<Instr>, labels: seq<nat>, head: seq<Instr>)
    requires Labelled(code, labels) && Straight(head)
    ensures Labelled(code + head, labels)
  {
  }

  lemma Regroup(a: seq<Instr>, b: seq<Instr>, c: seq<Instr>, d: seq<Instr>)
    ensures a + (b + c + d) == a + b + c + d
  {
  }

  method EmitBranch(before: seq<Instr>, labels: seq<nat>, t: nat, invert: bool)
    returns (code: seq<Instr>, labels': seq<nat>)
    requires Labelled(before, labels)
    ensures code == before + Branching(t, invert, 0) && Labelled(code, labels')
  {
    LabelledThen(before, labels, Fetches(0, Register(t)));
    code := before + Fetches(0, Register(t));
    labels' := labels + [|code|];
    code := code + [Branch(invert, NearOf(0, Register(t)), 0)];
    code := code + PutBacks(t);
  }

  method PatchLabels(chain: seq<Instr>, labels: seq<nat>) returns (code: seq<Instr>)
    requires Labelled(chain, labels)
    ensures |code| == |chain| && forall p :: 0 <= p < |chain| ==> code[p] == Patched(chain[p], |chain| - p)
  {
    code := chain;
    var end := |code|;
    for i := 0 to |labels|
      invariant |code| == end
      invariant forall p :: 0 <= p < end ==>
                  code[p] == if p in labels[..i] then Patched(chain[p], end - p) else chain[p]
    {
      var at := labels[i];
      assert at in labels;
      code := code[at := code[at].(offset := Field(end - at))];
      assert labels[..i + 1] == labels[..i] + [at];
    }
    assert labels[..|labels|] == labels;
  }

  /** What the chain leaves; None if a branch is taken that does not go to the end. */
  function Execute(w: World, code: seq<Instr>, m: Memory): Option<Memory>
    decreases |code|
  {
    if code == [] then Some(m)
    else if !code[0].Branch? then Execute(w, code[1..], Effect(w, code[0], m))
    else if Truthy(m.Get(code[0].n)) != code[0].onTrue then Execute(w, code[1..], m)
    else if code[0].offset == |code| then Some(m)
    else None
  }

  /** Control gets through the code to its end, with v in register t. */
  predicate Ends(w: World, code: seq<Instr>, m: Memory, t: nat, v: Value) {
    var r := Execute(w, code, m);
    r.Some? && r.value.st(Register(t)) == v
  }

  function Effects(w: World, code: seq<Instr>, m: Memory): Memory {
    if code == [] then m else Effects(w, code[1..], Effect(w, code[0], m))
  }

  lemma {:induction false} EffectsThen(w: World, a: seq<Instr>, b: seq<Instr>, m: Memory)
    ensures Effects(w, a + b, m) == Effects(w, b, Effects(w, a, m))
    decreases |a|
  {
    if a == [] {
      assert a + b == b;
    } else {
      assert (a + b)[1..] == a[1..] + b;
      EffectsThen(w, a[1..], b, Effect(w, a[0], m));
    }
  }

  lemma {:induction false} ExecuteThen(w: World, a: seq<Instr>, b: seq<Instr>, m: Memory)
    requires Straight(a)
    ensures Execute(w, a + b, m) == Execute(w, b, Effects(w, a, m))
    decreases |a|
  {
    if a == [] {
      assert a + b == b;
    } else {
      assert (a + b)[1..] == a[1..] + b;
      ExecuteThen(w, a[1..], b, Effect(w, a[0], m));
    }
  }

  /** Fetching a slot makes its near register hold its value and changes nothing else but the temporary. */
  lemma FetchesDo(w: World, tag: nat, o: Operand, m: Memory)
    ensures var after := Effects(w, Fetches(tag, o), m);
            && after.Get(NearOf(tag, o)) == Content(m.st, o) && after.st == m.st
            && forall k :: k != tag ==> after.temps(k) == m.temps(k)
  {
    if !IsNear(o) {
      var fetch := Fetch(tag, o);
      assert Effects(w, [fetch], m) == Effect(w, fetch, m) by { assert [fetch][1..] == []; }
      if o.Cell? {
        assert Fetches(tag, o)[1..] == [fetch];
      }
    }
  }

  lemma PutBacksDo(w: World, t: nat, m: Memory)
    ensures var after := Effects(w, PutBacks(t), m);
            && after.st(Register(t)) == m.Get(NearOf(0, Register(t)))
            && forall l :: l != Register(t) ==> after.st(l) == m.st(l)
  {
    if t > 0xFF {
      assert [PutBack(t, 0)][1..] == [];
    }
  }

  /** The instruction in the middle of a comparison. */
  function Middle(args: seq<Operand>, i: nat, t: nat, op: Opcode, opim: Option<Opcode>): Instr
    requires 0 < i < |args|
  {
    var dest, x := NearOf(0, Register(t)), NearOf(1, args[i - 1]);
    if TakesImmediate(args, i, opim) then OperateImmediate(opim.value, dest, x, SmallConstant(args[i]).value)
    else Operate(op, dest, x, NearOf(2, args[i]))
  }

  /** What is fetched before it. */
  function Before(args: seq<Operand>, i: nat, t: nat, opim: Option<Opcode>): seq<Instr>
    requires 0 < i < |args|
  {
    Fetches(0, Register(t)) + Fetches(1, args[i - 1])
    + if TakesImmediate(args, i, opim) then [] else Fetches(2, args[i])
  }

  lemma BeforeDoes(w: World, args: seq<Operand>, i: nat, t: nat, opim: Option<Opcode>, m: Memory)
    requires 0 < i < |args|
    ensures var ready := Effects(w, Before(args, i, t, opim), m);
            && ready.st == m.st && ready.Get(NearOf(1, args[i - 1])) == Content(m.st, args[i - 1])
            && (!TakesImmediate(args, i, opim) ==> ready.Get(NearOf(2, args[i])) == Content(m.st, args[i]))
  {
    var a, b := Fetches(0, Register(t)), Fetches(1, args[i - 1]);
    var m0 := Effects(w, a, m);
    FetchesDo(w, 0, Register(t), m);
    EffectsThen(w, a, b, m);
    FetchesDo(w, 1, args[i - 1], m0);
    var m1 := Effects(w, a + b, m);
    if TakesImmediate(args, i, opim) {
      assert Before(args, i, t, opim) == a + b;
    } else {
      EffectsThen(w, a + b, Fetches(2, args[i]), m);
      FetchesDo(w, 2, args[i], m1);
    }
  }

  lemma MiddleDoes(w: World, args: seq<Operand>, i: nat, t: nat, op: Opcode, opim: Option<Opcode>, m: Memory,
                   ready: Memory)
    requires Agrees(w, op, opim) && 0 < i < |args|
    requires ready.st == m.st && ready.Get(NearOf(1, args[i - 1])) == Content(m.st, args[i - 1])
    requires !TakesImmediate(args, i, opim) ==> ready.Get(NearOf(2, args[i])) == Content(m.st, args[i])
    ensures var done := Effect(w, Middle(args, i, t, op, opim), ready);
            && done.Get(NearOf(0, Register(t))) == w.binary(op, Content(m.st, args[i - 1]), Content(m.st, args[i]))
            && forall l :: l != Register(t) ==> done.st(l) == m.st(l)
  {
  }

  /** A comparison puts its result in register t and changes no other slot. */
  lemma ComparisonDoes(w: World, args: seq<Operand>, i: nat, t: nat, op: Opcode, opim: Option<Opcode>, m: Memory)
    requires Agrees(w, op, opim) && 0 < i < |args|
    ensures var after := Effects(w, Comparison(args, i, t, op, opim), m);
            && after.st(Register(t)) == w.binary(op, Content(m.st, args[i - 1]), Content(m.st, args[i]))
            && forall l :: l != Register(t) ==> after.st(l) == m.st(l)
  {
    var a, o := Before(args, i, t, opim), Middle(args, i, t, op, opim);
    var ready := Effects(w, a, m);
    BeforeDoes(w, args, i, t, opim, m);
    MiddleDoes(w, args, i, t, op, opim, m, ready);
    assert Comparison(args, i, t, op, opim) == a + ([o] + PutBacks(t));
    EffectsThen(w, a, [o] + PutBacks(t), m);
    assert ([o] + PutBacks(t))[1..] == PutBacks(t);
    PutBacksDo(w, t, Effect(w, o, ready));
  }

  /** A branch that is taken goes to the end exactly if its distance fits; otherwise nothing changes but the
      temporaries. */
  lemma BranchDoes(w: World, t: nat, invert: bool, rest: seq<Instr>, m: Memory, v: Value) returns (after: Memory)
    ensures after.st(Register(t)) == m.st(Register(t)) && forall l :: l != Register(t) ==> after.st(l) == m.st(l)
    ensures var d := 1 + |PutBacks(t)| + |rest|;
            Ends(w, Branching(t, invert, Field(d)) + rest, m, t, v)
            <==> if Truthy(m.st(Register(t))) == invert then d < 0x8000 && m.st(Register(t)) == v
                 else Ends(w, rest, after, t, v)
  {
    var d, n := 1 + |PutBacks(t)| + |rest|, NearOf(0, Register(t));
    var a, b := Fetches(0, Register(t)), [Branch(invert, n, Field(d))] + PutBacks(t) + rest;
    FieldFits(d);
    assert Branching(t, invert, Field(d)) + rest == a + b;
    ExecuteThen(w, a, b, m);
    FetchesDo(w, 0, Register(t), m);
    var fetched := Effects(w, a, m);
    assert b[0] == Branch(invert, n, Field(d)) && b[1..] == PutBacks(t) + rest && |b| == d;
    ExecuteThen(w, PutBacks(t), rest, fetched);
    PutBacksDo(w, t, fetched);
    after := Effects(w, PutBacks(t), fetched);
  }

  lemma CompareThen(w: World, head: seq<Instr>, t: nat, invert: bool, rest: seq<Instr>, m: Memory, v: Value)
    returns (after: Memory)
    requires Straight(head)
    ensures var done := Effects(w, head, m);
            after.st(Register(t)) == done.st(Register(t)) && forall l :: l != Register(t) ==> after.st(l) == done.st(l)
    ensures var d := 1 + |PutBacks(t)| + |rest|;
            Ends(w, head + Branching(t, invert, Field(d)) + rest, m, t, v)
            <==> if Truthy(after.st(Register(t))) == invert then d < 0x8000 && after.st(Register(t)) == v
                 else Ends(w, rest, after, t, v)
  {
    var d := 1 + |PutBacks(t)| + |rest|;
    var branch := Branching(t, invert, Field(d));
    assert head + branch + rest == head + (branch + rest);
    ExecuteThen(w, head, branch + rest, m);
    after := BranchDoes(w, t, invert, rest, Effects(w, head, m), v);
  }

  lemma LinkedNow(w: World, blocks: seq<seq<Instr>>, t: nat, invert: bool, i: nat, now: Memory, v: Value)
    returns (after: Memory)
    requires i < |blocks| && AllStraight(blocks)
    ensures forall l :: after.st(l) == Effects(w, blocks[i], now).st(l)
    ensures i + 1 == |blocks| ==>
            (Ends(w, Linked(blocks, t, invert, true, i), now, t, v) <==> after.st(Register(t)) == v)
    ensures i + 1 < |blocks| ==>
            var rest := Linked(blocks, t, invert, true, i + 1);
            (Ends(w, Linked(blocks, t, invert, true, i), now, t, v)
             <==> if Truthy(after.st(Register(t))) == invert then
                    1 + |PutBacks(t)| + |rest| < 0x8000 && after.st(Register(t)) == v
                  else Ends(w, rest, after, t, v))
  {
    if i + 1 == |blocks| {
      ExecuteThen(w, blocks[i], [], now);
      assert blocks[i] + [] == blocks[i];
      after := Effects(w, blocks[i], now);
    } else {
      after := CompareThen(w, blocks[i], t, invert, Linked(blocks, t, invert, true, i + 1), now, v);
    }
  }

  lemma ChainNow(w: World, args: seq<Operand>, t: nat, op: Opcode, opim: Option<Opcode>, invert: bool, i: nat,
                 now: Memory, v: Value)
    returns (after: Memory)
    requires 0 < i < |args|
    ensures forall l :: after.st(l) == Effects(w, Comparison(args, i, t, op, opim), now).st(l)
    ensures Ends(w, Chain(args, t, op, opim, invert, i), now, t, v)
       <==> if i + 1 == |args| then after.st(Register(t)) == v
            else if Truthy(after.st(Register(t))) == invert then
              !Far(args, t, opim, i) && after.st(Register(t)) == v
            else Ends(w, Chain(args, t, op, opim, invert, i + 1), after, t, v)
  {
    BlocksStraight(args, t, op, opim);
    after := LinkedNow(w, Blocks(args, t, op, opim), t, invert, i, now, v);
    if i + 1 < |args| {
      ChainLength(args, t, op, opim, invert, i + 1);
    }
  }

  /** One comparison, with whatever the slots hold by now: control leaves the chain with the result, goes
      astray on the way out, or goes on to the next comparison. */
  lemma CompareNow(w: World, args: seq<Operand>, t: nat, op: Opcode, opim: Option<Opcode>, invert: bool, i: nat,
                   now: Memory, v: Value)
    returns (after: Memory)
    requires Agrees(w, op, opim) && 0 < i < |args|
    ensures after.st(Register(t)) == w.binary(op, Content(now.st, args[i - 1]), Content(now.st, args[i]))
    ensures forall l :: l != Register(t) ==> after.st(l) == now.st(l)
    ensures Ends(w, Chain(args, t, op, opim, invert, i), now, t, v)
       <==> if i + 1 == |args| then after.st(Register(t)) == v
            else if Truthy(after.st(Register(t))) == invert then
              !Far(args, t, opim, i) && after.st(Register(t)) == v
            else Ends(w, Chain(args, t, op, opim, invert, i + 1), after, t, v)
  {
    ComparisonDoes(w, args, i, t, op, opim, now);
    after := ChainNow(w, args, t, op, opim, invert, i, now, v);
  }

  /** Where control is; outside of the chain it is for other code to say what happens. */
  datatype Control = Control(pc: int, m: Memory)

  function Next(w: World, code: seq<Instr>, c: Control): Control {
    if !(0 <= c.pc < |code|) then c
    else
      var i := code[c.pc];
      if i.Branch? && Truthy(c.m.Get(i.n)) == i.onTrue then c.(pc := c.pc + i.offset)
      else Control(c.pc + 1, Effect(w, i, c.m))
  }

  function Stepper(w: World, code: seq<Instr>): Control -> Control {
    c => Next(w, code, c)
  }

  /** Control gets from one point to another. */
  ghost predicate Gets(w: World, code: seq<Instr>, c: Control, c': Control) {
    exists n: nat :: Iterate(Stepper(w, code), c, n) == c'
  }

  lemma {:induction false} IterateNext(w: World, code: seq<Instr>, c: Control, n: nat)
    ensures Iterate(Stepper(w, code), c, n + 1) == Iterate(Stepper(w, code), Next(w, code, c), n)
  {
    if n > 0 {
      IterateNext(w, code, c, n - 1);
    }
  }

  lemma GetsNext(w: World, code: seq<Instr>, c: Control, c': Control)
    requires Gets(w, code, Next(w, code, c), c')
    ensures Gets(w, code, c, c')
  {
    var n: nat :| Iterate(Stepper(w, code), Next(w, code, c), n) == c';
    IterateNext(w, code, c, n);
  }

  lemma GetsHere(w: World, code: seq<Instr>, c: Control)
    ensures Gets(w, code, c, c)
  {
    assert Iterate(Stepper(w, code), c, 0) == c;
  }

  /** Every branch is set by its distance to the end. */
  ghost predicate AllSet(code: seq<Instr>) {
    forall p :: 0 <= p < |code| && code[p].Branch? ==> code[p].offset == Field(|code| - p)
  }

  /** Where control gets by the instructions from pc on. */
  lemma {:induction false} ControlFrom(w: World, code: seq<Instr>, pc: nat, m: Memory) returns (c: Control)
    requires pc <= |code| && AllSet(code)
    ensures Gets(w, code, Control(pc, m), c)
    ensures match Execute(w, code[pc..], m)
            case Some(left) => c == Control(|code|, left)
            case None => c.pc <= |code| - 0x1_0000
    decreases |code| - pc
  {
    var here, rest := Control(pc, m), code[pc..];
    if pc == |code| {
      GetsHere(w, code, here);
      return here;
    }
    assert rest[0] == code[pc] && rest[1..] == code[pc + 1..];
    var next := Next(w, code, here);
    if code[pc].Branch? && Truthy(m.Get(code[pc].n)) == code[pc].onTrue {
      FieldFits(|code| - pc);
      GetsHere(w, code, next);
      c := next;
    } else {
      c := ControlFrom(w, code, pc + 1, Effect(w, code[pc], m));
    }
    GetsNext(w, code, here, c);
  }

  lemma CompReducedSet(args: seq<Operand>, t: nat, op: Opcode, opim: Option<Opcode>, invert: bool)
    requires |args| >= 2
    ensures AllSet(CompReduced(args, t, op, opim, invert))
  {
    BlocksStraight(args, t, op, opim);
    LinkedMended(Blocks(args, t, op, opim), t, invert, 1);
  }

  /** Instruction by instruction, control gets to the end of the chain with what Execute gives; where that is
      nothing, it gets to a point at least 0x10000 instructions before the end, which is outside of the chain
      unless the chain is that long. */
  lemma ControlEnds(w: World, args: seq<Operand>, t: nat, op: Opcode, opim: Option<Opcode>, invert: bool, m: Memory)
    returns (c: Control)
    requires |args| >= 2
    ensures var code := CompReduced(args, t, op, opim, invert);
            && Gets(w, code, Control(0, m), c)
            && match Execute(w, code, m)
               case Some(left) => c == Control(|code|, left)
               case None => c.pc <= |code| - 0x1_0000
  {
    var code := CompReduced(args, t, op, opim, invert);
    CompReducedSet(args, t, op, opim, invert);
    assert code[0..] == code;
    c := ControlFrom(w, code, 0, m);
  }

  /** How many instructions a branch takes. */
  function BranchWidth(t: nat): nat {
    1 + |Fetches(0, Register(t))| + |PutBacks(t)|
  }

  lemma LengthNext(args: seq<Operand>, t: nat, opim: Option<Opcode>, i: nat)
    requires 0 < i && i + 1 < |args|
    ensures Length(args, t, opim, i)
         == Width(args, i, t, opim) + BranchWidth(t) + Length(args, t, opim, i + 1)
  {
    assert Distance(args, t, opim, i) == 1 + |PutBacks(t)| + Length(args, t, opim, i + 1);
  }

  lemma OnceMore(x: nat, y: nat, n: nat, total: nat, more: nat)
    requires n > 0 && x * (n - 1) <= total <= y * (n - 1) && x <= more <= y
    ensures x * n <= total + more <= y * n
  {
    assert x * n == x * (n - 1) + x && y * n == y * (n - 1) + y;
  }

  /** From the widths of the comparisons to the length of the chain. */
  lemma {:induction false} LengthBetween(args: seq<Operand>, t: nat, opim: Option<Opcode>, i: nat, lo: nat, hi: nat)
    requires 0 < i < |args| && forall k :: i <= k < |args| ==> lo <= Width(args, k, t, opim) <= hi
    ensures var b, n := BranchWidth(t), |args| - i;
            (lo + b) * n <= Length(args, t, opim, i) + b <= (hi + b) * n
    decreases |args| - i
  {
    var b, n, width := BranchWidth(t), |args| - i, Width(args, i, t, opim);
    if i + 1 < |args| {
      LengthBetween(args, t, opim, i + 1, lo, hi);
      LengthNext(args, t, opim, i);
      OnceMore(lo + b, hi + b, n, Length(args, t, opim, i + 1) + b, width + b);
    } else {
      OnceMore(lo + b, hi + b, 1, 0, width + b);
    }
  }

  /** When the first branch fits, by the widths of the comparisons after it. */
  lemma FarByWidth(args: seq<Operand>, t: nat, opim: Option<Opcode>, lo: nat, hi: nat)
    requires 2 < |args| && forall k :: 2 <= k < |args| ==> lo <= Width(args, k, t, opim) <= hi
    ensures var b, n, move := BranchWidth(t), |args| - 2, |Fetches(0, Register(t))|;
            && (lo + b) * n <= Distance(args, t, opim, 1) + move <= (hi + b) * n
            && ((lo + b) * n - move >= 0x8000 ==> Far(args, t, opim, 1))
            && ((hi + b) * n - move < 0x8000 ==> !Far(args, t, opim, 1))
  {
    LengthBetween(args, t, opim, 2, lo, hi);
  }

  lemma WidthBetween(args: seq<Operand>, i: nat, t: nat, opim: Option<Opcode>)
    requires 0 < i < |args|
    ensures 1 <= Width(args, i, t, opim) <= (if t <= 0xFF then 5 else 7)
    ensures IsNear(Register(t)) && IsNear(args[i - 1]) && (TakesImmediate(args, i, opim) || IsNear(args[i])) ==>
            Width(args, i, t, opim) == 1
    ensures t > 0xFF && args[i - 1].Cell? && args[i].Cell? ==> Width(args, i, t, opim) == 7
    ensures IsNear(Register(t)) && IsNear(args[i - 1]) && args[i].Constant? && args[i].v.Number? && opim.Some? ==>
            Width(args, i, t, opim) == if -128 <= args[i].v.n <= 127 then 1 else 2
  {
  }

  /** Every comparison is one instruction. */
  predicate Slim(args: seq<Operand>, t: nat, opim: Option<Opcode>) {
    t <= 0xFF && forall k :: 1 <= k < |args| ==> Width(args, k, t, opim) == 1
  }

  /** Every comparison needs all the loads and moves there can be. */
  predicate Wide(args: seq<Operand>, t: nat) {
    t > 0xFF && forall k :: 0 <= k < |args| ==> args[k].Cell?
  }

  /** The first branch never fits from 16386 arguments on and always fits up to 3278; comparisons of near
      registers put the limit at the one number, comparisons of cells for a far target at the other. */
  lemma FarLength(args: seq<Operand>, t: nat, opim: Option<Opcode>)
    ensures |args| >= 16386 ==> Far(args, t, opim, 1)
    ensures |args| <= 3278 ==> !Far(args, t, opim, 1)
    ensures Slim(args, t, opim) ==> (Far(args, t, opim, 1) <==> |args| >= 16386)
    ensures Wide(args, t) ==> (Far(args, t, opim, 1) <==> |args| >= 3279)
  {
    if 2 < |args| {
      forall k | 2 <= k < |args|
        ensures 1 <= Width(args, k, t, opim) <= (if t <= 0xFF then 5 else 7)
        ensures Wide(args, t) ==> Width(args, k, t, opim) == 7
      {
        WidthBetween(args, k, t, opim);
      }
      FarByWidth(args, t, opim, 1, if t <= 0xFF then 5 else 7);
      if Slim(args, t, opim) {
        FarByWidth(args, t, opim, 1, 1);
      }
      if Wide(args, t) {
        FarByWidth(args, t, opim, 7, 7);
      }
    }
  }

  /** The comparator that the loop version of an inlined comparator uses. */
  function LoopOp(op: Opcode, invert: bool): Opcode {
    if invert then Equals else op
  }

  /** Comparisons give booleans, and an inverted chain is one of inequality tests. */
  ghost predicate Compares(w: World, op: Opcode, opim: Option<Opcode>, invert: bool) {
    && w.Sane() && Operator(op) && Agrees(w, op, opim) && (invert ==> op == NotEquals)
    && forall x, y :: w.binary(op, x, y).Boolean?
  }

  /** The inline comparisons end with what the comparator means, for this relation and these values. */
  ghost predicate Chains(w: World, args: seq<Operand>, t: nat, op: Opcode, opim: Option<Opcode>, invert: bool,
                         m: Memory)
    requires 2 <= |args|
  {
    Ends(w, CompReduced(args, t, op, opim, invert), m, t,
      Compared(w, LoopOp(op, invert), invert, Contents(m.st, args)))
  }

  /** No operand that is read after the first comparison lives in the target. */
  predicate Apart(args: seq<Operand>, t: nat) {
    |args| > 2 ==> forall k :: 1 <= k < |args| ==> args[k] != Register(t)
  }

  /** The store that the comparison of the i-th argument starts with. */
  ghost predicate Ready(args: seq<Operand>, t: nat, i: nat, st: Store, now: Store) {
    if i == 1 then now == st else Apart(args, t) && |args| > 2 && forall l :: l != Register(t) ==> now(l) == st(l)
  }

  lemma ReadyContents(args: seq<Operand>, t: nat, i: nat, st: Store, now: Store)
    requires 0 < i < |args| && Ready(args, t, i, st, now)
    ensures Content(now, args[i - 1]) == Content(st, args[i - 1]) && Content(now, args[i]) == Content(st, args[i])
  {
  }

  /** What a comparison says about the rest of the chain. */
  lemma ChainValue(w: World, op: Opcode, opim: Option<Opcode>, invert: bool, values: seq<Value>, i: nat)
    requires Compares(w, op, opim, invert) && 0 < i < |values|
    ensures var v, loopOp := w.binary(op, values[i - 1], values[i]), LoopOp(op, invert);
            if i + 1 == |values| || Truthy(v) == invert then v == Boolean(ChainedFrom(w, loopOp, values, i) != invert)
            else ChainedFrom(w, loopOp, values, i) == ChainedFrom(w, loopOp, values, i + 1)
  {
    ChainedNext(w, LoopOp(op, invert), values, i);
    var v := w.binary(op, values[i - 1], values[i]);
    assert v == Boolean(v.b);
  }

  lemma {:induction false} CompareRest(w: World, args: seq<Operand>, t: nat, op: Opcode, opim: Option<Opcode>,
                                       invert: bool, i: nat, st: Store, now: Memory)
    requires Compares(w, op, opim, invert) && 0 < i < |args|
    requires !Far(args, t, opim, i) && Apart(args, t) && Ready(args, t, i, st, now.st)
    ensures Ends(w, Chain(args, t, op, opim, invert, i), now, t,
            Boolean(ChainedFrom(w, LoopOp(op, invert), Contents(st, args), i) != invert))
    decreases |args| - i
  {
    var v := Boolean(ChainedFrom(w, LoopOp(op, invert), Contents(st, args), i) != invert);
    var after := CompareNow(w, args, t, op, opim, invert, i, now, v);
    ReadyContents(args, t, i, st, now.st);
    ChainValue(w, op, opim, invert, Contents(st, args), i);
    if i + 1 < |args| && Truthy(after.st(Register(t))) != invert {
      FarNext(args, t, opim, i);
      CompareRest(w, args, t, op, opim, invert, i + 1, st, after);
    }
  }

  /** Inline comparisons and the loop over an argument tuple give the same result. */
  lemma CompareAgrees(w: World, args: seq<Operand>, t: nat, op: Opcode, opim: Option<Opcode>, invert: bool, m: Memory)
    requires Compares(w, op, opim, invert) && Apart(args, t) && |args| >= 2 && !Far(args, t, opim, 1)
    ensures AllReadable(ComparatorCode(LoopOp(op, invert), invert))
    ensures var v := Compared(w, LoopOp(op, invert), invert, Contents(m.st, args));
            && Ends(w, CompReduced(args, t, op, opim, invert), m, t, v)
            && Leads(w, ComparatorCode(LoopOp(op, invert), invert), Entry(Contents(m.st, args)), Returned(v))
  {
    CompareRest(w, args, t, op, opim, invert, 1, m.st, m);
    ComparatorComputes(w, LoopOp(op, invert), invert, Contents(m.st, args));
  }

  /** A relation between all values but one pair. */
  function AllBut(p: Value, q: Value): World {
    World((op, x, y) =>
            if op == Equals then Boolean(x == y)
            else if op == NotEquals then Boolean(x != y)
            else Boolean(x != p || y != q),
          (op, x, n) => Boolean(x != p || Number(n) != q))
  }

  /** A relation between no values, and equality. */
  function Nowhere(op: Opcode): World {
    var relation := (o: Opcode, x: Value, y: Value) =>
      if o == Equals then Boolean(x == y) else if o == NotEquals then Boolean(x != y) else Boolean(false);
    World(relation, (o, x, n) => relation(op, x, Number(n)))
  }

  lemma AllButSane(p: Value, q: Value)
    ensures AllBut(p, q).Sane()
  {
  }

  lemma AllButAgrees(p: Value, q: Value, op: Opcode, opim: Option<Opcode>)
    requires op != Equals && op != NotEquals
    ensures Agrees(AllBut(p, q), op, opim) && forall x, y :: AllBut(p, q).binary(op, x, y) == Boolean(x != p || y != q)
  {
  }

  lemma AllButCompares(p: Value, q: Value, op: Opcode, opim: Option<Opcode>)
    requires Operator(op) && op != Equals && op != NotEquals
    ensures Compares(AllBut(p, q), op, opim, false)
  {
    AllButSane(p, q);
    AllButAgrees(p, q, op, opim);
  }

  lemma NowhereCompares(op: Opcode, opim: Option<Opcode>, invert: bool)
    requires Operator(op) && (invert ==> op == NotEquals)
    ensures Compares(Nowhere(op), op, opim, invert)
  {
  }

  /** A relation that fails at once makes the first branch go astray. */
  lemma FarFails(args: seq<Operand>, t: nat, op: Opcode, opim: Option<Opcode>, m: Memory)
    requires |args| >= 2 && Operator(op) && op != Equals && op != NotEquals && Far(args, t, opim, 1)
    ensures Compares(Nowhere(op), op, opim, false) && !Chains(Nowhere(op), args, t, op, opim, false, m)
  {
    NowhereCompares(op, opim, false);
    var v := Compared(Nowhere(op), op, false, Contents(m.st, args));
    var after := CompareNow(Nowhere(op), args, t, op, opim, false, 1, m, v);
  }

  /** A number above all constants among the operands. */
  function Unused(args: seq<Operand>): (n: int)
    ensures forall k :: 0 <= k < |args| && args[k].Constant? && args[k].v.Number? ==> args[k].v.n < n
  {
    if args == [] then 0
    else
      var last, n := args[|args| - 1], Unused(args[..|args| - 1]);
      if last.Constant? && last.v.Number? && last.v.n >= n then last.v.n + 1 else n
  }

  /** A memory where only the target holds v. */
  function Only(t: nat, v: Value): Memory {
    Memory((l: Operand) => if l == Register(t) then v else Nil, (k: nat) => Nil)
  }

  lemma {:induction false} ChainBreaks(w: World, op: Opcode, values: seq<Value>, i: nat, m: nat)
    requires 0 < i <= m < |values| && !Truthy(w.binary(op, values[m - 1], values[m]))
    ensures !ChainedFrom(w, op, values, i)
    decreases m - i
  {
    if i < m {
      ChainBreaks(w, op, values, i + 1, m);
    }
  }

  lemma {:induction false} ChainHolds(w: World, op: Opcode, values: seq<Value>, i: nat)
    requires 0 < i && forall m :: i <= m < |values| ==> Truthy(w.binary(op, values[m - 1], values[m]))
    ensures ChainedFrom(w, op, values, i)
    decreases |values| - i
  {
    if i < |values| {
      ChainHolds(w, op, values, i + 1);
    }
  }

  /** Once the first comparison has overwritten the target, nothing reads the number it held. */
  lemma {:induction false} MissesPair(w: World, args: seq<Operand>, t: nat, op: Opcode, opim: Option<Opcode>,
                                      i: nat, p: Value, q: Value, mark: Value, now: Memory, v: Value)
    requires Agrees(w, op, opim) && forall x, y :: w.binary(op, x, y) == Boolean(x != p || y != q)
    requires 0 < i < |args|
    requires mark.Number? && Constant(mark) !in args && (p == mark || q == mark)
    requires Content(now.st, args[i - 1]) != p || Content(now.st, args[i]) != q
    requires (forall l :: l != Register(t) ==> now.st(l) == Nil) && v != Boolean(true)
    ensures !Ends(w, Chain(args, t, op, opim, false, i), now, t, v)
    decreases |args| - i
  {
    var after := CompareNow(w, args, t, op, opim, false, i, now, v);
    assert after.st(Register(t)) == Boolean(true);
    if i + 1 < |args| {
      NotMarked(args[i], t, mark, after.st, args);
      NotMarked(args[i + 1], t, mark, after.st, args);
      MissesPair(w, args, t, op, opim, i + 1, p, q, mark, after, v);
    }
  }

  lemma NotMarked(o: Operand, t: nat, mark: Value, after: Store, args: seq<Operand>)
    requires o in args && Constant(mark) !in args && mark.Number? && after(Register(t)) == Boolean(true)
    requires forall l :: l != Register(t) ==> after(l) == Nil
    ensures Content(after, o) != mark
  {
  }

  /** The number is found just where the target is an operand. */
  lemma OnlyTarget(args: seq<Operand>, t: nat, k: nat)
    requires k < |args|
    ensures Content(Only(t, Number(Unused(args))).st, args[k]) == Number(Unused(args)) <==> args[k] == Register(t)
  {
  }

  /** A relation that fails of p and q only. */
  lemma PairDiffers(args: seq<Operand>, t: nat, op: Opcode, opim: Option<Opcode>, m: nat, now: Memory, p: Value,
                    q: Value)
    requires Operator(op) && op != Equals && op != NotEquals && 2 <= m < |args|
    requires forall l :: l != Register(t) ==> now.st(l) == Nil
    requires p == Content(now.st, args[m - 1]) && q == Content(now.st, args[m])
    requires (p == Number(Unused(args)) || q == Number(Unused(args)))
    requires Content(now.st, args[0]) != p || Content(now.st, args[1]) != q
    ensures Compares(AllBut(p, q), op, opim, false) && !Chains(AllBut(p, q), args, t, op, opim, false, now)
  {
    AllButCompares(p, q, op, opim);
    AllButAgrees(p, q, op, opim);
    ChainBreaks(AllBut(p, q), op, Contents(now.st, args), 1, m);
    MissesPair(AllBut(p, q), args, t, op, opim, 1, p, q, Number(Unused(args)), now, Boolean(false));
  }

  /** The relation fails between neighbours m - 1 and m, which the chain does not see. */
  lemma PairMissed(args: seq<Operand>, t: nat, op: Opcode, opim: Option<Opcode>, m: nat)
    requires Operator(op) && op != Equals && op != NotEquals && 2 <= m < |args|
    requires args[m - 1] == Register(t) || args[m] == Register(t)
    requires (args[m - 1] == Register(t)) != (args[0] == Register(t))
             || (args[m] == Register(t)) != (args[1] == Register(t))
    ensures exists w: World, now: Memory :: Compares(w, op, opim, false) && !Chains(w, args, t, op, opim, false, now)
  {
    var now := Only(t, Number(Unused(args)));
    OnlyTarget(args, t, 0);
    OnlyTarget(args, t, 1);
    OnlyTarget(args, t, m - 1);
    OnlyTarget(args, t, m);
    PairDiffers(args, t, op, opim, m, now, Content(now.st, args[m - 1]), Content(now.st, args[m]));
  }

  /** When all operands are the target, the second comparison sees the result of the first. */
  lemma AllTarget(args: seq<Operand>, t: nat, op: Opcode, opim: Option<Opcode>)
    requires Operator(op) && op != Equals && op != NotEquals && 2 < |args| && forall k :: 0 <= k < |args| ==>
             args[k] == Register(t)
    ensures exists w: World, now: Memory :: Compares(w, op, opim, false) && !Chains(w, args, t, op, opim, false, now)
  {
    var w, now := AllBut(Boolean(true), Boolean(true)), Only(t, Nil);
    AllButCompares(Boolean(true), Boolean(true), op, opim);
    ChainHolds(w, op, Contents(now.st, args), 1);
    var one := CompareNow(w, args, t, op, opim, false, 1, now, Boolean(true));
    var two := CompareNow(w, args, t, op, opim, false, 2, one, Boolean(true));
    assert one.st(Register(t)) == Boolean(true) && two.st(Register(t)) == Boolean(false);
    assert !Chains(w, args, t, op, opim, false, now);
  }

  lemma {:induction false} FirstOther(args: seq<Operand>, t: nat, j: nat) returns (m: nat)
    requires 2 <= j < |args| && args[1] == Register(t) && args[j] != Register(t)
    ensures 2 <= m <= j && args[m - 1] == Register(t) && args[m] != Register(t)
    decreases j
  {
    if args[j - 1] == Register(t) {
      m := j;
    } else {
      m := FirstOther(args, t, j - 1);
    }
  }

  lemma ClobberedMisses(args: seq<Operand>, t: nat, op: Opcode, opim: Option<Opcode>)
    requires Operator(op) && op != Equals && op != NotEquals && !Apart(args, t)
    ensures exists w: World, now: Memory :: Compares(w, op, opim, false) && !Chains(w, args, t, op, opim, false, now)
  {
    var k :| 1 <= k < |args| && args[k] == Register(t);
    if args[1] != Register(t) {
      PairMissed(args, t, op, opim, k);
    } else if args[0] != Register(t) {
      PairMissed(args, t, op, opim, 2);
    } else if j :| 2 <= j < |args| && args[j] != Register(t) {
      var m := FirstOther(args, t, j);
      PairMissed(args, t, op, opim, m);
    } else {
      AllTarget(args, t, op, opim);
    }
  }

  /** Inline comparisons give what the comparator means for every relation and all values exactly when no
      operand that is read after the first comparison lives in the target and the first branch fits. */
  lemma CompareExactly(args: seq<Operand>, t: nat, op: Opcode, opim: Option<Opcode>)
    requires 2 <= |args| && Operator(op) && op != Equals && op != NotEquals
    ensures Apart(args, t) && !Far(args, t, opim, 1)
       <==> forall w: World, m: Memory :: Compares(w, op, opim, false) ==> Chains(w, args, t, op, opim, false, m)
  {
    if Far(args, t, opim, 1) {
      FarFails(args, t, op, opim, Only(t, Nil));
    } else if Apart(args, t) {
      forall w: World, m: Memory | Compares(w, op, opim, false)
        ensures Chains(w, args, t, op, opim, false, m)
      {
        CompareRest(w, args, t, op, opim, false, 1, m.st, m);
      }
    } else {
      ClobberedMisses(args, t, op, opim);
    }
  }

  /** A register and a number that is no immediate, in turn. */
  function Alternating(): seq<Operand> {
    seq(12000, k => if k % 2 == 0 then Register(1) else Constant(Number(1000)))
  }

  /** Loads count: with every comparison two instructions wide, 12000 arguments are too many. */
  lemma LoadsTooFar()
    ensures var args, opim := Alternating(), Some(LessThanImmediate);
            && Distance(args, 0, opim, 1) == 35994 && Apart(args, 0) && Far(args, 0, opim, 1)
            && |CompReduced(args, 0, LessThan, opim, false)| == 35996
            && CompReduced(args, 0, LessThan, opim, false)[2] == Branch(false, Reg(0), -29542)
  {
    var args, opim := Alternating(), Some(LessThanImmediate);
    LoadsWiden();
    TwoWide(args, opim);
  }

  lemma TwoWide(args: seq<Operand>, opim: Option<Opcode>)
    requires |args| == 12000 && forall k :: 1 <= k < |args| ==> Width(args, k, 0, opim) == 2
    ensures Distance(args, 0, opim, 1) == 35994 && Far(args, 0, opim, 1)
    ensures |CompReduced(args, 0, LessThan, opim, false)| == 35996
    ensures CompReduced(args, 0, LessThan, opim, false)[2] == Branch(false, Reg(0), -29542)
  {
    FarByWidth(args, 0, opim, 2, 2);
    FirstBranch(args, 0, LessThan, opim, false);
    assert Width(args, 1, 0, opim) == 2 && Field(35994) == -29542;
  }

  lemma LoadsWiden()
    ensures forall k :: 1 <= k < |Alternating()| ==> Width(Alternating(), k, 0, Some(LessThanImmediate)) == 2
  {
  }

  /** Where the first branch is, and where it goes. */
  lemma FirstBranch(args: seq<Operand>, t: nat, op: Opcode, opim: Option<Opcode>, invert: bool)
    requires 2 < |args|
    ensures var code, at := CompReduced(args, t, op, opim, invert),
              Width(args, 1, t, opim) + |Fetches(0, Register(t))|;
            && |code| == Length(args, t, opim, 1) == at + Distance(args, t, opim, 1)
            && code[at] == Branch(invert, NearOf(0, Register(t)), Field(Distance(args, t, opim, 1)))
  {
    ChainLength(args, t, op, opim, invert, 1);
    ChainLength(args, t, op, opim, invert, 2);
    ComparisonLength(args, 1, t, op, opim);
    BranchIn(Comparison(args, 1, t, op, opim), t, invert, Field(Distance(args, t, opim, 1)),
      Chain(args, t, op, opim, invert, 2));
  }

  lemma BranchIn(head: seq<Instr>, t: nat, invert: bool, offset: int, rest: seq<Instr>)
    ensures var code := head + Branching(t, invert, offset) + rest;
            code[|head| + |Fetches(0, Register(t))|] == Branch(invert, NearOf(0, Register(t)), offset)
  {
  }
}
