/** Compiler slots, and what the loads, moves and stores that the emitter puts around an operation
    do to the registers, upvalues and reference cells of a running function. */
module Slots {
  import opened Options
  import opened Regalloc
  import opened Bytecode
  import opened Encoding
  import opened Machine

  /** Where the compiler keeps a value. A reference names a one-element array by its constant; a
      slot with an environment index is an upvalue; any other slot is a register. The marks are the
      flags that say nothing about where the value is. */
  datatype Slot = Slot(constant: Value, index: int, envindex: int, isConstant: bool, isRef: bool, marks: nat)

  /** Registers that hold something: taken and not reserved for temporaries. */
  ghost function Live(taken: iset<nat>): iset<nat> {
    iset r: nat | r in taken && !Reserved(r)
  }

  /** The slots that the compiler makes, the registers among them being live ones. */
  ghost predicate Good(s: Slot, live: iset<nat>) {
    if s.isConstant || s.isRef then s.index == -1 && s.envindex == -1
    else if s.envindex >= 0 then s.envindex <= 0xFF && 0 <= s.index <= 0xFF
    else 0 <= s.index <= 0xFFFF && s.index in live
  }

  datatype Location = Reg(r: nat) | Up(env: nat, slot: nat) | Cell(box: Value, at: nat)

  type Store = Location -> Value

  function Assign(st: Store, l: Location, v: Value): Store {
    x => if x == l then v else st(x)
  }

  predicate Writable(s: Slot) {
    s.isRef || (!s.isConstant && s.index >= 0)
  }

  function Place(s: Slot): Location
    requires Writable(s)
  {
    if s.isRef then Cell(s.constant, 0)
    else if s.envindex >= 0 then Up(s.envindex, s.index)
    else Reg(s.index)
  }

  /** The value that a slot stands for. */
  function Content(st: Store, s: Slot): Value {
    if Writable(s) then st(Place(s)) else s.constant
  }

  /** One load, move or store; constants are the function's constant table. */
  function Shift(constants: seq<Value>, i: Instruction, st: Store): Store {
    match i.op
    case LoadNil => Assign(st, Reg(i.d), Nil)
    case LoadTrue => Assign(st, Reg(i.d), Boolean(true))
    case LoadFalse => Assign(st, Reg(i.d), Boolean(false))
    case LoadInteger => Assign(st, Reg(i.a), Integer(i.es))
    case LoadConstant => Assign(st, Reg(i.a), if i.e < |constants| then constants[i.e] else Nil)
    case GetIndex => Assign(st, Reg(i.a), st(Cell(st(Reg(i.b)), i.c)))
    case PutIndex => Assign(st, Cell(st(Reg(i.a)), i.c), st(Reg(i.b)))
    case LoadUpvalue => Assign(st, Reg(i.a), st(Up(i.b, i.c)))
    case SetUpvalue => Assign(st, Up(i.b, i.c), st(Reg(i.a)))
    case MoveNear => Assign(st, Reg(i.a), st(Reg(i.e)))
    case MoveFar => Assign(st, Reg(i.e), st(Reg(i.a)))
    case _ => st
  }

  function Shifts(constants: seq<Value>, code: seq<Word>, st: Store): Store {
    if code == [] then st else Shift(constants, Decode(code[|code| - 1]), Shifts(constants, code[..|code| - 1], st))
  }

  lemma {:induction false} ShiftsSplit(constants: seq<Value>, a: seq<Word>, b: seq<Word>, st: Store)
    ensures Shifts(constants, a + b, st) == Shifts(constants, b, Shifts(constants, a, st))
  {
    if b == [] {
      assert a + b == a;
    } else {
      var rest := b[..|b| - 1];
      assert (a + b)[..|a + b| - 1] == a + rest;
      ShiftsSplit(constants, a, rest, st);
    }
  }

  function Register(r: nat): Slot {
    Slot(Nil, r, -1, false, false, 0)
  }

  /** Whatever constants are added later, code puts the content of src in dest and leaves every other
      location alone, apart from the registers in scratch. */
  ghost predicate Transfers(constants: seq<Value>, code: seq<Word>, dest: Location, src: Slot, scratch: iset<nat>) {
    forall k: seq<Value>, st: Store, l: Location {:trigger Shifts(k, code, st)(l)} ::
      constants <= k && (l.Reg? ==> l.r !in scratch) ==>
      Shifts(k, code, st)(l) == if l == dest then Content(st, src) else st(l)
  }

  /** No code, where the destination already is the source. */
  lemma TransferNothing(constants: seq<Value>, src: Slot)
    requires Writable(src)
    ensures Transfers(constants, [], Place(src), src, iset{})
  {
  }

  lemma TransferMore(constants: seq<Value>, more: seq<Value>, code: seq<Word>, dest: Location, src: Slot,
                     scratch: iset<nat>)
    requires Transfers(constants, code, dest, src, scratch) && constants <= more
    ensures Transfers(more, code, dest, src, scratch)
  {
  }

  lemma ShiftsOne(constants: seq<Value>, w: Word, st: Store)
    ensures Shifts(constants, [w], st) == Shift(constants, Decode(w), st)
  {
    assert [w][..0] == [];
  }

  /** Through an intermediate register that then counts as scratch. */
  lemma TransferThrough(constants: seq<Value>, a: seq<Word>, b: seq<Word>, src: Slot, mid: nat, dest: Location,
                        before: iset<nat>, after: iset<nat>)
    requires Transfers(constants, a, Reg(mid), src, before) && mid !in before
    requires Transfers(constants, b, dest, Register(mid), after)
    requires dest.Reg? ==> dest.r !in before
    ensures Transfers(constants, a + b, dest, src, before + after + iset{mid})
  {
    forall k: seq<Value>, st: Store, l: Location |
      constants <= k && (l.Reg? ==> l.r !in before + after + iset{mid})
      ensures Shifts(k, a + b, st)(l) == if l == dest then Content(st, src) else st(l)
    {
      ShiftsSplit(k, a, b, st);
      var st1 := Shifts(k, a, st);
      assert st1(Reg(mid)) == Content(st, src);
      assert st1(l) == if l == Reg(mid) then Content(st, src) else st(l);
    }
  }

  /** One word that assigns the content of src to dest. */
  lemma TransferOne(constants: seq<Value>, w: Word, dest: Location, src: Slot)
    requires forall k: seq<Value>, st: Store {:trigger Shift(k, Decode(w), st)} ::
               constants <= k ==> Shift(k, Decode(w), st) == Assign(st, dest, Content(st, src))
    ensures Transfers(constants, [w], dest, src, iset{})
  {
    forall k: seq<Value>, st: Store, l: Location | constants <= k
      ensures Shifts(k, [w], st)(l) == if l == dest then Content(st, src) else st(l)
    {
      ShiftsOne(k, w, st);
      assert Shift(k, Decode(w), st) == Assign(st, dest, Content(st, src));
    }
  }

  lemma MoveNearTransfers(constants: seq<Value>, dest: nat, src: nat)
    requires dest < 0x100 && src < 0x1_0000
    ensures Transfers(constants, [WordAE(MoveNear, dest, src)], Reg(dest), Register(src), iset{})
  {
    DecodeAE(MoveNear, dest, src);
    TransferOne(constants, WordAE(MoveNear, dest, src), Reg(dest), Register(src));
  }

  lemma MoveFarTransfers(constants: seq<Value>, dest: nat, src: nat)
    requires src < 0x100 && dest < 0x1_0000
    ensures Transfers(constants, [WordAE(MoveFar, src, dest)], Reg(dest), Register(src), iset{})
  {
    DecodeAE(MoveFar, src, dest);
    TransferOne(constants, WordAE(MoveFar, src, dest), Reg(dest), Register(src));
  }

  lemma LoadUpvalueTransfers(constants: seq<Value>, dest: nat, s: Slot)
    requires dest < 0x100 && s.envindex >= 0 && Good(s, iset{}) && !s.isRef && !s.isConstant
    ensures Transfers(constants, [WordABC(LoadUpvalue, dest, s.envindex, s.index)], Reg(dest), s, iset{})
  {
    DecodeABC(LoadUpvalue, dest, s.envindex, s.index);
    TransferOne(constants, WordABC(LoadUpvalue, dest, s.envindex, s.index), Reg(dest), s);
  }

  lemma SetUpvalueTransfers(constants: seq<Value>, s: Slot, src: nat)
    requires src < 0x100 && s.envindex >= 0 && Good(s, iset{}) && !s.isRef && !s.isConstant
    ensures Transfers(constants, [WordABC(SetUpvalue, src, s.envindex, s.index)], Place(s), Register(src), iset{})
  {
    DecodeABC(SetUpvalue, src, s.envindex, s.index);
    TransferOne(constants, WordABC(SetUpvalue, src, s.envindex, s.index), Place(s), Register(src));
  }

  /** Two pieces of code of which the second is one word with a known effect. */
  lemma ShiftsThen(k: seq<Value>, code: seq<Word>, w: Word, st: Store, l: Location, v: Value)
    requires Shift(k, Decode(w), Shifts(k, code, st)) == Assign(Shifts(k, code, st), l, v)
    ensures Shifts(k, code + [w], st) == Assign(Shifts(k, code, st), l, v)
  {
    ShiftsSplit(k, code, [w], st);
    ShiftsOne(k, w, Shifts(k, code, st));
  }

  lemma ShiftGetIndex(k: seq<Value>, dest: nat, st: Store)
    requires dest < 0x100
    ensures Shift(k, Decode(WordABC(GetIndex, dest, dest, 0)), st) == Assign(st, Reg(dest), st(Cell(st(Reg(dest)), 0)))
  {
    DecodeABC(GetIndex, dest, dest, 0);
  }

  lemma ShiftPutIndex(k: seq<Value>, ref: nat, src: nat, st: Store)
    requires ref < 0x100 && src < 0x100
    ensures Shift(k, Decode(WordABC(PutIndex, ref, src, 0)), st) == Assign(st, Cell(st(Reg(ref)), 0), st(Reg(src)))
  {
    DecodeABC(PutIndex, ref, src, 0);
  }

  /** Loading the array of a reference and reading its only element. */
  lemma DerefTransfers(constants: seq<Value>, load: seq<Word>, dest: nat, box: Slot, s: Slot)
    requires dest < 0x100 && s.isRef && !Writable(box) && box.constant == s.constant
    requires Transfers(constants, load, Reg(dest), box, iset{})
    ensures Transfers(constants, load + [WordABC(GetIndex, dest, dest, 0)], Reg(dest), s, iset{})
  {
    forall k: seq<Value>, st: Store, l: Location | constants <= k
      ensures Shifts(k, load + [WordABC(GetIndex, dest, dest, 0)], st)(l) == if l == Reg(dest) then Content(st, s)
              else st(l)
    {
      DerefAt(constants, load, dest, box, s, k, st, l, WordABC(GetIndex, dest, dest, 0));
    }
  }

  lemma DerefAt(constants: seq<Value>, load: seq<Word>, dest: nat, box: Slot, s: Slot, k: seq<Value>, st: Store,
                l: Location, w: Word)
    requires dest < 0x100 && s.isRef && !Writable(box) && box.constant == s.constant
    requires w == WordABC(GetIndex, dest, dest, 0)
    requires Transfers(constants, load, Reg(dest), box, iset{}) && constants <= k
    ensures Shifts(k, load + [w], st)(l) == if l == Reg(dest) then Content(st, s) else st(l)
  {
    var st1 := Shifts(k, load, st);
    assert st1(Reg(dest)) == s.constant;
    assert st1(Cell(s.constant, 0)) == st(Cell(s.constant, 0));
    assert st1(l) == if l == Reg(dest) then s.constant else st(l);
    ShiftGetIndex(k, dest, st1);
    ShiftsThen(k, load, w, st, Reg(dest), st1(Cell(st1(Reg(dest)), 0)));
  }

  /** Loading the array of a reference and writing its only element. */
  lemma RefTransfers(constants: seq<Value>, load: seq<Word>, ref: nat, box: Slot, s: Slot, src: nat)
    requires ref < 0x100 && src < 0x100 && ref != src && s.isRef && !Writable(box) && box.constant == s.constant
    requires Transfers(constants, load, Reg(ref), box, iset{})
    ensures Transfers(constants, load + [WordABC(PutIndex, ref, src, 0)], Place(s), Register(src), iset{ref})
  {
    var w := WordABC(PutIndex, ref, src, 0);
    forall k: seq<Value>, st: Store, l: Location | constants <= k && l != Reg(ref)
      ensures Shifts(k, load + [w], st)(l) == if l == Place(s) then Content(st, Register(src)) else st(l)
    {
      RefAt(constants, load, ref, box, s, src, k, st, l, w);
    }
  }

  lemma RefAt(constants: seq<Value>, load: seq<Word>, ref: nat, box: Slot, s: Slot, src: nat,
              k: seq<Value>, st: Store, l: Location, w: Word)
    requires ref < 0x100 && src < 0x100 && ref != src && s.isRef && !Writable(box) && box.constant == s.constant
    requires Transfers(constants, load, Reg(ref), box, iset{}) && constants <= k && l != Reg(ref)
    requires w == WordABC(PutIndex, ref, src, 0)
    ensures Shifts(k, load + [w], st)(l) == if l == Place(s) then st(Reg(src)) else st(l)
  {
    var st1 := Shifts(k, load, st);
    assert st1(Reg(ref)) == s.constant;
    assert st1(Reg(src)) == st(Reg(src));
    assert st1(l) == st(l);
    ShiftPutIndex(k, ref, src, st1);
    ShiftsThen(k, load, w, st, Cell(st1(Reg(ref)), 0), st1(Reg(src)));
  }

  /** What an operation sees: its opcode, operand values and immediate. */
  datatype Action = Action(op: Opcode, operands: seq<Value>, immediate: nat)

  /** The rest of the program decides what an operation results in and what else it writes. */
  datatype Rest = Rest(result: Action -> Value, written: (Action, Location) -> Option<Value>)

  /** The store after an operation whose result goes to target. */
  function Operate(rest: Rest, a: Action, target: Option<Location>, st: Store): Store {
    l => if target == Some(l) then rest.result(a)
         else match rest.written(a, l) case Some(v) => v case None => st(l)
  }

  function Values(st: Store, regs: seq<nat>): seq<Value> {
    seq(|regs|, j requires 0 <= j < |regs| => st(Reg(regs[j])))
  }

  function Contents(st: Store, slots: seq<Slot>): seq<Value> {
    seq(|slots|, j requires 0 <= j < |slots| => Content(st, slots[j]))
  }

  /** What a location holds when an operation on registers has run between two pieces of code. */
  ghost function Actual(k: seq<Value>, pre: seq<Word>, post: seq<Word>, op: Opcode, regs: seq<nat>, immediate: nat,
                        writes: bool, rest: Rest, st: Store, l: Location): Value
    requires |regs| > 0
  {
    var loaded := Shifts(k, pre, st);
    var target := if writes then Some(Reg(regs[0])) else None;
    Shifts(k, post, Operate(rest, Action(op, Values(loaded, regs), immediate), target, loaded))(l)
  }

  /** What it should hold: the operation works on the slots themselves. */
  ghost function Intended(op: Opcode, slots: seq<Slot>, immediate: nat, writes: bool, rest: Rest, st: Store,
                          l: Location): Value
    requires |slots| > 0 && (writes ==> Writable(slots[0]))
  {
    var target := if writes then Some(Place(slots[0])) else None;
    Operate(rest, Action(op, Contents(st, slots), immediate), target, st)(l)
  }

  /** Code before and after an operation on registers that makes it the same operation on slots, its
      result landing in the first slot when there is one. */
  ghost predicate Performs(constants: seq<Value>, pre: seq<Word>, post: seq<Word>, op: Opcode, regs: seq<nat>,
                           immediate: nat, writes: bool, slots: seq<Slot>, live: iset<nat>)
    requires |regs| == |slots| > 0 && (writes ==> Writable(slots[0]))
  {
    forall k: seq<Value>, rest: Rest, st: Store, l: Location
      {:trigger Actual(k, pre, post, op, regs, immediate, writes, rest, st, l)} ::
      constants <= k && (l.Reg? ==> l.r in live) ==>
      Actual(k, pre, post, op, regs, immediate, writes, rest, st, l)
        == Intended(op, slots, immediate, writes, rest, st, l)
  }

  /** Code that brings the contents of slots into registers and disturbs nothing live. */
  ghost predicate Gathers(constants: seq<Value>, code: seq<Word>, regs: seq<nat>, slots: seq<Slot>, live: iset<nat>) {
    && |regs| == |slots|
    && (forall k: seq<Value>, st: Store, j {:trigger Shifts(k, code, st)(Reg(regs[j]))} ::
          constants <= k && 0 <= j < |regs| ==> Shifts(k, code, st)(Reg(regs[j])) == Content(st, slots[j]))
    && (forall k: seq<Value>, st: Store, l: Location {:trigger Shifts(k, code, st)(l)} ::
          constants <= k && (l.Reg? ==> l.r in live) ==> Shifts(k, code, st)(l) == st(l))
  }

  lemma GatherMore(constants: seq<Value>, code: seq<Word>, regs: seq<nat>, slots: seq<Slot>, live: iset<nat>,
                   constants': seq<Value>, more: seq<Word>, reg: nat, s: Slot, scratch: iset<nat>)
    requires Gathers(constants, code, regs, slots, live) && constants <= constants' && Good(s, live)
    requires Transfers(constants', more, Reg(reg), s, scratch)
    requires more == [] || (reg !in live && reg !in regs)
    requires forall r: nat :: r in scratch ==> r !in live && r !in regs && r != reg
    ensures Gathers(constants', code + more, regs + [reg], slots + [s], live)
  {
    forall k: seq<Value>, st: Store | constants' <= k
      ensures Shifts(k, code + more, st) == Shifts(k, more, Shifts(k, code, st))
      ensures Content(Shifts(k, code, st), s) == Content(st, s)
    {
      ShiftsSplit(k, code, more, st);
    }
  }

  lemma PerformFrom(constants: seq<Value>, pre: seq<Word>, post: seq<Word>, op: Opcode, regs: seq<nat>,
                    immediate: nat, writes: bool, slots: seq<Slot>, live: iset<nat>, scratch: iset<nat>)
    requires |regs| == |slots| > 0 && (writes ==> Writable(slots[0]))
    requires Gathers(constants, pre, regs, slots, live) && Good(slots[0], live)
    requires if writes then Transfers(constants, post, Place(slots[0]), Register(regs[0]), scratch) else post == []
    requires forall r: nat :: r in scratch ==> r !in live
    requires writes && regs[0] in live ==> Place(slots[0]) == Reg(regs[0])
    ensures Performs(constants, pre, post, op, regs, immediate, writes, slots, live)
  {
    forall k: seq<Value>, rest: Rest, st: Store, l: Location |
      constants <= k && (l.Reg? ==> l.r in live)
      ensures Actual(k, pre, post, op, regs, immediate, writes, rest, st, l)
              == Intended(op, slots, immediate, writes, rest, st, l)
    {
      PerformAt(constants, pre, post, op, regs, immediate, writes, slots, live, scratch, k, rest, st, l);
    }
  }

  lemma PerformAt(constants: seq<Value>, pre: seq<Word>, post: seq<Word>, op: Opcode, regs: seq<nat>, immediate: nat,
                  writes: bool,
                  slots: seq<Slot>, live: iset<nat>, scratch: iset<nat>, k: seq<Value>, rest: Rest, st: Store,
                    l: Location)
    requires |regs| == |slots| > 0 && (writes ==> Writable(slots[0]))
    requires Gathers(constants, pre, regs, slots, live)
    requires if writes then Transfers(constants, post, Place(slots[0]), Register(regs[0]), scratch) else post == []
    requires forall r: nat :: r in scratch ==> r !in live
    requires writes && regs[0] in live ==> Place(slots[0]) == Reg(regs[0])
    requires constants <= k && (l.Reg? ==> l.r in live)
    ensures Actual(k, pre, post, op, regs, immediate, writes, rest, st, l)
            == Intended(op, slots, immediate, writes, rest, st, l)
  {
    SameOperands(constants, pre, regs, slots, live, k, st);
    assert Shifts(k, pre, st)(l) == st(l);
    if writes {
      StoreAt(constants, post, regs[0], slots[0], live, scratch, rest, Action(op, Contents(st, slots), immediate), k,
              Shifts(k, pre, st), l);
    }
  }

  /** After the operation and the code that stores its result. */
  lemma StoreAt(constants: seq<Value>, post: seq<Word>, reg: nat, s: Slot, live: iset<nat>, scratch: iset<nat>,
                rest: Rest, a: Action,
                k: seq<Value>, st: Store, l: Location)
    requires Writable(s) && Transfers(constants, post, Place(s), Register(reg), scratch) && constants <= k
    requires forall r: nat :: r in scratch ==> r !in live
    requires l.Reg? ==> l.r in live
    requires reg in live ==> Place(s) == Reg(reg)
    ensures Shifts(k, post, Operate(rest, a, Some(Reg(reg)), st))(l) == Operate(rest, a, Some(Place(s)), st)(l)
  {
    var done := Operate(rest, a, Some(Reg(reg)), st);
    assert Shifts(k, post, done)(l) == if l == Place(s) then done(Reg(reg)) else done(l);
  }

  lemma SameOperands(constants: seq<Value>, pre: seq<Word>, regs: seq<nat>, slots: seq<Slot>, live: iset<nat>,
                     k: seq<Value>, st: Store)
    requires Gathers(constants, pre, regs, slots, live) && constants <= k
    ensures Values(Shifts(k, pre, st), regs) == Contents(st, slots)
  {
    forall j | 0 <= j < |regs|
      ensures Values(Shifts(k, pre, st), regs)[j] == Contents(st, slots)[j]
    {
      assert Shifts(k, pre, st)(Reg(regs[j])) == Content(st, slots[j]);
    }
  }
}
