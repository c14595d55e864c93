/** The code emitter: it hides constants, references, upvalues, near and far registers behind one
    kind of slot, borrowing temporaries from the register allocator. */
module Emitter {
  import opened Options
  import opened Regalloc
  import opened Bytecode
  import opened Encoding
  import opened Machine
  import opened Slots

  const MAX_CONSTANTS := 0xFFFF

  /** A slot that is just a constant. */
  function Literal(v: Value): Slot {
    Slot(v, -1, -1, true, false, 0)
  }

  /** The two slots are the same place or the same constant, flags included. */
  predicate SlotEqual(lhs: Slot, rhs: Slot) {
    && lhs.isConstant == rhs.isConstant && lhs.isRef == rhs.isRef && lhs.marks == rhs.marks
    && lhs.index == rhs.index && lhs.envindex == rhs.envindex
    && (lhs.isRef || lhs.isConstant ==> lhs.constant == rhs.constant)
  }

  predicate NearRegister(s: Slot) {
    s.envindex < 0 && 0 <= s.index <= 0xFF
  }

  /** Nothing that was taken is given back, and no register below 256 stays behind. */
  ghost predicate Kept(before: iset<nat>, after: iset<nat>) {
    before <= after && forall r: nat :: r in after && r !in before ==> r >= NEAR
  }

  /** As Kept, with one more register held for a temporary. */
  ghost predicate Borrowed(before: iset<nat>, after: iset<nat>, reg: nat, tag: nat) {
    && before <= after && reg in after && (reg in before ==> reg == RESERVED + tag)
    && forall r: nat :: r in after && r !in before && r != reg ==> r >= NEAR
  }

  class Emitter {
    var buffer: seq<Word>
    var consts: seq<Value>
    var failed: bool
    const ra: RegisterAllocator

    constructor (ra: RegisterAllocator)
      ensures this.ra == ra && buffer == [] && consts == [] && !failed
    {
      this.ra, buffer, consts, failed := ra, [], [], false;
    }

    /** Only this code, and perhaps constants, were added; an error is never taken back. */
    twostate predicate Added(code: seq<Word>)
      reads this
    {
      buffer == old(buffer) + code && old(consts) <= consts && (old(failed) ==> failed)
    }

    method AllocFar() returns (reg: nat)
      requires ra.Valid()
      modifies this`failed, ra
      ensures ra.Valid() && ra.regtemps == old(ra.regtemps)
      ensures reg !in old(ra.taken) && ra.taken == old(ra.taken) + iset{reg}
      ensures forall r: nat :: r < reg ==> r in old(ra.taken)
      ensures failed == (old(failed) || reg > 0xFFFF)
    {
      reg := ra.Alloc1();
      if reg > 0xFFFF {
        failed := true;
      }
    }

    method Emit(w: Word)
      modifies this`buffer
      ensures buffer == old(buffer) + [w]
    {
      buffer := buffer + [w];
    }

    /** The index of a constant that is in the table already or can be added to it. */
    method Const(x: Value) returns (i: nat)
      requires |consts| <= MAX_CONSTANTS
      modifies this`consts, this`failed
      ensures |consts| <= MAX_CONSTANTS && old(consts) <= consts
      ensures failed == (old(failed) || (x !in old(consts) && |old(consts)| == MAX_CONSTANTS))
      ensures !failed ==> i < |consts| && consts[i] == x
      ensures consts == if x in old(consts) || |old(consts)| == MAX_CONSTANTS then old(consts) else old(consts) + [x]
    {
      i := 0;
      while i < |consts|
        invariant i <= |consts| && x !in consts[..i]
      {
        if x == consts[i] { return; }
        i := i + 1;
      }
      if |consts| >= MAX_CONSTANTS {
        failed := true;
        return 0;
      }
      consts := consts + [x];
    }

    method EmitNil(reg: nat) returns (ghost w: Word)
      requires reg < 0x100
      modifies this`buffer
      ensures buffer == old(buffer) + [w] && Transfers(consts, [w], Reg(reg), Literal(Nil), iset{})
    {
      Emit(WordD(LoadNil, reg));
      w := WordD(LoadNil, reg);
      DecodeD(LoadNil, reg);
      TransferOne(consts, w, Reg(reg), Literal(Nil));
    }

    method EmitBoolean(b: bool, reg: nat) returns (ghost w: Word)
      requires reg < 0x100
      modifies this`buffer
      ensures buffer == old(buffer) + [w] && Transfers(consts, [w], Reg(reg), Literal(Boolean(b)), iset{})
    {
      Emit(WordD(if b then LoadTrue else LoadFalse, reg));
      w := WordD(if b then LoadTrue else LoadFalse, reg);
      DecodeD(if b then LoadTrue else LoadFalse, reg);
      TransferOne(consts, w, Reg(reg), Literal(Boolean(b)));
    }

    method EmitInteger(n: int, reg: nat) returns (ghost w: Word)
      requires reg < 0x100 && -0x8000 <= n < 0x8000
      modifies this`buffer
      ensures buffer == old(buffer) + [w] && Transfers(consts, [w], Reg(reg), Literal(Integer(n)), iset{})
    {
      Emit(WordAE(LoadInteger, reg, n));
      w := WordAE(LoadInteger, reg, n);
      DecodeAE(LoadInteger, reg, n);
      TransferOne(consts, w, Reg(reg), Literal(Integer(n)));
    }

    method EmitConstant(i: nat, reg: nat) returns (ghost w: Word)
      requires reg < 0x100
      modifies this`buffer
      ensures buffer == old(buffer) + [w]
      ensures i < |consts| && i < 0x1_0000 ==> Transfers(consts, [w], Reg(reg), Literal(consts[i]), iset{})
    {
      Emit(WordAE(LoadConstant, reg, i));
      w := WordAE(LoadConstant, reg, i);
      if i < |consts| && i < 0x1_0000 {
        DecodeAE(LoadConstant, reg, i);
        TransferOne(consts, w, Reg(reg), Literal(consts[i]));
      }
    }

    method LoadConst(v: Value, reg: nat) returns (ghost code: seq<Word>)
      requires reg < 0x100 && |consts| <= MAX_CONSTANTS
      modifies this
      ensures |consts| <= MAX_CONSTANTS && Added(code) && code != []
      ensures !failed ==> Transfers(consts, code, Reg(reg), Literal(v), iset{})
    {
      ghost var w;
      if v.Nil? {
        w := EmitNil(reg);
      } else if v.Boolean? {
        w := EmitBoolean(v.b, reg);
      } else if v.Integer? && -0x8000 <= v.n <= 0x7FFF {
        w := EmitInteger(v.n, reg);
      } else {
        var cindex := Const(v);
        w := EmitConstant(cindex, reg);
      }
      code := [w];
    }

    method EmitDeref(dest: nat, ghost load: seq<Word>, ghost s: Slot) returns (ghost w: Word)
      requires dest < 0x100 && s.isRef
      modifies this`buffer
      ensures buffer == old(buffer) + [w]
      ensures Transfers(consts, load, Reg(dest), Literal(s.constant), iset{}) ==>
                Transfers(consts, load + [w], Reg(dest), s, iset{})
    {
      Emit(WordABC(GetIndex, dest, dest, 0));
      w := WordABC(GetIndex, dest, dest, 0);
      if Transfers(consts, load, Reg(dest), Literal(s.constant), iset{}) {
        DerefTransfers(consts, load, dest, Literal(s.constant), s);
      }
    }

    method EmitLoadUpvalue(dest: nat, s: Slot) returns (ghost w: Word)
      requires dest < 0x100 && s.envindex >= 0 && Good(s, iset{}) && !s.isRef && !s.isConstant
      modifies this`buffer
      ensures buffer == old(buffer) + [w] && Transfers(consts, [w], Reg(dest), s, iset{})
    {
      Emit(WordABC(LoadUpvalue, dest, s.envindex, s.index));
      w := WordABC(LoadUpvalue, dest, s.envindex, s.index);
      LoadUpvalueTransfers(consts, dest, s);
    }

    method EmitSetUpvalue(s: Slot, src: nat) returns (ghost w: Word)
      requires src < 0x100 && s.envindex >= 0 && Good(s, iset{}) && !s.isRef && !s.isConstant
      modifies this`buffer
      ensures buffer == old(buffer) + [w] && Transfers(consts, [w], Place(s), Register(src), iset{})
    {
      Emit(WordABC(SetUpvalue, src, s.envindex, s.index));
      w := WordABC(SetUpvalue, src, s.envindex, s.index);
      SetUpvalueTransfers(consts, s, src);
    }

    method EmitMoveNear(dest: nat, src: nat) returns (ghost w: Word)
      requires dest < 0x100
      modifies this`buffer
      ensures buffer == old(buffer) + [w]
      ensures src < 0x1_0000 ==> Transfers(consts, [w], Reg(dest), Register(src), iset{})
    {
      Emit(WordAE(Opcode.MoveNear, dest, src));
      w := WordAE(Opcode.MoveNear, dest, src);
      if src < 0x1_0000 {
        MoveNearTransfers(consts, dest, src);
      }
    }

    method EmitMoveFar(dest: nat, src: nat) returns (ghost w: Word)
      requires src < 0x100
      modifies this`buffer
      ensures buffer == old(buffer) + [w]
      ensures dest < 0x1_0000 ==> Transfers(consts, [w], Reg(dest), Register(src), iset{})
    {
      Emit(WordAE(MoveFar, src, dest));
      w := WordAE(MoveFar, src, dest);
      if dest < 0x1_0000 {
        MoveFarTransfers(consts, dest, src);
      }
    }

    /** Loads a slot into a near register. */
    method MoveNear(dest: nat, src: Slot, ghost live: iset<nat>) returns (ghost code: seq<Word>)
      requires dest < 0x100 && Good(src, live) && |consts| <= MAX_CONSTANTS
      modifies this
      ensures |consts| <= MAX_CONSTANTS && Added(code) && (code == [] ==> src.index == dest)
      ensures !failed ==> Transfers(consts, code, Reg(dest), src, iset{})
    {
      ghost var w;
      if src.isConstant || src.isRef {
        code := LoadConst(src.constant, dest);
        if src.isRef {
          w := EmitDeref(dest, code, src);
          code := code + [w];
        } else if !failed {
          SameContent(consts, code, Reg(dest), Literal(src.constant), src, iset{});
        }
      } else if src.envindex >= 0 {
        w := EmitLoadUpvalue(dest, src);
        code := [w];
      } else if src.index != dest {
        w := EmitMoveNear(dest, src.index);
        code := [w];
        SameContent(consts, code, Reg(dest), Register(src.index), src, iset{});
      } else {
        code := [];
        TransferNothing(consts, src);
      }
    }

    /** Writes the only element of the array in register ref. The register fields are not cut to one
        byte, so a far src spills into the index field. */
    method EmitPutCell(ref: nat, src: nat, ghost load: seq<Word>, ghost s: Slot) returns (ghost w: Word)
      requires ref < 0x100 && ref != src && s.isRef
      modifies this`buffer
      ensures buffer == old(buffer) + [w]
      ensures Transfers(consts, load, Reg(ref), Literal(s.constant), iset{}) && src < 0x100 ==>
                Transfers(consts, load + [w], Place(s), Register(src), iset{ref})
      ensures Transfers(consts, load, Reg(ref), Literal(s.constant), iset{}) && 0x100 <= src < 0x1_0000 ==>
                Misses(consts, load + [w], Place(s))
    {
      Emit(WordAE(PutIndex, ref, src));
      w := WordAE(PutIndex, ref, src);
      if Transfers(consts, load, Reg(ref), Literal(s.constant), iset{}) {
        if src < 0x100 {
          assert w == WordABC(PutIndex, ref, src, 0);
          RefTransfers(consts, load, ref, Literal(s.constant), s, src);
        } else if src < 0x1_0000 {
          FarMisses(consts, load, ref, s, src);
        }
      }
    }

    /** Stores a register into a slot, going through the temporary 245 when the register is far. */
    method MoveBack(dest: Slot, src: nat) returns (ghost code: seq<Word>, ghost scratch: iset<nat>)
      requires ra.Valid() && 5 !in ra.regtemps && src in ra.taken && src != RESERVED + 5 && |consts| <= MAX_CONSTANTS
      requires Good(dest, Live(ra.taken)) && Writable(dest)
      modifies this, ra
      ensures ra.Valid() && ra.regtemps == old(ra.regtemps) && Kept(old(ra.taken), ra.taken)
      ensures |consts| <= MAX_CONSTANTS && Added(code)
      ensures forall r: nat :: r in scratch ==> r !in Live(old(ra.taken)) && r != src
      ensures !failed && (src < 0x100 || (src < 0x1_0000 && !dest.isRef)) ==>
                Transfers(consts, code, Place(dest), Register(src), scratch)
      ensures !failed && 0x100 <= src < 0x1_0000 && dest.isRef ==> Misses(consts, code, Place(dest))
    {
      scratch := iset{};
      if dest.isRef {
        var refreg := ra.Temp(5);
        code := LoadConst(dest.constant, refreg);
        ghost var w := EmitPutCell(refreg, src, code, dest);
        code, scratch := code + [w], iset{refreg};
        ra.FreeTemp(refreg, 5);
      } else if dest.envindex < 0 && dest.index == src {
        code := [];
        TransferNothing(consts, Register(src));
      } else {
        var near := src;
        ghost var first: seq<Word>;
        first, near := NearSource(src);
        ghost var w;
        if dest.envindex >= 0 {
          w := EmitSetUpvalue(dest, near);
        } else {
          w := EmitMoveFar(dest.index, near);
        }
        code := first + [w];
        if src > 0xFF {
          scratch := iset{near};
          if src < 0x1_0000 {
            TransferThrough(consts, first, [w], Register(src), near, Place(dest), iset{}, iset{});
            TransferScratch(consts, code, Place(dest), Register(src), iset{} + iset{} + iset{near}, scratch);
          }
        }
      }
    }

    method NearSource(src: nat) returns (ghost code: seq<Word>, near: nat)
      modifies this`buffer
      ensures buffer == old(buffer) + code && near < 0x100
      ensures src <= 0xFF ==> near == src && code == []
      ensures src > 0xFF ==> near == RESERVED + 5
      ensures src > 0xFF && src < 0x1_0000 ==> Transfers(consts, code, Reg(near), Register(src), iset{})
    {
      near, code := src, [];
      if src > 0xFF {
        near := RESERVED + 5;
        ghost var w := EmitMoveNear(near, src);
        code := [w];
      }
    }

    /** The register of a near register slot, or a temporary that the slot has been loaded into. */
    method RegNear(s: Slot, tag: nat, ghost live: iset<nat>) returns (reg: nat, ghost code: seq<Word>)
      requires ra.Valid() && tag < 8 && tag !in ra.regtemps && |consts| <= MAX_CONSTANTS && Good(s, live)
      modifies this, ra
      ensures ra.Valid() && |consts| <= MAX_CONSTANTS && Added(code) && reg < 0x100
      ensures NearRegister(s) ==> reg == s.index && code == [] && unchanged(ra)
      ensures !NearRegister(s) ==>
                && Borrowed(old(ra.taken), ra.taken, reg, tag) && ra.regtemps == old(ra.regtemps) + {tag}
                && (reg < RESERVED || reg == RESERVED + tag)
      ensures !failed ==> Transfers(consts, code, Reg(reg), s, iset{})
    {
      if NearRegister(s) {
        TransferNothing(consts, s);
        return s.index, [];
      }
      reg := ra.Temp(tag);
      code := MoveNear(reg, s, live);
    }

    /** Gives back what RegNear or RegFar borrowed. */
    method FreeRegNear(s: Slot, reg: nat, tag: nat)
      requires ra.Valid() && reg in ra.taken && Good(s, ra.taken) && (NearRegister(s) ==> reg == s.index)
      requires 0 <= s.index == reg && s.envindex < 0 ==> !Reserved(reg)
      modifies ra
      ensures ra.Valid()
      ensures 0 <= s.index == reg && s.envindex < 0 ==> unchanged(ra)
      ensures !(0 <= s.index == reg && s.envindex < 0) ==>
                && ra.regtemps == old(ra.regtemps) - {tag}
                && ra.taken == if reg < RESERVED then old(ra.taken) - iset{reg} else old(ra.taken)
      ensures NearRegister(s) ==> unchanged(ra)
      ensures reg < NEAR ==> ra.taken == Without(old(ra.taken), s, reg)
    {
      if reg != s.index || s.envindex >= 0 || s.isConstant || s.isRef {
        ra.FreeTemp(reg, tag);
      }
    }

    /** Copies src into dest; a constant cannot be written. */
    method Copy(dest: Slot, src: Slot)
      requires ra.Valid() && 3 !in ra.regtemps && 5 !in ra.regtemps && |consts| <= MAX_CONSTANTS
      requires Good(dest, Live(ra.taken)) && Good(src, Live(ra.taken))
      modifies this, ra
      ensures ra.Valid() && ra.regtemps == old(ra.regtemps) && Kept(old(ra.taken), ra.taken)
      ensures |consts| <= MAX_CONSTANTS && old(buffer) <= buffer && old(consts) <= consts && (old(failed) ==> failed)
      ensures dest.isConstant ==> failed && buffer == old(buffer)
      ensures !failed ==> Writable(dest)
      ensures !failed ==> Transfers(consts, buffer[|old(buffer)|..], Place(dest), src, Dead(Live(old(ra.taken))))
    {
      if dest.isConstant {
        failed := true;
        return;
      }
      ghost var code: seq<Word>, scratch: iset<nat> := [], iset{};
      if SlotEqual(dest, src) {
        TransferNothing(consts, src);
      } else if NearRegister(dest) {
        code := MoveNear(dest.index, src, Live(ra.taken));
      } else if NearRegister(src) {
        code, scratch := MoveBack(dest, src.index);
        if !failed {
          SameContent(consts, code, Place(dest), Register(src.index), src, scratch);
        }
      } else {
        code, scratch := CopyThrough(dest, src);
      }
      assert buffer[|old(buffer)|..] == code;
      if !failed {
        TransferScratch(consts, code, Place(dest), src, scratch, Dead(Live(old(ra.taken))));
      }
    }

    /** Neither slot is a near register. */
    method CopyThrough(dest: Slot, src: Slot) returns (ghost code: seq<Word>, ghost scratch: iset<nat>)
      requires ra.Valid() && 3 !in ra.regtemps && 5 !in ra.regtemps && |consts| <= MAX_CONSTANTS
      requires Good(dest, Live(ra.taken)) && Good(src, Live(ra.taken)) && Writable(dest)
      modifies this, ra
      ensures ra.Valid() && ra.regtemps == old(ra.regtemps) && Kept(old(ra.taken), ra.taken)
      ensures |consts| <= MAX_CONSTANTS && Added(code)
      ensures forall r: nat :: r in scratch ==> r !in Live(old(ra.taken))
      ensures !failed ==> Transfers(consts, code, Place(dest), src, scratch)
    {
      var nearreg := ra.Temp(3);
      ghost var load := MoveNear(nearreg, src, Live(old(ra.taken)));
      ghost var before := consts;
      ghost var store;
      GoodMore(dest, old(ra.taken), ra.taken);
      store, scratch := MoveBack(dest, nearreg);
      code := load + store;
      if !failed {
        TransferMore(before, consts, load, Reg(nearreg), src, iset{});
        TransferThrough(consts, load, store, src, nearreg, Place(dest), iset{}, scratch);
      }
      scratch := iset{} + scratch + iset{nearreg};
      ra.FreeTemp(nearreg, 3);
    }

    /** The register of a register slot, or a new register that the slot has been loaded into: a near
        one when there is one, else a far one. */
    method RegFar(s: Slot, tag: nat, ghost live: iset<nat>)
      returns (reg: nat, ghost code: seq<Word>, ghost scratch: iset<nat>)
      requires ra.Valid() && tag < 8 && tag !in ra.regtemps && |consts| <= MAX_CONSTANTS && Good(s, live)
      modifies this, ra
      ensures ra.Valid() && |consts| <= MAX_CONSTANTS && Added(code) && ra.regtemps == old(ra.regtemps)
      ensures s.envindex < 0 && s.index >= 0 ==> reg == s.index && code == [] && scratch == iset{} && unchanged(ra)
      ensures !(s.envindex < 0 && s.index >= 0) ==>
                && reg !in old(ra.taken) && Borrowed(old(ra.taken), ra.taken, reg, tag)
                && (reg < NEAR <==> exists r: nat :: r < NEAR && r !in old(ra.taken))
      ensures reg != RESERVED + tag ==> forall r: nat :: r in scratch ==> r == RESERVED + tag
      ensures !failed ==> reg < 0x1_0000 && Transfers(consts, code, Reg(reg), s, scratch)
    {
      scratch := iset{};
      if s.envindex < 0 && s.index >= 0 {
        TransferNothing(consts, s);
        return s.index, [], scratch;
      }
      var nearreg := ra.Temp(tag);
      code := MoveNear(nearreg, s, live);
      if nearreg >= 0xF0 {
        ghost var load := code;
        reg := AllocFar();
        ghost var w := EmitMoveFar(reg, nearreg);
        code, scratch := load + [w], iset{nearreg};
        if !failed {
          TransferThrough(consts, load, [w], s, nearreg, Reg(reg), iset{}, iset{});
          TransferScratch(consts, code, Reg(reg), s, iset{} + iset{} + iset{nearreg}, scratch);
        }
        ra.FreeTemp(nearreg, tag);
      } else {
        reg := nearreg;
        ra.FreeTemp(nearreg, tag);
        ra.Touch(reg);
      }
    }

    /** The operands gathered so far sit in their registers. */
    ghost predicate Holding(g: Gathered, t0: iset<nat>)
      reads this, ra
    {
      && ra.Valid() && |consts| <= MAX_CONSTANTS && Held(g, t0, ra.taken)
      && ra.regtemps == Tags(g.slots)
      && (!failed ==> Gathers(consts, g.pre, g.regs, g.slots, Live(t0)))
    }

    /** The next operand of an operation, as a near register. */
    method Operand(s: Slot, tag: nat, ghost g: Gathered, ghost t0: iset<nat>)
      returns (reg: nat, ghost code: seq<Word>, ghost g': Gathered)
      requires Holding(g, t0) && tag == |g.regs| < 3 && Good(s, Live(t0))
      modifies this, ra
      ensures Holding(g', t0) && reg < 0x100
      ensures g' == Gathered(g.pre + code, g.regs + [reg], g.slots + [s]) && Added(code)
    {
      ghost var before, taken := consts, ra.taken;
      reg, code := RegNear(s, tag, Live(t0));
      g' := Gathered(g.pre + code, g.regs + [reg], g.slots + [s]);
      HeldMore(g, g', t0, taken, ra.taken, s, reg);
      if !failed {
        GatherMore(before, g.pre, g.regs, g.slots, Live(t0), consts, code, reg, s, iset{});
      }
    }

    /** The end of an operation: its result goes back into the first slot, whose register is released. */
    method Finish(s: Slot, reg: nat, wr: bool, tag: nat, ghost t0: iset<nat>)
      returns (ghost code: seq<Word>, ghost scratch: iset<nat>)
      requires ra.Valid() && 5 !in ra.regtemps && |consts| <= MAX_CONSTANTS && tag != 5
      requires t0 <= ra.taken && Good(s, Live(t0)) && (wr ==> Writable(s))
      requires reg < 0x100 && reg in ra.taken && reg != RESERVED + 5
      requires if NearRegister(s) then reg == s.index else (reg in t0 <==> Reserved(reg))
      requires forall r: nat :: r in ra.taken && r !in t0 && (NearRegister(s) || r != reg) ==> r >= NEAR
      modifies this, ra
      ensures ra.Valid() && |consts| <= MAX_CONSTANTS && Added(code) && Kept(t0, ra.taken)
      ensures ra.regtemps == if NearRegister(s) then old(ra.regtemps) else old(ra.regtemps) - {tag}
      ensures forall r: nat :: r in scratch ==> r !in Live(t0)
      ensures !wr ==> code == []
      ensures wr && !failed ==> Transfers(consts, code, Place(s), Register(reg), scratch)
    {
      code, scratch := [], iset{};
      GoodMore(s, t0, ra.taken);
      if wr {
        code, scratch := MoveBack(s, reg);
      }
      FreeRegNear(s, reg, tag);
    }

    /** An operation on three slots. */
    method EmitSSS(op: Opcode, s1: Slot, s2: Slot, s3: Slot, wr: bool) returns (at: nat, ghost regs: seq<nat>)
      requires ra.Valid() && ra.regtemps == {} && |consts| <= MAX_CONSTANTS && (wr ==> Writable(s1))
      requires Good(s1, Live(ra.taken)) && Good(s2, Live(ra.taken)) && Good(s3, Live(ra.taken))
      modifies this, ra
      ensures ra.Valid() && ra.regtemps == {} && Kept(old(ra.taken), ra.taken)
      ensures |consts| <= MAX_CONSTANTS && old(buffer) <= buffer && old(consts) <= consts && (old(failed) ==> failed)
      ensures |old(buffer)| <= at < |buffer| && |regs| == 3
      ensures !failed ==> Operates(consts, buffer[|old(buffer)|..], at - |old(buffer)|, op, SSS, regs, 0, wr,
              [s1, s2, s3],
                                   Live(old(ra.taken)))
    {
      ghost var t0, b0, g, w, post, scratch := ra.taken, buffer, Gathered([], [], []), NOOP, [], iset{};
      var reg1, reg2, reg3;
      reg1, reg2, reg3, g := Operands3(s1, s2, s3);
      regs := g.regs;
      ghost var gathered := consts;
      at := |buffer|;
      w := EmitOperation3(op, reg1, reg2, reg3);
      post, scratch := Conclude3(g, reg1, reg2, reg3, s1, s2, s3, wr, t0);
      assert buffer == b0 + (g.pre + [w] + post);
      assert buffer[|b0|..] == g.pre + [w] + post;
      if !failed {
        OperateFrom(gathered, consts, g, w, post, op, SSS, 0, wr, Live(t0), scratch);
      }
    }

    method Operands3(s1: Slot, s2: Slot, s3: Slot) returns (reg1: nat, reg2: nat, reg3: nat, ghost g: Gathered)
      requires ra.Valid() && ra.regtemps == {} && |consts| <= MAX_CONSTANTS
      requires Good(s1, Live(ra.taken)) && Good(s2, Live(ra.taken)) && Good(s3, Live(ra.taken))
      modifies this, ra
      ensures Holding(g, old(ra.taken)) && Added(g.pre)
      ensures g.slots == [s1, s2, s3] && g.regs == [reg1, reg2, reg3] && reg1 < 0x100 && reg2 < 0x100 && reg3 < 0x100
    {
      ghost var t0, code := ra.taken, [];
      reg1, reg2, g := Operands2(s1, s2);
      reg3, code, g := Operand(s3, 2, g, t0);
    }

    /** Releases the second and third operand, and stores the result. */
    method Conclude3(ghost g: Gathered, reg1: nat, reg2: nat, reg3: nat, s1: Slot, s2: Slot, s3: Slot, wr: bool,
                     ghost t0: iset<nat>)
      returns (ghost code: seq<Word>, ghost scratch: iset<nat>)
      requires Holding(g, t0) && g.slots == [s1, s2, s3] && g.regs == [reg1, reg2, reg3] && (wr ==> Writable(s1))
      requires reg1 < 0x100 && reg2 < 0x100 && reg3 < 0x100
      modifies this, ra
      ensures ra.Valid() && |consts| <= MAX_CONSTANTS && Added(code) && Kept(t0, ra.taken) && ra.regtemps == {}
      ensures forall r: nat :: r in scratch ==> r !in Live(t0)
      ensures if wr then !failed ==> Transfers(consts, code, Place(s1), Register(reg1), scratch) else code == []
    {
      Released3(g, t0, ra.taken);
      Release2(g, reg2, reg3, s2, s3, t0);
      code, scratch := Finish(s1, reg1, wr, 0, t0);
    }

    method Release2(ghost g: Gathered, reg2: nat, reg3: nat, s2: Slot, s3: Slot, ghost t0: iset<nat>)
      requires ra.Valid() && Held(g, t0, ra.taken) && |g.slots| == 3 && reg2 < 0x100 && reg3 < 0x100
      requires g.slots[1..] == [s2, s3] && g.regs[1..] == [reg2, reg3] && ra.regtemps == Tags(g.slots)
      modifies ra
      ensures ra.Valid() && ra.taken == Without(Without(old(ra.taken), s2, reg2), s3, reg3)
      ensures ra.regtemps == if NearRegister(g.slots[0]) then {} else {0}
    {
      assert g.slots[1] == s2 && g.slots[2] == s3 && g.regs[1] == reg2 && g.regs[2] == reg3;
      Released3(g, t0, ra.taken);
      FreeRegNear(s2, reg2, 1);
      FreeRegNear(s3, reg3, 2);
    }

    method EmitOperation3(op: Opcode, reg1: nat, reg2: nat, reg3: nat) returns (ghost w: Word)
      requires reg1 < 0x100 && reg2 < 0x100 && reg3 < 0x100
      modifies this`buffer
      ensures buffer == old(buffer) + [w] && Names(w, op, SSS, [reg1, reg2, reg3], 0)
    {
      Emit(WordABC(op, reg1, reg2, reg3));
      w := WordABC(op, reg1, reg2, reg3);
      DecodeABC(op, reg1, reg2, reg3);
    }

    /** An operation on two slots with an immediate byte. */
    method EmitSSI(op: Opcode, s1: Slot, s2: Slot, immediate: int, wr: bool) returns (at: nat, ghost regs: seq<nat>)
      requires ra.Valid() && ra.regtemps == {} && |consts| <= MAX_CONSTANTS && (wr ==> Writable(s1))
      requires Good(s1, Live(ra.taken)) && Good(s2, Live(ra.taken))
      modifies this, ra
      ensures ra.Valid() && ra.regtemps == {} && Kept(old(ra.taken), ra.taken)
      ensures |consts| <= MAX_CONSTANTS && old(buffer) <= buffer && old(consts) <= consts && (old(failed) ==> failed)
      ensures |old(buffer)| <= at < |buffer| && |regs| == 2
      ensures !failed ==> Operates(consts, buffer[|old(buffer)|..], at - |old(buffer)|, op, SSI, regs,
              immediate % 0x100, wr,
                                   [s1, s2], Live(old(ra.taken)))
    {
      ghost var t0, b0, g, w, post, scratch := ra.taken, buffer, Gathered([], [], []), NOOP, [], iset{};
      var reg1, reg2;
      reg1, reg2, g := Operands2(s1, s2);
      regs := g.regs;
      ghost var gathered := consts;
      at := |buffer|;
      w := EmitOperation2(op, reg1, reg2, immediate);
      post, scratch := Conclude2(g, reg1, reg2, s1, s2, wr, t0);
      assert buffer == b0 + (g.pre + [w] + post);
      assert buffer[|b0|..] == g.pre + [w] + post;
      if !failed {
        OperateFrom(gathered, consts, g, w, post, op, SSI, immediate % 0x100, wr, Live(t0), scratch);
      }
    }

    method Operands2(s1: Slot, s2: Slot) returns (reg1: nat, reg2: nat, ghost g: Gathered)
      requires ra.Valid() && ra.regtemps == {} && |consts| <= MAX_CONSTANTS
      requires Good(s1, Live(ra.taken)) && Good(s2, Live(ra.taken))
      modifies this, ra
      ensures Holding(g, old(ra.taken)) && Added(g.pre)
      ensures g.slots == [s1, s2] && g.regs == [reg1, reg2] && reg1 < 0x100 && reg2 < 0x100
    {
      ghost var t0, code := ra.taken, [];
      g := Gathered([], [], []);
      GatherNone(consts, Live(t0));
      reg1, code, g := Operand(s1, 0, g, t0);
      reg2, code, g := Operand(s2, 1, g, t0);
    }

    method Conclude2(ghost g: Gathered, reg1: nat, reg2: nat, s1: Slot, s2: Slot, wr: bool, ghost t0: iset<nat>)
      returns (ghost code: seq<Word>, ghost scratch: iset<nat>)
      requires Holding(g, t0) && g.slots == [s1, s2] && g.regs == [reg1, reg2] && (wr ==> Writable(s1))
      requires reg1 < 0x100 && reg2 < 0x100
      modifies this, ra
      ensures ra.Valid() && |consts| <= MAX_CONSTANTS && Added(code) && Kept(t0, ra.taken) && ra.regtemps == {}
      ensures forall r: nat :: r in scratch ==> r !in Live(t0)
      ensures if wr then !failed ==> Transfers(consts, code, Place(s1), Register(reg1), scratch) else code == []
    {
      Released2(g, t0, ra.taken);
      FreeRegNear(s2, reg2, 1);
      code, scratch := Finish(s1, reg1, wr, 0, t0);
    }

    method EmitOperation2(op: Opcode, reg1: nat, reg2: nat, immediate: int) returns (ghost w: Word)
      requires reg1 < 0x100 && reg2 < 0x100
      modifies this`buffer
      ensures buffer == old(buffer) + [w] && Names(w, op, SSI, [reg1, reg2], immediate % 0x100)
    {
      Emit(WordABC(op, reg1, reg2, immediate % 0x100));
      w := WordABC(op, reg1, reg2, immediate % 0x100);
      DecodeABC(op, reg1, reg2, immediate % 0x100);
    }

    /** An operation on two slots, the second of which may be far. */
    method EmitSS(op: Opcode, s1: Slot, s2: Slot, wr: bool) returns (at: nat, ghost regs: seq<nat>)
      requires ra.Valid() && ra.regtemps == {} && |consts| <= MAX_CONSTANTS && (wr ==> Writable(s1))
      requires Good(s1, Live(ra.taken)) && Good(s2, Live(ra.taken))
      modifies this, ra
      ensures ra.Valid() && ra.regtemps == {} && Kept(old(ra.taken), ra.taken)
      ensures |consts| <= MAX_CONSTANTS && old(buffer) <= buffer && old(consts) <= consts && (old(failed) ==> failed)
      ensures |old(buffer)| <= at < |buffer| && |regs| == 2
      ensures !failed ==> Operates(consts, buffer[|old(buffer)|..], at - |old(buffer)|, op, SS, regs, 0, wr, [s1, s2],
                                   Live(old(ra.taken)))
    {
      ghost var t0, b0, g, w, post, scratch := ra.taken, buffer, Gathered([], [], []), NOOP, [], iset{};
      var reg1, reg2;
      reg1, reg2, g := OperandsFar(s1, s2);
      regs := g.regs;
      ghost var gathered := consts;
      at := |buffer|;
      w := EmitOperationFar(op, reg1, reg2);
      post, scratch := ConcludeFar(g, reg1, reg2, s1, s2, wr, t0);
      assert buffer == b0 + (g.pre + [w] + post);
      assert buffer[|b0|..] == g.pre + [w] + post;
      if !failed {
        OperateFrom(gathered, consts, g, w, post, op, SS, 0, wr, Live(t0), scratch);
      }
    }

    /** As Holding for two operands, the second of which may sit in a far register. */
    ghost predicate HoldingFar(g: Gathered, t0: iset<nat>)
      reads this, ra
    {
      && ra.Valid() && |consts| <= MAX_CONSTANTS && |g.slots| == 2 && |g.regs| == 2 && t0 <= ra.taken
      && ra.regtemps == Tags(g.slots[..1])
      && HeldOne(g.slots[0], g.regs[0], 0, t0, ra.taken) && g.regs[1] in ra.taken && Good(g.slots[1], Live(t0))
      && (if g.slots[1].envindex < 0 && g.slots[1].index >= 0 then g.regs[1] == g.slots[1].index
          else g.regs[1] !in t0 && g.regs[1] != g.regs[0])
      && (forall r: nat :: r in ra.taken && r !in t0 ==> r in g.regs || r >= NEAR)
      && (forall r: nat :: Reserved(r) ==> r in t0)
      && (!failed ==> g.regs[1] < 0x1_0000 && Gathers(consts, g.pre, g.regs, g.slots, Live(t0)))
    }

    method OperandsFar(s1: Slot, s2: Slot) returns (reg1: nat, reg2: nat, ghost g: Gathered)
      requires ra.Valid() && ra.regtemps == {} && |consts| <= MAX_CONSTANTS
      requires Good(s1, Live(ra.taken)) && Good(s2, Live(ra.taken))
      modifies this, ra
      ensures HoldingFar(g, old(ra.taken)) && Added(g.pre)
      ensures g.slots == [s1, s2] && g.regs == [reg1, reg2] && reg1 < 0x100
    {
      ghost var t0, code := ra.taken, [];
      g := Gathered([], [], []);
      GatherNone(consts, Live(t0));
      reg1, code, g := Operand(s1, 0, g, t0);
      reg2, code, g := OperandFar(s2, g, t0);
    }

    method OperandFar(s: Slot, ghost g: Gathered, ghost t0: iset<nat>)
      returns (reg: nat, ghost code: seq<Word>, ghost g': Gathered)
      requires Holding(g, t0) && |g.regs| == 1 && Good(s, Live(t0))
      modifies this, ra
      ensures HoldingFar(g', t0) && g' == Gathered(g.pre + code, g.regs + [reg], g.slots + [s]) && Added(code)
    {
      ghost var before, scratch := consts, iset{};
      reg, code, scratch := RegFar(s, 1, Live(t0));
      g' := Gathered(g.pre + code, g.regs + [reg], g.slots + [s]);
      assert Reserved(RESERVED + 1);
      assert g'.slots[..1] == g.slots;
      if !failed {
        GatherMore(before, g.pre, g.regs, g.slots, Live(t0), consts, code, reg, s, scratch);
      }
    }

    method ConcludeFar(ghost g: Gathered, reg1: nat, reg2: nat, s1: Slot, s2: Slot, wr: bool, ghost t0: iset<nat>)
      returns (ghost code: seq<Word>, ghost scratch: iset<nat>)
      requires HoldingFar(g, t0) && g.slots == [s1, s2] && g.regs == [reg1, reg2] && (wr ==> Writable(s1))
      requires reg1 < 0x100
      modifies this, ra
      ensures ra.Valid() && |consts| <= MAX_CONSTANTS && Added(code) && Kept(t0, ra.taken) && ra.regtemps == {}
      ensures forall r: nat :: r in scratch ==> r !in Live(t0)
      ensures if wr then !failed ==> Transfers(consts, code, Place(s1), Register(reg1), scratch) else code == []
    {
      assert g.slots[..1] == [s1];
      FreeRegNear(s2, reg2, 1);
      code, scratch := Finish(s1, reg1, wr, 0, t0);
    }

    method EmitOperationFar(op: Opcode, reg1: nat, reg2: nat) returns (ghost w: Word)
      requires reg1 < 0x100
      modifies this`buffer
      ensures buffer == old(buffer) + [w] && (reg2 < 0x1_0000 ==> Names(w, op, SS, [reg1, reg2], 0))
    {
      Emit(WordAE(op, reg1, reg2));
      w := WordAE(op, reg1, reg2);
      DecodeAE(op, reg1, reg2);
    }

    /** An operation on one slot, which may be far. It does what it should exactly when it does not have
        to store into a reference while every near register is taken. */
    method EmitS(op: Opcode, s: Slot, wr: bool) returns (at: nat, ghost regs: seq<nat>)
      requires ra.Valid() && ra.regtemps == {} && |consts| <= MAX_CONSTANTS && (wr ==> Writable(s))
      requires Good(s, Live(ra.taken))
      modifies this, ra
      ensures ra.Valid() && ra.regtemps == {} && Kept(old(ra.taken), ra.taken)
      ensures |consts| <= MAX_CONSTANTS && old(buffer) <= buffer && old(consts) <= consts && (old(failed) ==> failed)
      ensures |old(buffer)| <= at < |buffer| && |regs| == 1
      ensures !failed ==> (Operates(consts, buffer[|old(buffer)|..], at - |old(buffer)|, op, S, regs, 0, wr, [s],
              Live(old(ra.taken)))
                           <==> !(wr && s.isRef && NearFull(old(ra.taken))))
    {
      ghost var t0, b0, g, w, post, scratch := ra.taken, buffer, Gathered([], [], []), NOOP, [], iset{};
      var reg;
      reg, g := OperandAlone(s);
      regs := g.regs;
      ghost var gathered := consts;
      at := |buffer|;
      w := EmitOperationAlone(op, reg);
      post, scratch := ConcludeAlone(reg, s, wr, t0);
      assert buffer == b0 + (g.pre + [w] + post);
      assert buffer[|b0|..] == g.pre + [w] + post;
      if !failed {
        OperateAlone(gathered, consts, g, w, post, op, reg, s, wr, Live(t0), scratch, wr && s.isRef && NearFull(t0));
      }
    }

    method OperandAlone(s: Slot) returns (reg: nat, ghost g: Gathered)
      requires ra.Valid() && ra.regtemps == {} && |consts| <= MAX_CONSTANTS && Good(s, Live(ra.taken))
      modifies this, ra
      ensures HoldingAlone(s, reg, old(ra.taken)) && Added(g.pre)
      ensures g.slots == [s] && g.regs == [reg]
      ensures !failed ==> reg < 0x1_0000 && Gathers(consts, g.pre, g.regs, g.slots, Live(old(ra.taken)))
    {
      ghost var t0, before, scratch, code := ra.taken, consts, iset{}, [];
      GatherNone(consts, Live(t0));
      reg, code, scratch := RegFar(s, 0, Live(t0));
      g := Gathered([] + code, [] + [reg], [] + [s]);
      assert Reserved(RESERVED);
      if !failed {
        GatherMore(before, [], [], [], Live(t0), consts, code, reg, s, scratch);
      }
    }

    /** The slot is in its own register or in a new one, near when there was one. */
    ghost predicate HoldingAlone(s: Slot, reg: nat, t0: iset<nat>)
      reads this, ra
    {
      && ra.Valid() && |consts| <= MAX_CONSTANTS && ra.regtemps == {} && t0 <= ra.taken && reg in ra.taken
      && Good(s, Live(t0)) && (forall r: nat :: Reserved(r) ==> r in t0)
      && (if s.envindex < 0 && s.index >= 0 then reg == s.index
          else reg !in t0 && (reg >= NEAR <==> NearFull(t0)))
      && (forall r: nat :: r in ra.taken && r !in t0 ==> r == reg || r >= NEAR)
    }

    method ConcludeAlone(reg: nat, s: Slot, wr: bool, ghost t0: iset<nat>)
      returns (ghost code: seq<Word>, ghost scratch: iset<nat>)
      requires HoldingAlone(s, reg, t0) && (wr ==> Writable(s)) && (!failed ==> reg < 0x1_0000)
      modifies this, ra
      ensures ra.Valid() && |consts| <= MAX_CONSTANTS && Added(code) && Kept(t0, ra.taken) && ra.regtemps == {}
      ensures forall r: nat :: r in scratch ==> r !in Live(t0)
      ensures !wr ==> code == []
      ensures wr && !failed && !(s.isRef && NearFull(t0)) ==> Transfers(consts, code, Place(s), Register(reg), scratch)
      ensures wr && !failed && s.isRef && NearFull(t0) ==> Misses(consts, code, Place(s))
    {
      code, scratch := [], iset{};
      GoodMore(s, t0, ra.taken);
      assert Reserved(RESERVED + 5);
      if wr {
        code, scratch := MoveBack(s, reg);
      }
      FreeRegNear(s, reg, 0);
    }

    method EmitOperationAlone(op: Opcode, reg: nat) returns (ghost w: Word)
      modifies this`buffer
      ensures buffer == old(buffer) + [w] && (reg < 0x100_0000 ==> Names(w, op, S, [reg], 0))
    {
      Emit(WordD(op, reg));
      w := WordD(op, reg);
      DecodeD(op, reg);
    }
  }

  /** Code that loads some slots into some registers. */
  datatype Gathered = Gathered(pre: seq<Word>, regs: seq<nat>, slots: seq<Slot>)

  /** The temporaries that the slots need. */
  function Tags(slots: seq<Slot>): set<nat> {
    set j | 0 <= j < |slots| && !NearRegister(slots[j])
  }

  /** Each slot is in its own register or in a temporary of its own; nothing else below 256 is held. */
  ghost predicate Held(g: Gathered, t0: iset<nat>, taken: iset<nat>) {
    && |g.regs| == |g.slots| && t0 <= taken
    && (forall r: nat :: Reserved(r) ==> r in t0)
    && (forall j :: 0 <= j < |g.regs| ==> HeldOne(g.slots[j], g.regs[j], j, t0, taken))
    && (forall i, j :: 0 <= i < j < |g.regs| && g.regs[i] == g.regs[j] ==>
         NearRegister(g.slots[i]) && NearRegister(g.slots[j]))
    && (forall r: nat :: r in taken && r !in t0 ==> r in g.regs || r >= NEAR)
  }

  ghost predicate HeldOne(s: Slot, reg: nat, tag: nat, t0: iset<nat>, taken: iset<nat>) {
    && reg in taken && Good(s, Live(t0))
    && if NearRegister(s) then reg == s.index
       else (reg < RESERVED && reg !in t0) || (reg == RESERVED + tag && reg in t0)
  }

  lemma HeldMore(g: Gathered, g': Gathered, t0: iset<nat>, taken: iset<nat>, taken': iset<nat>, s: Slot, reg: nat)
    requires Held(g, t0, taken) && Good(s, Live(t0)) && |g.regs| < 3
    requires g'.regs == g.regs + [reg] && g'.slots == g.slots + [s]
    requires if NearRegister(s) then reg == s.index && taken' == taken
             else Borrowed(taken, taken', reg, |g.regs|) && (reg < RESERVED || reg == RESERVED + |g.regs|)
    ensures Held(g', t0, taken') && Tags(g'.slots) == Tags(g.slots) + if NearRegister(s) then {} else {|g.regs|}
    ensures reg in Live(t0) || reg in g.regs ==> NearRegister(s)
  {
    assert NearRegister(s) ==> !Reserved(s.index);
    assert Reserved(RESERVED + |g.regs|);
    assert forall j :: 0 <= j < |g.slots| ==> g'.slots[j] == g.slots[j];
  }

  ghost function Without(taken: iset<nat>, s: Slot, reg: nat): iset<nat> {
    if NearRegister(s) || reg >= RESERVED then taken else taken - iset{reg}
  }

  /** What is left when the second and third operand have been released. */
  lemma Released3(g: Gathered, t0: iset<nat>, taken: iset<nat>)
    requires Held(g, t0, taken) && |g.regs| == 3
    ensures g.regs[2] in Without(taken, g.slots[1], g.regs[1])
    ensures var left := Without(Without(taken, g.slots[1], g.regs[1]), g.slots[2], g.regs[2]);
            t0 <= left && g.regs[0] in left && HeldOne(g.slots[0], g.regs[0], 0, t0, left)
            && forall r: nat :: r in left && r !in t0 && (NearRegister(g.slots[0]) || r != g.regs[0]) ==> r >= NEAR
  {
  }

  lemma Released2(g: Gathered, t0: iset<nat>, taken: iset<nat>)
    requires Held(g, t0, taken) && |g.regs| == 2
    ensures var left := Without(taken, g.slots[1], g.regs[1]);
            t0 <= left && g.regs[0] in left && HeldOne(g.slots[0], g.regs[0], 0, t0, left)
            && forall r: nat :: r in left && r !in t0 && (NearRegister(g.slots[0]) || r != g.regs[0]) ==> r >= NEAR
  {
  }

  ghost predicate NearFull(taken: iset<nat>) {
    forall r: nat :: r < NEAR ==> r in taken
  }

  /** Code that never stores the result into the cell does not perform the operation. */
  lemma MissedStore(constants: seq<Value>, pre: seq<Word>, post: seq<Word>, op: Opcode, reg: nat, s: Slot,
                    live: iset<nat>)
    requires s.isRef && Gathers(constants, pre, [reg], [s], live) && Misses(constants, post, Place(s))
    ensures !Performs(constants, pre, post, op, [reg], 0, true, [s], live)
  {
    var rest := Rest(a => Integer(1), (a, l) => None);
    var st: Store := l => Nil;
    var loaded := Shifts(constants, pre, st);
    assert loaded(Place(s)) == Nil;
    assert Actual(constants, pre, post, op, [reg], 0, true, rest, st, Place(s)) == Nil;
  }

  /** An operation on one slot is performed exactly when its result can be stored. */
  lemma OperateAlone(before: seq<Value>, constants: seq<Value>, g: Gathered, w: Word, post: seq<Word>, op: Opcode,
                     reg: nat,
                     s: Slot, wr: bool, live: iset<nat>, scratch: iset<nat>, missed: bool)
    requires g.regs == [reg] && g.slots == [s] && (wr ==> Writable(s)) && before <= constants
    requires Names(w, op, S, g.regs, 0)
    requires Gathers(before, g.pre, g.regs, g.slots, live) && Good(s, live)
    requires missed ==> wr && s.isRef && Misses(constants, post, Place(s))
    requires !missed && wr ==> Transfers(constants, post, Place(s), Register(reg), scratch)
    requires !wr ==> post == []
    requires forall r: nat :: r in scratch ==> r !in live
    requires wr && reg in live ==> Place(s) == Reg(reg)
    ensures Operates(constants, g.pre + [w] + post, |g.pre|, op, S, g.regs, 0, wr, g.slots, live) <==> !missed
  {
    if missed {
      var code := g.pre + [w] + post;
      assert code[..|g.pre|] == g.pre && code[|g.pre| + 1..] == post;
      GatherLater(before, constants, g.pre, g.regs, g.slots, live);
      MissedStore(constants, g.pre, post, op, reg, s, live);
    } else {
      OperateFrom(before, constants, g, w, post, op, S, 0, wr, live, scratch);
    }
  }

  datatype Layout = S | SS | SSI | SSS

  /** The instruction is this operation on these registers with this immediate. */
  predicate Names(w: Word, op: Opcode, layout: Layout, regs: seq<nat>, immediate: nat) {
    var i := Decode(w);
    && i.op == op
    && match layout
       case S => regs == [i.d] && immediate == 0
       case SS => regs == [i.a, i.e] && immediate == 0
       case SSI => regs == [i.a, i.b] && immediate == i.c
       case SSS => regs == [i.a, i.b, i.c] && immediate == 0
  }

  /** The code does the operation at the given index on the contents of the slots, for every store and
      whatever the operation does. */
  ghost predicate Operates(constants: seq<Value>, code: seq<Word>, at: int, op: Opcode, layout: Layout, regs: seq<nat>,
                           immediate: nat, wr: bool, slots: seq<Slot>, live: iset<nat>)
    requires |regs| == |slots| > 0 && (wr ==> Writable(slots[0]))
  {
    && 0 <= at < |code| && Names(code[at], op, layout, regs, immediate)
    && Performs(constants, code[..at], code[at + 1..], op, regs, immediate, wr, slots, live)
  }

  lemma OperateFrom(before: seq<Value>, constants: seq<Value>, g: Gathered, w: Word, post: seq<Word>, op: Opcode,
                    layout: Layout, immediate: nat, wr: bool, live: iset<nat>, scratch: iset<nat>)
    requires |g.regs| == |g.slots| > 0 && (wr ==> Writable(g.slots[0])) && before <= constants
    requires Names(w, op, layout, g.regs, immediate)
    requires Gathers(before, g.pre, g.regs, g.slots, live) && Good(g.slots[0], live)
    requires if wr then Transfers(constants, post, Place(g.slots[0]), Register(g.regs[0]), scratch) else post == []
    requires forall r: nat :: r in scratch ==> r !in live
    requires wr && g.regs[0] in live ==> Place(g.slots[0]) == Reg(g.regs[0])
    ensures Operates(constants, g.pre + [w] + post, |g.pre|, op, layout, g.regs, immediate, wr, g.slots, live)
  {
    var code := g.pre + [w] + post;
    assert code[..|g.pre|] == g.pre && code[|g.pre|] == w && code[|g.pre| + 1..] == post;
    GatherLater(before, constants, g.pre, g.regs, g.slots, live);
    PerformFrom(constants, g.pre, post, op, g.regs, immediate, wr, g.slots, live, scratch);
  }

  lemma GatherNone(constants: seq<Value>, live: iset<nat>)
    ensures Gathers(constants, [], [], [], live)
  {
  }

  lemma GatherLater(constants: seq<Value>, more: seq<Value>, code: seq<Word>, regs: seq<nat>, slots: seq<Slot>,
                    live: iset<nat>)
    requires Gathers(constants, code, regs, slots, live) && constants <= more
    ensures Gathers(more, code, regs, slots, live)
  {
  }

  ghost function Dead(live: iset<nat>): iset<nat> {
    iset r: nat | r !in live
  }

  lemma GoodMore(s: Slot, before: iset<nat>, after: iset<nat>)
    requires Good(s, Live(before)) && before <= after
    ensures Good(s, Live(after))
  {
  }

  lemma TransferScratch(constants: seq<Value>, code: seq<Word>, dest: Location, src: Slot, scratch: iset<nat>,
                        more: iset<nat>)
    requires Transfers(constants, code, dest, src, scratch) && scratch <= more
    ensures Transfers(constants, code, dest, src, more)
  {
  }

  /** The code does not write a location. */
  ghost predicate Misses(constants: seq<Value>, code: seq<Word>, l: Location) {
    forall k: seq<Value>, st: Store {:trigger Shifts(k, code, st)} :: constants <= k ==> Shifts(k, code, st)(l) == st(l)
  }

  /** A far register makes the store go to another index of the array. */
  lemma FarMisses(constants: seq<Value>, load: seq<Word>, ref: nat, s: Slot, src: nat)
    requires ref < 0x100 && s.isRef && 0x100 <= src < 0x1_0000
    requires Transfers(constants, load, Reg(ref), Literal(s.constant), iset{})
    ensures Misses(constants, load + [WordAE(PutIndex, ref, src)], Place(s))
  {
    var w := WordAE(PutIndex, ref, src);
    forall k: seq<Value>, st: Store | constants <= k
      ensures Shifts(k, load + [w], st)(Place(s)) == st(Place(s))
    {
      var st1 := Shifts(k, load, st);
      assert st1(Place(s)) == st(Place(s));
      var l, v := ShiftSpilled(k, ref, src, st1);
      ShiftsThen(k, load, w, st, l, v);
    }
  }

  lemma ShiftSpilled(k: seq<Value>, ref: nat, src: nat, st: Store) returns (l: Location, v: Value)
    requires ref < 0x100 && 0x100 <= src < 0x1_0000
    ensures Shift(k, Decode(WordAE(PutIndex, ref, src)), st) == Assign(st, l, v) && l.Cell? && l.at > 0
  {
    SpilledIndex(ref, src);
    var i := Decode(WordAE(PutIndex, ref, src));
    l, v := Cell(st(Reg(i.a)), i.c), st(Reg(i.b));
  }

  lemma SpilledIndex(ref: nat, src: nat)
    requires ref < 0x100 && 0x100 <= src < 0x1_0000
    ensures Decode(WordAE(PutIndex, ref, src)).op == PutIndex && Decode(WordAE(PutIndex, ref, src)).c > 0
  {
    assert WordAE(PutIndex, ref, src) == WordABC(PutIndex, ref, src % 0x100, src / 0x100);
    DecodeABC(PutIndex, ref, src % 0x100, src / 0x100);
  }

  lemma SameContent(constants: seq<Value>, code: seq<Word>, dest: Location, src: Slot, src': Slot, scratch: iset<nat>)
    requires forall st: Store {:trigger Content(st, src)} :: Content(st, src) == Content(st, src')
    requires Transfers(constants, code, dest, src, scratch)
    ensures Transfers(constants, code, dest, src', scratch)
  {
  }
}
