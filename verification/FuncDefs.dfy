/** Function definitions as the compiler holds them, with the passes that check and rewrite them
    in place. */
module FuncDefs {
  import opened Options
  import opened Regalloc
  import opened Bytecode
  import opened Verifier
  import opened NoopRemoval
  import opened MovOpt

  /** Instructions that are not noops. */
  ghost function Kept(code: seq<Word>): nat {
    PcMap(code, |code|)
  }

  lemma {:induction false} KeptPrefix(code: seq<Word>, code': seq<Word>, n: nat)
    requires n <= |code| <= |code'| && code[..n] == code'[..n]
    ensures PcMap(code', n) == PcMap(code, n)
  {
    if n > 0 {
      assert code[..n - 1] == code[..n][..n - 1] == code'[..n - 1];
      assert code[n - 1] == code[..n][n - 1] == code'[n - 1];
      KeptPrefix(code, code', n - 1);
    }
  }

  lemma {:induction false} KeptDrops(code: seq<Word>, k: nat, n: nat)
    requires k < n <= |code| && Number(code[k]) != 0
    ensures PcMap(code[k := NOOP], n) == PcMap(code, n) - 1
  {
    if n == k + 1 {
      assert code[k := NOOP][..k] == code[..k];
      KeptPrefix(code, code[k := NOOP], k);
    } else {
      KeptDrops(code, k, n - 1);
    }
  }

  /** Progress of compaction in place: i entries done, j of them kept; the rest is untouched. */
  ghost predicate Placed<T>(code: seq<Word>, now: seq<T>, was: seq<T>, xs: seq<T>, i: nat, j: nat)
    requires i <= |code| == |xs|
  {
    && |now| == |was| == |code|
    && j == PcMap(code, i)
    && now[..j] == Keep(code, xs, i)
    && now[i..] == was[i..]
  }

  lemma PlaceSkip<T>(code: seq<Word>, now: seq<T>, was: seq<T>, xs: seq<T>, i: nat, j: nat)
    requires i < |code| == |xs| && Placed(code, now, was, xs, i, j) && Number(code[i]) == 0
    ensures Placed(code, now, was, xs, i + 1, j)
  {
    assert now[i + 1..] == now[i..][1..] == was[i + 1..];
  }

  lemma PlaceKeep<T>(code: seq<Word>, now: seq<T>, was: seq<T>, xs: seq<T>, i: nat, j: nat)
    requires i < |code| == |xs| && Placed(code, now, was, xs, i, j) && Number(code[i]) != 0
    ensures now[i] == was[i] && Placed(code, now[j := xs[i]], was, xs, i + 1, j + 1)
  {
    assert now[i] == now[i..][0] == was[i];
    var next := now[j := xs[i]];
    assert next[..j + 1] == now[..j] + [xs[i]];
    assert next[i + 1..] == now[i..][1..] == was[i + 1..];
  }

  class FuncDef {
    var bytecode: seq<Word>
    var symbolmap: seq<Symbol>
    var sourcemap: Option<seq<(int, int)>>
    const frame: Frame
    const arity: int
    const vararg: bool

    function Value(): Def
      reads this
    {
      Def(bytecode, frame, arity, vararg, symbolmap, sourcemap)
    }

    constructor (def: Def)
      ensures Value() == def
    {
      bytecode, symbolmap, sourcemap := def.code, def.symbols, def.sourcemap;
      frame, arity, vararg := def.frame, def.arity, def.vararg;
    }

    ghost predicate AllKnown()
      reads this
    {
      forall k :: 0 <= k < |bytecode| ==> !Decode(bytecode[k]).op.Unknown?
    }

    /** The fault of the first instruction that has one. */
    method FirstInstructionFault() returns (fault: nat)
      ensures fault == 0 <==> forall k :: 0 <= k < |bytecode| ==> FaultAt(Value(), k) == 0
      ensures fault != 0 ==> 3 <= fault <= 8 && FirstFault(Value(), fault)
    {
      for i := 0 to |bytecode|
        invariant forall k :: 0 <= k < i ==> FaultAt(Value(), k) == 0
      {
        fault := InstructionFault(frame, |bytecode|, i, Decode(bytecode[i]));
        if fault != 0 {
          assert FaultAt(Value(), i) == fault;
          return;
        }
      }
      fault := 0;
    }

    /** The fault of the last symbol that has one. */
    method FirstSymbolFault() returns (fault: nat)
      ensures fault == 0 <==> forall k :: 0 <= k < |symbolmap| ==> SymbolFault(Value(), symbolmap[k]) == 0
      ensures fault != 0 ==> 10 <= fault <= 14 && LastSymbolFault(Value(), fault)
    {
      for i := |symbolmap| downto 0
        invariant forall k :: i <= k < |symbolmap| ==> SymbolFault(Value(), symbolmap[k]) == 0
      {
        fault := SymbolFault(Value(), symbolmap[i]);
        if fault != 0 {
          return;
        }
      }
      fault := 0;
    }

    /** Zero accepts; any other code reports the first thing found wrong. */
    method Verify() returns (code: nat)
      ensures code == 0 <==> Verified(Value())
      ensures code != 0 ==> Reported(Value(), code)
      ensures code == 15 <==> frame.environments > 256
      ensures code == 1 <==> frame.environments <= 256 && |Value().code| == 0
      ensures var params := arity + if vararg then 1 else 0;
              code == 2 <==> frame.environments <= 256 && |Value().code| > 0 && params > frame.slotcount
    {
      var maxslot := arity + if vararg then 1 else 0;
      if frame.environments > 256 { return 15; }
      if |bytecode| == 0 { return 1; }
      if maxslot > frame.slotcount { return 2; }
      code := FirstInstructionFault();
      if code != 0 { return; }
      if bytecode[|bytecode| - 1] % 0x100 !in LAST_OPCODES { return 9; }
      code := FirstSymbolFault();
    }

    // Dead writes

    static method TouchAll(ra: RegisterAllocator, slots: seq<nat>)
      requires ra.Valid()
      modifies ra`chunks, ra`taken
      ensures ra.Valid()
      ensures forall r: nat :: r in ra.taken <==> r in slots || r in old(ra.taken)
    {
      for k := 0 to |slots|
        invariant ra.Valid()
        invariant forall r: nat :: r in ra.taken <==> r in slots[..k] || r in old(ra.taken)
      {
        ra.Touch(slots[k]);
      }
    }

    /** Marks the slots an instruction uses; an opcode without a case is a fatal error. */
    static method TouchReads(ra: RegisterAllocator, i: Instruction)
      requires ra.Valid() && !i.op.Unknown?
      modifies ra`chunks, ra`taken
      ensures ra.Valid()
      ensures forall r: nat :: r in ra.taken <==> r in Touched(i) || r in old(ra.taken)
    {
      var slots: seq<nat> := [];
      match i.op {
        case Jump | Noop | ReturnNil | LoadInteger | LoadConstant | LoadUpvalue | Closure
             | LoadNil | LoadTrue | LoadFalse | LoadSelf =>
        case MakeArray | MakeBuffer | MakeString | MakeStruct | MakeTable | MakeTuple | MakeBracketTuple =>
          slots := [i.d];
        case ErrorOp | Typecheck | JumpIf | JumpIfNot | JumpIfNil | JumpIfNotNil | SetUpvalue | MoveFar =>
          slots := [i.a];
        case Signal | AddImmediate | SubtractImmediate | MultiplyImmediate | DivideImmediate
             | ShiftLeftImmediate | ShiftRightImmediate | ShiftRightUnsignedImmediate
             | GreaterThanImmediate | LessThanImmediate | EqualsImmediate | NotEqualsImmediate | GetIndex =>
          slots := [i.b];
        case Return | Push | PushArray | Tailcall =>
          slots := [i.d];
        case MoveNear | Length | Bnot | Call =>
          slots := [i.e];
        case PutIndex =>
          slots := [i.a, i.b];
        case Push2 =>
          slots := [i.a, i.e];
        case Propagate | Band | Bor | Bxor | Add | Subtract | Multiply | Divide | DivideFloor | Modulo
             | Remainder | ShiftLeft | ShiftRight | ShiftRightUnsigned | GreaterThan | LessThan | Equals
             | Compare | In | Get | GreaterThanEqual | LessThanEqual | NotEquals | Cancel | Resume | Next =>
          slots := [i.b, i.c];
        case Put | Push3 =>
          slots := [i.a, i.b, i.c];
      }
      assert forall r :: r in slots <==> r in Touched(i);
      TouchAll(ra, slots);
    }

    /** Marks every slot that matters. */
    method Analyse() returns (ra: RegisterAllocator)
      requires Value().WellFormed() && AllKnown()
      ensures fresh(ra) && ra.Valid()
      ensures forall r: nat :: r in ra.taken <==> Live(frame, DecodeAll(bytecode), r)
    {
      ra := new RegisterAllocator();
      ghost var code := DecodeAll(bytecode);
      if frame.closureBits.Some? {
        for i := 0 to frame.slotcount
          invariant ra.Valid()
          invariant forall r: nat :: r in ra.taken <==> Reserved(r) || (r < i && frame.CapturedSlot(r))
        {
          if frame.closureBits.value[i / 32][i % 32] {
            ra.Touch(i);
          }
        }
      }
      for i := 0 to |bytecode|
        invariant ra.Valid()
        invariant forall r: nat :: r in ra.taken <==>
          Reserved(r) || frame.CapturedSlot(r) || TouchedBelow(code, i, r)
      {
        TouchReads(ra, Decode(bytecode[i]));
        assert forall r: nat :: TouchedBelow(code, i + 1, r) <==> TouchedBelow(code, i, r) || r in Touched(code[i]);
      }
    }
  
    /** Turns every dead instruction into a noop; recur says whether there was one. */
    method Prune(ra: RegisterAllocator) returns (recur: bool)
      requires ra.Valid()
      requires forall r: nat :: r in ra.taken <==> Live(frame, DecodeAll(bytecode), r)
      modifies this`bytecode, ra`chunks
      ensures |bytecode| == |old(bytecode)|
      ensures forall k :: 0 <= k < |bytecode| ==>
        bytecode[k] == if Dead(frame, DecodeAll(old(bytecode)), Decode(old(bytecode)[k])) then NOOP
          else old(bytecode)[k]
      ensures if recur then Kept(bytecode) < Kept(old(bytecode))
              else bytecode == old(bytecode) && Settled(frame, DecodeAll(bytecode))
    {
      ghost var code := DecodeAll(bytecode);
      recur := false;
      for i := 0 to |bytecode|
        invariant |bytecode| == |old(bytecode)| && ra.Valid()
        invariant forall r: nat :: r in ra.taken <==> Live(frame, code, r)
        invariant forall k :: 0 <= k < i ==>
                  bytecode[k] == if Dead(frame, code, Decode(old(bytecode)[k])) then NOOP else old(bytecode)[k]
        invariant forall k :: i <= k < |bytecode| ==> bytecode[k] == old(bytecode)[k]
        invariant if recur then Kept(bytecode) < Kept(old(bytecode))
                  else bytecode == old(bytecode) && forall k :: 0 <= k < i ==> !Dead(frame, code, code[k])
      {
        var instr := bytecode[i];
        var target := Deletable(Decode(instr));
        if target.Some? {
          var used := ra.Check(target.value);
          if !used {
            DecodeNoop(instr);
            KeptDrops(bytecode, i, |bytecode|);
            bytecode := bytecode[i := NOOP];
            recur := true;
          }
        }
      }
      if !recur {
        SettledExactly(frame, code);
      }
    }

    /** Deletes dead loads and moves until there are none left. */
    method MovOpt()
      requires Value().WellFormed() && AllKnown()
      modifies this`bytecode
      ensures PrunedDef(old(Value()), Value()) && Settled(frame, DecodeAll(bytecode))
    {
      var recur := true;
      while recur
        invariant Value() == old(Value()).(code := bytecode) && |bytecode| == |old(bytecode)|
        invariant Pruned(frame, DecodeAll(old(bytecode)), DecodeAll(bytecode))
        invariant forall k :: 0 <= k < |bytecode| ==> bytecode[k] == old(bytecode)[k] || bytecode[k] == NOOP
        invariant !recur ==> Settled(frame, DecodeAll(bytecode))
        invariant AllKnown()
        decreases recur, Kept(bytecode)
      {
        var ra := Analyse();
        ghost var before := bytecode;
        DecodeNoop(NOOP);
        recur := Prune(ra);
        PrunedRound(frame, DecodeAll(old(bytecode)), DecodeAll(before), DecodeAll(bytecode));
      }
    }

    // Compaction

    /** The new index of every instruction. */
    method MapPcs() returns (pcMap: array<nat>)
      ensures fresh(pcMap) && pcMap[..] == PcMaps(bytecode)
    {
      ghost var pcs := PcMaps(bytecode);
      pcMap := new nat[|bytecode| + 1];
      var newLength := 0;
      for i := 0 to |bytecode|
        invariant newLength == pcs[i] && pcMap[..i] == pcs[..i]
      {
        pcMap[i] := newLength;
        assert PcMap(bytecode, i + 1) == pcs[i] + if Number(bytecode[i]) == 0 then 0 else 1;
        if Number(bytecode[i]) != 0 {
          newLength := newLength + 1;
        }
      }
      pcMap[|bytecode|] := newLength;
    }

    /** Instruction i of code, to be placed at j, with its jump re-encoded. */
    static method Retarget(instr: Word, i: nat, j: nat, pcMap: array<nat>, ghost code: seq<Word>) returns (w: Word)
      requires Targets(code) && i < |code| && instr == code[i]
      requires pcMap[..] == PcMaps(code) && j == PcMap(code, i)
      ensures w == Rewritten(code)[i]
    {
      w := instr;
      var op := Decode(instr).op;
      if op.Jump? || ConditionalJump(op) {
        var oldTarget := Target(i, Decode(instr));
        var newTarget := pcMap[..][oldTarget];
        w := Redirect(instr, op, newTarget - oldTarget + (i - j));
      }
    }

    /** The source positions beside the code, compacted along with it. */
    ghost predicate MappingPlaced(code: seq<Word>, mapping: Option<seq<(int, int)>>, i: nat, j: nat)
      requires i <= |code| && (mapping.Some? ==> |mapping.value| == |code|)
      reads this
    {
      && sourcemap.Some? == mapping.Some?
      && (sourcemap.Some? ==> Placed(code, sourcemap.value, mapping.value, mapping.value, i, j))
    }

    /** Moves instruction i, which is kept, down to j. */
    method KeepInstruction(i: nat, j: nat, pcMap: array<nat>, ghost code: seq<Word>)
      requires Targets(code) && i < |code| && pcMap[..] == PcMaps(code) && Number(code[i]) != 0
      requires Placed(code, bytecode, code, Rewritten(code), i, j)
      modifies this`bytecode
      ensures Placed(code, bytecode, code, Rewritten(code), i + 1, j + 1)
    {
      PlaceKeep(code, bytecode, code, Rewritten(code), i, j);
      var instr := Retarget(bytecode[i], i, j, pcMap, code);
      bytecode := bytecode[j := instr];
    }

    method KeepMapping(i: nat, j: nat, ghost code: seq<Word>, ghost mapping: Option<seq<(int, int)>>)
      requires i < |code| && (mapping.Some? ==> |mapping.value| == |code|) && Number(code[i]) != 0
      requires MappingPlaced(code, mapping, i, j)
      modifies this`sourcemap
      ensures MappingPlaced(code, mapping, i + 1, j + 1)
    {
      if sourcemap.Some? {
        PlaceKeep(code, sourcemap.value, mapping.value, mapping.value, i, j);
        sourcemap := Some(sourcemap.value[j := sourcemap.value[i]]);
      }
    }

    lemma SkipMapping(i: nat, j: nat, code: seq<Word>, mapping: Option<seq<(int, int)>>)
      requires i < |code| && (mapping.Some? ==> |mapping.value| == |code|) && Number(code[i]) == 0
      requires MappingPlaced(code, mapping, i, j)
      ensures MappingPlaced(code, mapping, i + 1, j)
    {
      if sourcemap.Some? {
        PlaceSkip(code, sourcemap.value, mapping.value, mapping.value, i, j);
      }
    }

    /** Moves the kept instructions and their source positions down in place. */
    method CompactCode(pcMap: array<nat>) returns (j: nat)
      requires Compactable(Value()) && pcMap[..] == PcMaps(bytecode)
      modifies this`bytecode, this`sourcemap
      ensures j <= |bytecode| && bytecode[..j] == Compact(old(bytecode))
      ensures sourcemap.Some? == old(sourcemap).Some?
      ensures sourcemap.Some? ==>
                && j <= |sourcemap.value|
                && sourcemap.value[..j] == Keep(old(bytecode), old(sourcemap).value, |old(bytecode)|)
    {
      ghost var code, mapping := bytecode, sourcemap;
      j := 0;
      for i := 0 to |bytecode|
        invariant Placed(code, bytecode, code, Rewritten(code), i, j)
        invariant MappingPlaced(code, mapping, i, j)
      {
        assert bytecode[i] == bytecode[i..][0] == code[i];
        if Number(bytecode[i]) != 0 {
          KeepInstruction(i, j, pcMap, code);
          KeepMapping(i, j, code, mapping);
          j := j + 1;
        } else {
          PlaceSkip(code, bytecode, code, Rewritten(code), i, j);
          SkipMapping(i, j, code, mapping);
        }
      }
    }

    /** Moves the live range of every symbol that is not an upvalue. */
    method MapSymbols(pcMap: array<nat>, ghost code: seq<Word>)
      requires pcMap[..] == PcMaps(code)
      requires forall s <- symbolmap :: s.birth < UPVALUE ==> s.birth <= |code| && s.death <= |code|
      modifies this`symbolmap
      ensures |symbolmap| == |old(symbolmap)|
      ensures forall k :: 0 <= k < |symbolmap| ==>
        old(symbolmap)[k] in old(symbolmap) && symbolmap[k] == MapSymbol(code, old(symbolmap)[k])
    {
      for i := 0 to |symbolmap|
        invariant |symbolmap| == |old(symbolmap)|
        invariant forall k :: 0 <= k < i ==>
          old(symbolmap)[k] in old(symbolmap) && symbolmap[k] == MapSymbol(code, old(symbolmap)[k])
        invariant forall k :: i <= k < |symbolmap| ==> symbolmap[k] == old(symbolmap)[k]
      {
        var sm := symbolmap[i];
        assert sm in old(symbolmap);
        if sm.birth < UPVALUE {
          var birth, death := pcMap[..][sm.birth], pcMap[..][sm.death];
          symbolmap := symbolmap[i := sm.(birth := birth, death := death)];
        }
      }
    }

    /** Drops the noops. */
    method RemoveNoops()
      requires Compactable(Value())
      modifies this
      ensures Value() == WithoutNoops(old(Value()))
    {
      ghost var before := Value();
      var pcMap := MapPcs();
      var newLength := CompactCode(pcMap);
      MapSymbols(pcMap, before.code);
      assert symbolmap == WithoutNoops(before).symbols;
      bytecode := bytecode[..newLength];
      if sourcemap.Some? {
        sourcemap := Some(sourcemap.value[..newLength]);
      }
    }
  }
}
