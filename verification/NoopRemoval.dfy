/** Compaction of code: dropping noops while re-encoding jumps and debugging information. */
module NoopRemoval {
  import opened Options
  import opened Bytecode
  import opened Verifier

  const WORD_SIZE := 0x1_0000_0000

  /** The new index of instruction k: the number of instructions kept before it. */
  function PcMap(code: seq<Word>, k: nat): (j: nat)
    requires k <= |code|
    ensures j <= k
  {
    if k == 0 then 0 else PcMap(code, k - 1) + if Number(code[k - 1]) == 0 then 0 else 1
  }

  lemma {:induction false} PcMapMonotone(code: seq<Word>, i: nat, k: nat)
    requires i <= k <= |code|
    ensures PcMap(code, i) <= PcMap(code, k) <= PcMap(code, i) + (k - i)
  {
    if i < k {
      PcMapMonotone(code, i, k - 1);
    }
  }

  lemma KeptOrder(code: seq<Word>, i: nat, k: nat)
    requires i < |code| && Number(code[i]) != 0 && k <= |code|
    ensures k <= i <==> PcMap(code, k) <= PcMap(code, i)
  {
    if k <= i {
      PcMapMonotone(code, k, i);
    } else {
      assert PcMap(code, i + 1) == PcMap(code, i) + 1;
      PcMapMonotone(code, i + 1, k);
    }
  }

  /** What a jump distance becomes; it never grows, so it fits the field it came from. */
  lemma NewDistance(code: seq<Word>, i: nat, target: nat)
    requires i <= |code| && target <= |code|
    ensures var old_, new_ := target - i, PcMap(code, target) - PcMap(code, i);
            if old_ >= 0 then 0 <= new_ <= old_ else old_ <= new_ <= 0
  {
    if i <= target {
      PcMapMonotone(code, i, target);
    } else {
      PcMapMonotone(code, target, i);
    }
  }

  // Jump fields

  /** instr += (uint32_t) delta << shift, in 32-bit arithmetic. */
  function AddShifted(w: Word, delta: int, scale: nat): Word {
    (w + ((delta % WORD_SIZE) * scale) % WORD_SIZE) % WORD_SIZE
  }

  lemma AddShifted8(w: Word, delta: int)
    requires -0x80_0000 <= DS(w) + delta < 0x80_0000
    ensures AddShifted(w, delta, 0x100) % 0x100 == w % 0x100
    ensures DS(AddShifted(w, delta, 0x100)) == DS(w) + delta
  {
  }

  lemma AddShifted16(w: Word, delta: int)
    requires -0x8000 <= ES(w) + delta < 0x8000
    ensures AddShifted(w, delta, 0x1_0000) % 0x1_0000 == w % 0x1_0000
    ensures ES(AddShifted(w, delta, 0x1_0000)) == ES(w) + delta
  {
  }

  lemma LowNumber(w: Word)
    ensures Number(w) == (w % 0x100) % 0x80
  {
  }

  lemma LowBytes(w: Word)
    ensures w % 0x100 == (w % 0x1_0000) % 0x100
    ensures A(w) == (w % 0x1_0000) / 0x100
  {
    var low, high := w % 0x1_0000, w / 0x1_0000;
    assert w == low % 0x100 + 0x100 * (low / 0x100 + 0x100 * high);
    assert w / 0x100 == low / 0x100 + 0x100 * high;
  }

  lemma LowFields(w: Word)
    ensures Number(w) == (w % 0x100) % 0x80
    ensures A(w) == (w % 0x1_0000) / 0x100
    ensures w % 0x100 == (w % 0x1_0000) % 0x100
  {
    LowNumber(w);
    LowBytes(w);
  }

  /** A word whose jump offset, if it has one, is moved by delta. */
  function Redirect(w: Word, op: Opcode, delta: int): Word {
    if op.Jump? then AddShifted(w, delta, 0x100)
    else if ConditionalJump(op) then AddShifted(w, delta, 0x1_0000)
    else w
  }

  /** i' does the work of i, with its jump offset moved by delta. */
  ghost predicate Redirected(i: Instruction, i': Instruction, delta: int) {
    && i'.op == i.op && i'.a <= i'.d
    && (i.op.Jump? ==> i'.ds == i.ds + delta)
    && (ConditionalJump(i.op) ==> i'.a == i.a && i'.es == i.es + delta)
    && (!i.op.Jump? && !ConditionalJump(i.op) ==> i' == i)
  }

  lemma RedirectMeaning(w: Word, delta: int)
    requires Decode(w).op.Jump? ==> -0x80_0000 <= DS(w) + delta < 0x80_0000
    requires ConditionalJump(Decode(w).op) ==> -0x8000 <= ES(w) + delta < 0x8000
    ensures Redirect(w, Decode(w).op, delta) % 0x100 == w % 0x100
    ensures Redirected(Decode(w), Decode(Redirect(w, Decode(w).op, delta)), delta)
  {
    var w' := Redirect(w, Decode(w).op, delta);
    LowFields(w);
    LowFields(w');
    FieldsNest(w');
    if Decode(w).op.Jump? {
      AddShifted8(w, delta);
    } else if ConditionalJump(Decode(w).op) {
      AddShifted16(w, delta);
    }
  }

  /** Every jump stays inside the code. */
  ghost predicate Targets(code: seq<Word>) {
    forall k :: 0 <= k < |code| ==> 0 <= Target(k, Decode(code[k])) < |code|
  }

  /** How far the offset of instruction k moves. */
  function Delta(code: seq<Word>, k: nat): int
    requires k < |code| && Targets(code)
  {
    var target := Target(k, Decode(code[k]));
    PcMap(code, target) - target + (k - PcMap(code, k))
  }

  /** Instruction k with its jump offset re-encoded for its new place. */
  function Rewrite(code: seq<Word>, k: nat): Word
    requires k < |code| && Targets(code)
  {
    Redirect(code[k], Decode(code[k]).op, Delta(code, k))
  }

  lemma SignedFields(w: Word)
    ensures -0x80_0000 <= Decode(w).ds < 0x80_0000 && -0x8000 <= Decode(w).es < 0x8000
  {
  }

  /** The rewritten instruction does the same work, and a jump in it leads to the new index of
      the old target. */
  lemma RewriteMeaning(code: seq<Word>, k: nat)
    requires k < |code| && Targets(code)
    ensures Rewrite(code, k) % 0x100 == code[k] % 0x100
    ensures Redirected(Decode(code[k]), Decode(Rewrite(code, k)), Delta(code, k))
  {
    SignedFields(code[k]);
    NewDistance(code, k, Target(k, Decode(code[k])));
    RedirectMeaning(code[k], Delta(code, k));
  }

  lemma RewriteLowByte(code: seq<Word>, k: nat)
    requires k < |code| && Targets(code)
    ensures Rewrite(code, k) % 0x100 == code[k] % 0x100
  {
    RewriteMeaning(code, k);
  }

  // The compacted definition

  /** Of the first n entries of xs, those beside kept instructions. */
  ghost function Keep<T>(code: seq<Word>, xs: seq<T>, n: nat): (r: seq<T>)
    requires n <= |code| == |xs|
    ensures |r| == PcMap(code, n)
  {
    if n == 0 then []
    else if Number(code[n - 1]) == 0 then Keep(code, xs, n - 1)
    else Keep(code, xs, n - 1) + [xs[n - 1]]
  }

  /** The entry beside kept instruction k lands at PcMap(k). */
  lemma {:induction false} KeepAt<T>(code: seq<Word>, xs: seq<T>, n: nat, k: nat)
    requires k < n <= |code| == |xs| && Number(code[k]) != 0
    ensures PcMap(code, k) < PcMap(code, n)
    ensures Keep(code, xs, n)[PcMap(code, k)] == xs[k]
  {
    if k < n - 1 {
      KeepAt(code, xs, n - 1, k);
    }
  }

  ghost function Rewritten(code: seq<Word>): (r: seq<Word>)
    requires Targets(code)
    ensures |r| == |code|
  {
    seq(|code|, k requires 0 <= k < |code| => Rewrite(code, k))
  }

  ghost function Compact(code: seq<Word>): (r: seq<Word>)
    requires Targets(code)
    ensures |r| == PcMap(code, |code|)
  {
    Keep(code, Rewritten(code), |code|)
  }

  lemma CompactAt(code: seq<Word>, k: nat)
    requires k < |code| && Targets(code) && Number(code[k]) != 0
    ensures PcMap(code, k) < PcMap(code, |code|)
    ensures Compact(code)[PcMap(code, k)] == Rewrite(code, k)
  {
    KeepAt(code, Rewritten(code), |code|, k);
  }

  /** Every new index comes from a kept instruction. */
  lemma {:induction false} CompactSource(code: seq<Word>, n: nat, j: nat) returns (k: nat)
    requires n <= |code| && j < PcMap(code, n)
    ensures k < n && Number(code[k]) != 0 && PcMap(code, k) == j
  {
    if PcMap(code, n - 1) <= j {
      k := n - 1;
    } else {
      k := CompactSource(code, n - 1, j);
    }
  }

  /** Symbol ranges that point into the code. */
  ghost predicate SymbolsBounded(def: Def) {
    forall s <- def.symbols :: s.birth < UPVALUE ==> s.birth <= |def.code| && s.death <= |def.code|
  }

  function MapSymbol(code: seq<Word>, s: Symbol): Symbol
    requires s.birth < UPVALUE ==> s.birth <= |code| && s.death <= |code|
  {
    if s.birth < UPVALUE then s.(birth := PcMap(code, s.birth), death := PcMap(code, s.death)) else s
  }

  ghost predicate Compactable(def: Def) {
    def.WellFormed() && Targets(def.code) && SymbolsBounded(def)
  }

  /** The definition without its noops. */
  ghost function WithoutNoops(def: Def): Def
    requires Compactable(def)
  {
    def.(code := Compact(def.code),
         symbols := seq(|def.symbols|, k requires 0 <= k < |def.symbols| =>
           assert def.symbols[k] in def.symbols; MapSymbol(def.code, def.symbols[k])),
         sourcemap := match def.sourcemap
                      case None => None
                      case Some(m) => Some(Keep(def.code, m, |def.code|)))
  }

  // Debugging information

  /** A symbol is live at a kept instruction exactly when it was before. */
  lemma LiveRangeKept(code: seq<Word>, k: nat, s: Symbol)
    requires k < |code| && Number(code[k]) != 0
    requires s.birth < UPVALUE && s.birth <= |code| && s.death <= |code|
    ensures s.birth <= k < s.death
       <==> MapSymbol(code, s).birth <= PcMap(code, k) < MapSymbol(code, s).death
  {
    KeptOrder(code, k, s.birth);
    KeptOrder(code, k, s.death);
  }

  // Acceptance

  lemma LastIsKept(def: Def)
    requires Verified(def)
    ensures Number(def.code[|def.code| - 1]) != 0
    ensures forall k :: 0 <= k < |def.code| ==> PcMap(def.code, k) < PcMap(def.code, |def.code|)
  {
    var last := |def.code| - 1;
    LowFields(def.code[last]);
    forall k | 0 <= k < |def.code|
      ensures PcMap(def.code, k) < PcMap(def.code, |def.code|)
    {
      PcMapMonotone(def.code, k, last);
    }
  }

  lemma RedirectedFaultFree(frame: Frame, length: nat, length': nat, at: nat, at': nat,
                            i: Instruction, i': Instruction, delta: int)
    requires InstructionFault(frame, length, at, i) == 0 && Redirected(i, i', delta)
    requires 0 <= Target(at, i) - at + at' + delta < length'
    ensures InstructionFault(frame, length', at', i') == 0
  {
  }

  lemma RewriteFaultFree(def: Def, def': Def, k: nat)
    requires Verified(def) && Targets(def.code) && def'.frame == def.frame
    requires def'.code == Compact(def.code)
    requires k < |def.code| && Number(def.code[k]) != 0
    ensures PcMap(def.code, k) < |def'.code| && FaultAt(def', PcMap(def.code, k)) == 0
  {
    CompactAt(def.code, k);
    assert FaultAt(def, k) == 0;
    RewriteMeaning(def.code, k);
    LastIsKept(def);
    RedirectedFaultFree(def.frame, |def.code|, |def'.code|, k, PcMap(def.code, k),
                        Decode(def.code[k]), Decode(Rewrite(def.code, k)), Delta(def.code, k));
  }

  lemma MapSymbolFaultFree(def: Def, def': Def, s: Symbol)
    requires def'.frame == def.frame && |def'.code| == PcMap(def.code, |def.code|)
    requires s.birth < UPVALUE ==> s.birth <= |def.code| && s.death <= |def.code|
    requires forall k :: 0 <= k < |def.code| ==> PcMap(def.code, k) < |def'.code|
    requires SymbolFault(def, s) == 0
    ensures SymbolFault(def', MapSymbol(def.code, s)) == 0
  {
    if s.birth < UPVALUE {
      PcMapMonotone(def.code, s.death, |def.code|);
    }
  }

  lemma LastKept(def: Def, def': Def)
    requires Verified(def) && Targets(def.code) && def'.code == Compact(def.code)
    ensures |def'.code| > 0 && GoodLast(def')
  {
    LastIsKept(def);
    CompactEnd(def.code);
    RewriteLowByte(def.code, |def.code| - 1);
  }

  lemma CompactEnd(code: seq<Word>)
    requires |code| > 0 && Targets(code) && Number(code[|code| - 1]) != 0
    ensures var out := Compact(code); |out| > 0 && out[|out| - 1] == Rewrite(code, |code| - 1)
  {
    var last := |code| - 1;
    CompactAt(code, last);
    assert PcMap(code, |code|) == PcMap(code, last) + 1;
  }

  /** Compaction of accepted code is accepted. */
  lemma WithoutNoopsVerified(def: Def)
    requires Verified(def) && Compactable(def)
    ensures Verified(WithoutNoops(def))
  {
    var def' := WithoutNoops(def);
    LastIsKept(def);
    LastKept(def, def');
    forall j | 0 <= j < |def'.code|
      ensures FaultAt(def', j) == 0
    {
      var k := CompactSource(def.code, |def.code|, j);
      RewriteFaultFree(def, def', k);
    }
    forall k | 0 <= k < |def'.symbols|
      ensures SymbolFault(def', def'.symbols[k]) == 0
    {
      assert def.symbols[k] in def.symbols;
      MapSymbolFaultFree(def, def', def.symbols[k]);
    }
  }

  // The same, for instructions taken apart

  /** code' is code without its noops: pcs maps old to new indices, and kept instructions are
      redirected from their old targets to the new ones. */
  ghost predicate Compacted(code: seq<Instruction>, code': seq<Instruction>, pcs: seq<nat>) {
    && |pcs| == |code| + 1 && pcs[0] == 0
    && (forall k :: 0 <= k < |code| ==> pcs[k + 1] == pcs[k] + if code[k].op.Noop? then 0 else 1)
    && (forall k :: 0 <= k < |code| && !code[k].op.Noop? ==> CompactedAt(code, code', pcs, k))
  }

  ghost predicate CompactedAt(code: seq<Instruction>, code': seq<Instruction>, pcs: seq<nat>, k: nat)
    requires |pcs| == |code| + 1 && k < |code|
  {
    var target := Target(k, code[k]);
    && pcs[k] < |code'| && 0 <= target < |code|
    && Redirected(code[k], code'[pcs[k]], pcs[target] - target + (k - pcs[k]))
  }

  ghost function PcMaps(code: seq<Word>): (pcs: seq<nat>)
    ensures |pcs| == |code| + 1
  {
    seq(|code| + 1, k requires 0 <= k <= |code| => PcMap(code, k))
  }

  lemma PcMapsStep(code: seq<Word>, k: nat)
    requires k < |code|
    ensures PcMaps(code)[k + 1] == PcMaps(code)[k] + if DecodeAll(code)[k].op.Noop? then 0 else 1
  {
    DecodeNoop(code[k]);
    assert PcMap(code, k + 1) == PcMap(code, k) + if Number(code[k]) == 0 then 0 else 1;
  }

  lemma CompactDecodesAt(code: seq<Word>, k: nat)
    requires k < |code| && Targets(code) && Number(code[k]) != 0
    ensures CompactedAt(DecodeAll(code), DecodeAll(Compact(code)), PcMaps(code), k)
  {
    CompactAt(code, k);
    RewriteMeaning(code, k);
    var code0, code' := DecodeAll(code), DecodeAll(Compact(code));
    assert code0[k] == Decode(code[k]);
    assert code'[PcMap(code, k)] == Decode(Rewrite(code, k));
  }

  lemma CompactDecodes(code: seq<Word>)
    requires Targets(code)
    ensures Compacted(DecodeAll(code), DecodeAll(Compact(code)), PcMaps(code))
  {
    var code0, code', pcs := DecodeAll(code), DecodeAll(Compact(code)), PcMaps(code);
    forall k | 0 <= k < |code|
      ensures pcs[k + 1] == pcs[k] + if code0[k].op.Noop? then 0 else 1
    {
      PcMapsStep(code, k);
    }
    forall k | 0 <= k < |code| && !code0[k].op.Noop?
      ensures CompactedAt(code0, code', pcs, k)
    {
      DecodeNoop(code[k]);
      CompactDecodesAt(code, k);
    }
  }
}
