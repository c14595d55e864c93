/** When the deletion of unused reads can be noticed. Of the instructions that the dead write pass deletes,
    only index reads and upvalue loads can raise. */
module DeletedReads {
  import opened Options
  import opened Bytecode
  import opened Machine
  import opened Verifier
  import opened NoopRemoval
  import opened NoopSemantics
  import opened MovOpt
  import opened Optimizer
  import opened Runs

  predicate CanRaise(op: Opcode) {
    op.GetIndex? || op.LoadUpvalue?
  }

  /** None of the instructions deleted from def' can raise. */
  ghost predicate HarmlessDeletions(def: Def, def': Def)
    requires |def'.code| == |def.code|
  {
    forall k :: 0 <= k < |def.code| && def'.code[k] != def.code[k] ==> !CanRaise(Decode(def.code[k]).op)
  }

  lemma LoadsDoNotRaise(frame: Frame, world: World, s: State, i: Instruction)
    requires s.Running? && InBounds(frame, i, |s.regs|) && ClassOf(i.op).Load? && !CanRaise(i.op)
    ensures !Execute(frame, world, s, i).Halted?
  {
  }

  lemma HarmlessNeverFaults(def: Def, def': Def, world: World, s: State)
    requires Verified(def) && PrunedDef(def, def') && HarmlessDeletions(def, def') && InCode(|def.code|, def.frame, s)
    ensures !DeletedFault(DecodeAll(def.code), DecodeAll(def'.code), def.frame, world, s)
  {
    var code, code' := DecodeAll(def.code), DecodeAll(def'.code);
    VerifiedSound(def);
    if s.Running? && code'[s.pc] != code[s.pc] {
      assert Erased(def.frame, code', code[s.pc], code'[s.pc]);
      FaultFreeInBounds(def.frame, |code|, s.pc, code[s.pc]);
      LoadsDoNotRaise(def.frame, world, s, code[s.pc]);
    }
  }

  lemma HarmlessRuns(def: Def, def': Def, world: World, s: State, n: nat)
    requires Verified(def) && PrunedDef(def, def') && HarmlessDeletions(def, def') && Entry(def, s)
    ensures NoDeletedFault(def, def', world, s, n)
  {
    var f := Stepper(DecodeAll(def.code), def.frame, world);
    VerifiedSound(def);
    StepperSafe(DecodeAll(def.code), def.frame, world);
    forall k | 0 <= k < n
      ensures !DeletedFault(DecodeAll(def.code), DecodeAll(def'.code), def.frame, world, Iterate(f, s, k))
    {
      Invariant(f, s => InCode(|def.code|, def.frame, s), s, k);
      HarmlessNeverFaults(def, def', world, Iterate(f, s, k));
    }
  }

  /** If no deleted instruction can raise, every state of the original is matched, in every world. */
  lemma HarmlessForward(def: Def, def': Def, world: World, s: State, n: nat) returns (m: nat)
    requires Verified(def) && Compactable(def) && PrunedDef(def, def') && HarmlessDeletions(def, def') && Entry(def, s)
    ensures Compactable(def') && Indistinguishable(Run(def, world, s, n), Run(WithoutNoops(def'), world, s, m))
  {
    HarmlessRuns(def, def', world, s, n);
    m := OptimizedForward(def, def', world, s, n);
  }

  /** And every state of the optimized definition is one of the original. */
  lemma HarmlessBackward(def: Def, def': Def, world: World, s: State, m: nat) returns (n: nat)
    requires Verified(def) && Compactable(def) && PrunedDef(def, def') && HarmlessDeletions(def, def') && Entry(def, s)
    ensures Compactable(def') && Indistinguishable(Run(def, world, s, n), Run(WithoutNoops(def'), world, s, m))
  {
    n := OptimizedBackward(def, def', world, s, m);
    HarmlessRuns(def, def', world, s, n);
  }

  // The converse

  /** What a read asks of the world. */
  datatype Query = IndexOf(x: Value, i: nat, trace: Trace) | UpvalueOf(e: nat, v: nat, trace: Trace)

  function Asks(code: seq<Instruction>, s: State): Option<Query> {
    if !s.Running? || !(0 <= s.pc < |code|) then None
    else
      var i := code[s.pc];
      if i.op.GetIndex? then Some(IndexOf(Read(s.regs, Operands(i))[0], i.c, s.trace))
      else if i.op.LoadUpvalue? then Some(UpvalueOf(i.b, i.c, s.trace))
      else None
  }

  function Answer(world: World, q: Query): Option<Value> {
    match q
    case IndexOf(x, i, trace) => world.index(x, i, trace)
    case UpvalueOf(e, v, trace) => world.upvalue(e, v, trace)
  }

  /** The world in which this one query raises. */
  function Refusing(world: World, q: Query): World {
    match q
    case IndexOf(x, i, trace) =>
      world.(index := (x': Value, i': nat, trace': Trace) =>
               if x' == x && i' == i && trace' == trace then None else world.index(x', i', trace'))
    case UpvalueOf(e, v, trace) =>
      world.(upvalue := (e': nat, v': nat, trace': Trace) =>
               if e' == e && v' == v && trace' == trace then None else world.upvalue(e', v', trace'))
  }

  lemma ReadStep(code: seq<Instruction>, frame: Frame, world: World, s: State, q: Query)
    requires Asks(code, s) == Some(q) && !code[s.pc].op.Unknown? && InBounds(frame, code[s.pc], |s.regs|)
    ensures var t := Step(code, frame, world, s);
            if Answer(world, q).None? then t == Halted(Outcome.Fault, Captured(frame, s.regs), s.trace) else t.Running?
  {
  }

  lemma OtherStep(code: seq<Instruction>, frame: Frame, world: World, s: State, q: Query)
    requires Asks(code, s) != Some(q)
    ensures Step(code, frame, Refusing(world, q), s) == Step(code, frame, world, s)
  {
  }

  /** One of the first n steps asks the query. */
  ghost predicate AskedBefore(def: Def, world: World, s: State, n: nat, q: Query) {
    exists k: nat :: k < n && AsksAt(def, world, s, k, q)
  }

  ghost predicate AsksAt(def: Def, world: World, s: State, k: nat, q: Query) {
    Asks(DecodeAll(def.code), Run(def, world, s, k)) == Some(q)
  }

  /** The first n steps are the same in two worlds. */
  ghost predicate SameUpto(def: Def, world: World, world': World, s: State, n: nat) {
    forall k: nat :: k <= n ==> Run(def, world', s, k) == Run(def, world, s, k)
  }

  lemma RunNext(def: Def, world: World, s: State, n: nat)
    ensures Run(def, world, s, n + 1) == Step(DecodeAll(def.code), def.frame, world, Run(def, world, s, n))
  {
  }

  lemma RefusingSame(def: Def, world: World, s: State, n: nat, q: Query)
    requires !AskedBefore(def, world, s, n, q)
    ensures Run(def, Refusing(world, q), s, n) == Run(def, world, s, n)
  {
    var code := DecodeAll(def.code);
    var f, f' := Stepper(code, def.frame, world), Stepper(code, def.frame, Refusing(world, q));
    forall k: nat | k < n
      ensures f'(Iterate(f, s, k)) == f(Iterate(f, s, k))
    {
      assert !AsksAt(def, world, s, k, q);
      OtherStep(code, def.frame, world, Iterate(f, s, k), q);
    }
    SameRun(f, f', s, n);
  }

  lemma RefusingSameUpto(def: Def, world: World, s: State, n: nat, q: Query)
    requires !AskedBefore(def, world, s, n, q)
    ensures SameUpto(def, world, Refusing(world, q), s, n)
  {
    forall k: nat | k <= n
      ensures Run(def, Refusing(world, q), s, k) == Run(def, world, s, k)
    {
      RefusingSame(def, world, s, k, q);
    }
  }

  lemma RunningBefore(def: Def, world: World, s: State, k: nat, n: nat)
    requires k <= n && Run(def, world, s, n).Running?
    ensures Run(def, world, s, k).Running?
  {
    var f := Stepper(DecodeAll(def.code), def.frame, world);
    if !Run(def, world, s, k).Running? {
      assert Preserved(f, (t: State) => !t.Running?);
      Later(f, (t: State) => !t.Running?, s, k, n);
    }
  }

  lemma ReadRuns(def: Def, world: World, s: State, n: nat, q: Query)
    requires Verified(def) && Entry(def, s) && AsksAt(def, world, s, n, q)
    ensures if Answer(world, q).None?
            then var t := Run(def, world, s, n);
                 Run(def, world, s, n + 1) == Halted(Outcome.Fault, Captured(def.frame, t.regs), t.trace)
            else Run(def, world, s, n + 1).Running?
  {
    var code, t := DecodeAll(def.code), Run(def, world, s, n);
    VerifiedSound(def);
    VerifiedRunsSafely(def, world, s, n);
    FaultFreeInBounds(def.frame, |code|, t.pc, code[t.pc]);
    ReadStep(code, def.frame, world, t, q);
    RunNext(def, world, s, n);
  }

  lemma Answered(def: Def, world: World, s: State, k: nat, n: nat, q: Query)
    requires Verified(def) && Entry(def, s) && k < n && AsksAt(def, world, s, k, q) && Run(def, world, s, n).Running?
    ensures Answer(world, q).Some?
  {
    ReadRuns(def, world, s, k, q);
    RunningBefore(def, world, s, k + 1, n);
  }

  lemma AskedAnswered(def: Def, world: World, world': World, s: State, k: nat, n: nat, q: Query)
    requires Verified(def) && Entry(def, s) && k < n && AsksAt(def, world, s, k, q) && AsksAt(def, world, s, n, q)
    requires SameUpto(def, world, world', s, n)
    ensures Run(def, world', s, n + 1).Running?
  {
    assert AsksAt(def, world', s, k, q) && AsksAt(def, world', s, n, q);
    Answered(def, world', s, k, n, q);
    ReadRuns(def, world', s, n, q);
  }

  lemma RefusedHalts(def: Def, world: World, s: State, n: nat, q: Query)
    requires Verified(def) && Entry(def, s) && AsksAt(def, world, s, n, q) && !AskedBefore(def, world, s, n, q)
    ensures Run(def, Refusing(world, q), s, n + 1).Halted?
  {
    RefusingSame(def, world, s, n, q);
    ReadRuns(def, Refusing(world, q), s, n, q);
  }

  /** A read that step n of a run makes can raise, in a world that has been the same so far, exactly if the
      run has not asked for the same before. */
  lemma ReadRaisesExactly(def: Def, world: World, s: State, n: nat, q: Query)
    requires Verified(def) && Entry(def, s) && AsksAt(def, world, s, n, q)
    ensures (exists world' :: SameUpto(def, world, world', s, n) && Run(def, world', s, n + 1).Halted?)
       <==> !AskedBefore(def, world, s, n, q)
  {
    if AskedBefore(def, world, s, n, q) {
      var k: nat :| k < n && AsksAt(def, world, s, k, q);
      forall world' | SameUpto(def, world, world', s, n)
        ensures !Run(def, world', s, n + 1).Halted?
      {
        AskedAnswered(def, world, world', s, k, n, q);
      }
    } else {
      RefusingSameUpto(def, world, s, n, q);
      RefusedHalts(def, world, s, n, q);
    }
  }

  /** Step n of the original is at an instruction that was deleted from def'. */
  ghost predicate AtDeleted(def: Def, def': Def, world: World, s: State, n: nat)
    requires |def'.code| == |def.code|
  {
    var t := Run(def, world, s, n);
    t.Running? && 0 <= t.pc < |def.code| && DecodeAll(def'.code)[t.pc] != DecodeAll(def.code)[t.pc]
  }

  lemma RunningNoFault(def: Def, def': Def, world: World, s: State, n: nat)
    requires Run(def, world, s, n).Running?
    ensures NoDeletedFault(def, def', world, s, n)
  {
    var code, code' := DecodeAll(def.code), DecodeAll(def'.code);
    var f := Stepper(code, def.frame, world);
    NoneBadYet(f, t => DeletedFault(code, code', def.frame, world, t), (t: State) => !t.Running?, s, n);
  }

  /** If some run reaches a deleted read that it has not made before, there is a world in which the original
      raises there while the optimized definition goes on. */
  lemma DeletionNoticed(def: Def, def': Def, world: World, s: State, n: nat, q: Query) returns (m: nat)
    requires Verified(def) && Compactable(def) && PrunedDef(def, def') && Entry(def, s)
    requires AtDeleted(def, def', world, s, n) && AsksAt(def, world, s, n, q) && !AskedBefore(def, world, s, n, q)
    ensures Compactable(def') && !RunAlike(def, def', Refusing(world, q), s, n + 1)
    ensures var t, world' := Run(def, world, s, n), Refusing(world, q);
            var t' := Run(WithoutNoops(def'), world', s, m);
            && Run(def, world', s, n + 1) == Halted(Outcome.Fault, Captured(def.frame, t.regs), t.trace)
            && t'.Running? && t'.args == t.args && t'.trace == t.trace
  {
    var world' := Refusing(world, q);
    RefusingSame(def, world, s, n, q);
    ReadRuns(def, world', s, n, q);
    RunningNoFault(def, def', world', s, n);
    m := OptimizedForward(def, def', world', s, n);
    DeletedFaults(def, def', world', s, n);
    PrunedLockstep(def, def', world', s, n + 1);
  }

  lemma DeletedFaults(def: Def, def': Def, world: World, s: State, n: nat)
    requires |def'.code| == |def.code| && AtDeleted(def, def', world, s, n) && Run(def, world, s, n + 1).Halted?
    ensures !NoDeletedFault(def, def', world, s, n + 1)
  {
    RunNext(def, world, s, n);
    var f := Stepper(DecodeAll(def.code), def.frame, world);
    assert DeletedFault(DecodeAll(def.code), DecodeAll(def'.code), def.frame, world, Iterate(f, s, n));
  }

  /** No instruction of the code can raise. */
  ghost predicate NeverRaises(code: seq<Instruction>) {
    forall k :: 0 <= k < |code| ==> !CanRaise(code[k].op) && !code[k].op.PushArray?
  }

  lemma NoFaultStep(code: seq<Instruction>, frame: Frame, world: World, s: State)
    requires NeverRaises(code) && !(s.Halted? && s.outcome.Fault?)
    ensures var t := Step(code, frame, world, s); !(t.Halted? && t.outcome.Fault?)
  {
    if s.Running? && 0 <= s.pc < |code| && InBounds(frame, code[s.pc], |s.regs|) {
      NoFaultExecute(frame, world, s, code[s.pc]);
    }
  }

  lemma NoFaultExecute(frame: Frame, world: World, s: State, i: Instruction)
    requires s.Running? && InBounds(frame, i, |s.regs|) && !CanRaise(i.op) && !i.op.PushArray?
    ensures var t := Execute(frame, world, s, i); !(t.Halted? && t.outcome.Fault?)
  {
    if ClassOf(i.op).Load? {
      LoadsDoNotRaise(frame, world, s, i);
    } else if ClassOf(i.op).Pusher? {
      assert Pushed(world, i.op, Read(s.regs, Operands(i)), s.trace).Some?;
    }
  }

  lemma {:induction false} NoFaultRun(def: Def, world: World, s: State, n: nat)
    requires NeverRaises(DecodeAll(def.code)) && s.Running?
    ensures var t := Run(def, world, s, n); !(t.Halted? && t.outcome.Fault?)
  {
    if n > 0 {
      NoFaultRun(def, world, s, n - 1);
      RunNext(def, world, s, n - 1);
      NoFaultStep(DecodeAll(def.code), def.frame, world, Run(def, world, s, n - 1));
    }
  }

  /** When nothing that is left can raise, that is a difference in what the two definitions do: the one
      raises, the other never does. */
  lemma DeletionObserved(def: Def, def': Def, world: World, s: State, n: nat, q: Query, m: nat)
    requires Verified(def) && Compactable(def) && PrunedDef(def, def') && Entry(def, s)
    requires AtDeleted(def, def', world, s, n) && AsksAt(def, world, s, n, q) && !AskedBefore(def, world, s, n, q)
    requires NeverRaises(DecodeAll(def'.code))
    ensures Compactable(def')
    ensures var world' := Refusing(world, q);
            !Indistinguishable(Run(def, world', s, n + 1), Run(WithoutNoops(def'), world', s, m))
  {
    var world' := Refusing(world, q);
    var m' := DeletionNoticed(def, def', world, s, n, q);
    PrunedVerified(def, def');
    var n' := NoopsBackward(def', world', s, m);
    NoFaultRun(def', world', s, n');
  }

  // Both directions together

  /** Whatever the world answers, every state of the original is one of the optimized definition. */
  ghost predicate LooksAlike(def: Def, def': Def)
    requires Compactable(def')
  {
    forall world, s, n: nat :: Entry(def, s) ==> Matched(def, def', world, s, n)
  }

  ghost predicate Matched(def: Def, def': Def, world: World, s: State, n: nat)
    requires Compactable(def')
  {
    exists m: nat :: Indistinguishable(Run(def, world, s, n), Run(WithoutNoops(def'), world, s, m))
  }

  /** Some run reaches a deleted read that it has not made before. */
  ghost predicate ReadsDeleted(def: Def, def': Def)
    requires |def'.code| == |def.code|
  {
    exists world, s, n: nat, q :: NewDeletedRead(def, def', world, s, n, q)
  }

  ghost predicate NewDeletedRead(def: Def, def': Def, world: World, s: State, n: nat, q: Query)
    requires |def'.code| == |def.code|
  {
    Entry(def, s) && AtDeleted(def, def', world, s, n) && AsksAt(def, world, s, n, q)
    && !AskedBefore(def, world, s, n, q)
  }

  /** A deleted instruction that raises is a read. */
  lemma FaultAsks(def: Def, def': Def, world: World, s: State, n: nat) returns (q: Query)
    requires Verified(def) && PrunedDef(def, def') && Entry(def, s)
    requires DeletedFault(DecodeAll(def.code), DecodeAll(def'.code), def.frame, world, Run(def, world, s, n))
    ensures AtDeleted(def, def', world, s, n) && AsksAt(def, world, s, n, q) && Run(def, world, s, n + 1).Halted?
  {
    var code, code', t := DecodeAll(def.code), DecodeAll(def'.code), Run(def, world, s, n);
    VerifiedSound(def);
    VerifiedRunsSafely(def, world, s, n);
    assert Erased(def.frame, code', code[t.pc], code'[t.pc]);
    FaultFreeInBounds(def.frame, |code|, t.pc, code[t.pc]);
    if !CanRaise(code[t.pc].op) {
      LoadsDoNotRaise(def.frame, world, t, code[t.pc]);
    }
    RunNext(def, world, s, n);
    q := Asks(code, t).value;
  }

  lemma NothingNew(def: Def, def': Def, world: World, s: State, n: nat)
    requires Verified(def) && PrunedDef(def, def') && Entry(def, s) && !ReadsDeleted(def, def')
    ensures NoDeletedFault(def, def', world, s, n)
  {
    var f := Stepper(DecodeAll(def.code), def.frame, world);
    forall k | 0 <= k < n
      ensures !DeletedFault(DecodeAll(def.code), DecodeAll(def'.code), def.frame, world, Iterate(f, s, k))
    {
      NothingNewAt(def, def', world, s, k);
    }
  }

  lemma NothingNewAt(def: Def, def': Def, world: World, s: State, k: nat)
    requires Verified(def) && PrunedDef(def, def') && Entry(def, s) && !ReadsDeleted(def, def')
    ensures !DeletedFault(DecodeAll(def.code), DecodeAll(def'.code), def.frame, world, Run(def, world, s, k))
  {
    if DeletedFault(DecodeAll(def.code), DecodeAll(def'.code), def.frame, world, Run(def, world, s, k)) {
      var q := FaultAsks(def, def', world, s, k);
      assert !NewDeletedRead(def, def', world, s, k, q);
      AskedDoesNotHalt(def, world, s, k, q);
    }
  }

  lemma AskedDoesNotHalt(def: Def, world: World, s: State, k: nat, q: Query)
    requires Verified(def) && Entry(def, s) && AsksAt(def, world, s, k, q) && AskedBefore(def, world, s, k, q)
    ensures !Run(def, world, s, k + 1).Halted?
  {
    var j: nat :| j < k && AsksAt(def, world, s, j, q);
    Answered(def, world, s, j, k, q);
    ReadRuns(def, world, s, k, q);
  }

  /** When nothing that is left can raise, the optimized definition looks like the original in every world
      and from every entry exactly if no run reaches a deleted read that it has not made before. */
  lemma DeletionsUnnoticedExactly(def: Def, def': Def)
    requires Verified(def) && Compactable(def) && PrunedDef(def, def') && NeverRaises(DecodeAll(def'.code))
    ensures Compactable(def') && (LooksAlike(def, def') <==> !ReadsDeleted(def, def'))
  {
    PrunedVerified(def, def');
    if world, s, n: nat, q :| NewDeletedRead(def, def', world, s, n, q) {
      NewNotMatched(def, def', world, s, n, q);
    } else {
      forall world, s, n: nat | Entry(def, s)
        ensures Matched(def, def', world, s, n)
      {
        NothingNewMatched(def, def', world, s, n);
      }
    }
  }

  lemma NewNotMatched(def: Def, def': Def, world: World, s: State, n: nat, q: Query)
    requires Verified(def) && Compactable(def) && PrunedDef(def, def') && NeverRaises(DecodeAll(def'.code))
    requires NewDeletedRead(def, def', world, s, n, q) && Compactable(def')
    ensures !Matched(def, def', Refusing(world, q), s, n + 1)
  {
    if Matched(def, def', Refusing(world, q), s, n + 1) {
      var m: nat :|
        Indistinguishable(Run(def, Refusing(world, q), s, n + 1), Run(WithoutNoops(def'), Refusing(world, q), s, m));
      DeletionObserved(def, def', world, s, n, q, m);
    }
  }

  lemma NothingNewMatched(def: Def, def': Def, world: World, s: State, n: nat)
    requires Verified(def) && Compactable(def) && PrunedDef(def, def') && Entry(def, s) && !ReadsDeleted(def, def')
    ensures Compactable(def') && Matched(def, def', world, s, n)
  {
    NothingNew(def, def', world, s, n);
    var m := OptimizedForward(def, def', world, s, n);
  }

  // Reaching a deleted read is not enough

  const GET_INDEX_2_0_0: Word := 0x0000_023D // get-index of slot 0 at 0 into slot 2
  const RETURN_1: Word := 0x0000_0103

  /** A function that reads an element of its argument twice and returns the first result, before and after
      the second read is deleted. */
  function RepeatedRead(deleted: bool): Def {
    var code := [GET_INDEX_1_0_0, if deleted then NOOP else GET_INDEX_2_0_0, RETURN_1];
    Def(code, Frame(3, 0, 0, 0, None), 1, false, [], None)
  }

  lemma RepeatedReadDecodes()
    ensures var i := Decode(GET_INDEX_1_0_0); i.op == GetIndex && i.a == 1 && i.b == 0 && i.c == 0
    ensures var i := Decode(GET_INDEX_2_0_0); i.op == GetIndex && i.a == 2 && i.b == 0 && i.c == 0
    ensures Decode(RETURN_1).op == Return && Decode(RETURN_1).d == 1 && Decode(NOOP).op == Noop
  {
    assert OpcodeOf(61) == GetIndex && OpcodeOf(3) == Return;
    DecodeNoop(NOOP);
  }

  lemma SlotTwoDead(code: seq<Instruction>)
    requires code == [Decode(GET_INDEX_1_0_0), Decode(NOOP), Decode(RETURN_1)]
    ensures !Live(RepeatedRead(false).frame, code, 2)
  {
    RepeatedReadDecodes();
    assert Touched(code[0]) == {0} && Touched(code[1]) == {} && Touched(code[2]) == {1};
  }

  lemma SlotTwoErased(code: seq<Instruction>)
    requires !Live(RepeatedRead(false).frame, code, 2)
    ensures Erased(RepeatedRead(false).frame, code, Decode(GET_INDEX_2_0_0), Decode(NOOP))
  {
    RepeatedReadDecodes();
  }

  lemma RepeatedReadPruned()
    ensures PrunedDef(RepeatedRead(false), RepeatedRead(true))
  {
    var code' := DecodeAll(RepeatedRead(true).code);
    SlotTwoDead(code');
    SlotTwoErased(code');
  }

  /** Where a run of the function can be when its second read has not raised. */
  ghost predicate Answering(world: World, s: State, t: State) {
    t.Running? && s.Running? && |t.regs| == |s.regs| == 3 ==>
      || t == s
      || (t.pc == 1 && t.regs[0] == s.regs[0] && t.trace == s.trace && world.index(s.regs[0], 0, s.trace).Some?)
      || t.pc == 2
  }

  lemma AnsweringStep(world: World, s: State, t: State)
    requires Entry(RepeatedRead(false), s) && Answering(world, s, t) && (t.Running? ==> |t.regs| == 3)
    ensures var code := DecodeAll(RepeatedRead(false).code);
            var t' := Step(code, RepeatedRead(false).frame, world, t);
            Answering(world, s, t') && (t'.Running? ==> |t'.regs| == 3)
  {
    if t.Running? {
      var code := DecodeAll(RepeatedRead(false).code);
      if t.pc == 2 {
        ReturnSteps(RepeatedRead(false).frame, world, t, code[2]);
      } else {
        IndexSteps(RepeatedRead(false).frame, world, t, code[t.pc], t.pc + 1);
      }
    }
  }

  lemma IndexSteps(frame: Frame, world: World, t: State, i: Instruction, dest: nat)
    requires t.Running? && |t.regs| == 3 && 1 <= dest <= 2
    requires i == Decode(if dest == 1 then GET_INDEX_1_0_0 else GET_INDEX_2_0_0)
    ensures !i.op.Unknown? && InBounds(frame, i, |t.regs|)
    ensures Execute(frame, world, t, i)
         == match world.index(t.regs[0], 0, t.trace)
            case Some(v) => t.(pc := t.pc + 1, regs := t.regs[dest := v])
            case None => Halted(Outcome.Fault, Captured(frame, t.regs), t.trace)
  {
    RepeatedReadDecodes();
    IndexReads(frame, world, t, i);
  }

  lemma IndexReads(frame: Frame, world: World, t: State, i: Instruction)
    requires t.Running? && i.op == GetIndex && i.a < |t.regs| && i.b < |t.regs|
    ensures InBounds(frame, i, |t.regs|)
    ensures Execute(frame, world, t, i)
         == match world.index(t.regs[i.b], i.c, t.trace)
            case Some(v) => t.(pc := t.pc + 1, regs := t.regs[i.a := v])
            case None => Halted(Outcome.Fault, Captured(frame, t.regs), t.trace)
  {
  }

  lemma ReturnSteps(frame: Frame, world: World, t: State, i: Instruction)
    requires t.Running? && |t.regs| == 3 && i == Decode(RETURN_1)
    ensures !i.op.Unknown? && InBounds(frame, i, |t.regs|) && Execute(frame, world, t, i).Halted?
  {
    RepeatedReadDecodes();
  }

  lemma AnsweringQuiet(world: World, s: State, t: State)
    requires Entry(RepeatedRead(false), s) && Answering(world, s, t) && (t.Running? ==> |t.regs| == 3)
    ensures var def, def' := RepeatedRead(false), RepeatedRead(true);
            !DeletedFault(DecodeAll(def.code), DecodeAll(def'.code), def.frame, world, t)
  {
    var code, code' := DecodeAll(RepeatedRead(false).code), DecodeAll(RepeatedRead(true).code);
    assert code'[0] == code[0] && code'[2] == code[2];
    if t.Running? && t.pc == 1 {
      IndexSteps(RepeatedRead(false).frame, world, t, code[1], 2);
    }
  }

  /** The second of two equal reads is reached by every run that does not raise before, and deleted, yet no
      world can tell: it asks for what the first one was given. */
  lemma RepeatedReadUnnoticed(world: World, s: State, n: nat)
    requires Entry(RepeatedRead(false), s)
    ensures PrunedDef(RepeatedRead(false), RepeatedRead(true))
    ensures NoDeletedFault(RepeatedRead(false), RepeatedRead(true), world, s, n)
  {
    RepeatedReadPruned();
    var def := RepeatedRead(false);
    var f := Stepper(DecodeAll(def.code), def.frame, world);
    var inv := (t: State) => Answering(world, s, t) && (t.Running? ==> |t.regs| == 3);
    forall t | inv(t)
      ensures inv(f(t))
    {
      AnsweringStep(world, s, t);
    }
    forall k | 0 <= k < n
      ensures !DeletedFault(DecodeAll(def.code), DecodeAll(RepeatedRead(true).code), def.frame, world, Iterate(f, s, k))
    {
      Invariant(f, inv, s, k);
      AnsweringQuiet(world, s, Iterate(f, s, k));
    }
  }
}
