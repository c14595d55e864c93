/** Inline equality and inequality tests, whose meaning is fixed: when the code for them is right. */
module InlineEquality {
  import opened Options
  import opened Bytecode
  import opened VarOps
  import opened Comparators
  import opened InlineOps
  import opened InlineComparisons

  function EqualityOp(invert: bool): Opcode {
    if invert then NotEquals else Equals
  }

  /** What the target holds while all operands were equal so far. */
  function Going(invert: bool): Value {
    Boolean(!invert)
  }

  /** What the i-th comparison reads for an operand: after the first one, the target is overwritten. */
  function Reads(st: Store, t: nat, invert: bool, i: nat, o: Operand): Value {
    if i >= 2 && o == Register(t) then Going(invert) else Content(st, o)
  }

  predicate Agree(st: Store, args: seq<Operand>, t: nat, invert: bool, i: nat)
    requires 0 < i < |args|
  {
    Reads(st, t, invert, i, args[i - 1]) == Reads(st, t, invert, i, args[i])
  }

  /** Whether the comparisons from the i-th on all find equal values; None where control gets lost. */
  function Outcome(st: Store, args: seq<Operand>, t: nat, opim: Option<Opcode>, invert: bool, i: nat): Option<bool>
    requires 0 < i < |args|
    decreases |args| - i
  {
    if !Agree(st, args, t, invert, i) then if Far(args, t, opim, i) then None else Some(false)
    else if i + 1 == |args| then Some(true)
    else Outcome(st, args, t, opim, invert, i + 1)
  }

  ghost predicate Started(st: Store, t: nat, invert: bool, i: nat, now: Store) {
    if i == 1 then now == st
    else now(Register(t)) == Going(invert) && forall l :: l != Register(t) ==> now(l) == st(l)
  }

  lemma StartedReads(st: Store, t: nat, invert: bool, i: nat, now: Store, o: Operand)
    requires 0 < i && Started(st, t, invert, i, now)
    ensures Content(now, o) == Reads(st, t, invert, i, o)
  {
  }

  /** One test: the chain is left with the answer, unless the branch does not fit, or goes on. */
  lemma TestNow(w: World, args: seq<Operand>, t: nat, opim: Option<Opcode>, invert: bool, i: nat, st: Store,
                now: Memory, v: Value)
    returns (after: Memory)
    requires Compares(w, EqualityOp(invert), opim, invert)
    requires 0 < i < |args| && Started(st, t, invert, i, now.st)
    ensures Agree(st, args, t, invert, i) ==> Started(st, t, invert, i + 1, after.st)
    ensures Ends(w, Chain(args, t, EqualityOp(invert), opim, invert, i), now, t, v)
       <==> if i + 1 == |args| then v == Boolean(Agree(st, args, t, invert, i) != invert)
            else if !Agree(st, args, t, invert, i) then !Far(args, t, opim, i) && v == Boolean(invert)
            else Ends(w, Chain(args, t, EqualityOp(invert), opim, invert, i + 1), after, t, v)
  {
    after := CompareNow(w, args, t, EqualityOp(invert), opim, invert, i, now, v);
    StartedReads(st, t, invert, i, now.st, args[i - 1]);
    StartedReads(st, t, invert, i, now.st, args[i]);
    assert after.st(Register(t)) == Boolean(Agree(st, args, t, invert, i) != invert);
  }

  /** v is the answer of the comparisons from the i-th on. */
  predicate Answers(st: Store, args: seq<Operand>, t: nat, opim: Option<Opcode>, invert: bool, i: nat, v: Value)
    requires 0 < i < |args|
  {
    var r := Outcome(st, args, t, opim, invert, i);
    r.Some? && v == Boolean(r.value != invert)
  }

  lemma AnswersNow(st: Store, args: seq<Operand>, t: nat, opim: Option<Opcode>, invert: bool, i: nat, v: Value)
    requires 0 < i < |args|
    ensures Answers(st, args, t, opim, invert, i, v)
       <==> if i + 1 == |args| then v == Boolean(Agree(st, args, t, invert, i) != invert)
            else if !Agree(st, args, t, invert, i) then !Far(args, t, opim, i) && v == Boolean(invert)
            else Answers(st, args, t, opim, invert, i + 1, v)
  {
  }

  /** The outcome is what the code computes. */
  lemma {:induction false} OutcomeEnds(w: World, args: seq<Operand>, t: nat, opim: Option<Opcode>, invert: bool,
                                       i: nat, st: Store, now: Memory, v: Value)
    requires Compares(w, EqualityOp(invert), opim, invert)
    requires 0 < i < |args| && Started(st, t, invert, i, now.st)
    ensures Ends(w, Chain(args, t, EqualityOp(invert), opim, invert, i), now, t, v)
       <==> Answers(st, args, t, opim, invert, i, v)
    decreases |args| - i
  {
    var after := TestNow(w, args, t, opim, invert, i, st, now, v);
    AnswersNow(st, args, t, opim, invert, i, v);
    if i + 1 < |args| && Agree(st, args, t, invert, i) {
      OutcomeEnds(w, args, t, opim, invert, i + 1, st, after, v);
    }
  }

  predicate AllEqual(values: seq<Value>) {
    forall j :: 1 <= j < |values| ==> values[j - 1] == values[j]
  }

  lemma EqualChained(w: World, values: seq<Value>)
    requires w.Sane()
    ensures ChainedFrom(w, Equals, values, 1) <==> AllEqual(values)
  {
    if AllEqual(values) {
      ChainHolds(w, Equals, values, 1);
    } else {
      var j :| 1 <= j < |values| && values[j - 1] != values[j];
      ChainBreaks(w, Equals, values, 1, j);
    }
  }

  /** Whether the code is right is a matter of the operands and their values only. */
  lemma ChainsExactly(w: World, args: seq<Operand>, t: nat, opim: Option<Opcode>, invert: bool, m: Memory)
    requires Compares(w, EqualityOp(invert), opim, invert) && 2 <= |args|
    ensures Chains(w, args, t, EqualityOp(invert), opim, invert, m)
       <==> Outcome(m.st, args, t, opim, invert, 1) == Some(AllEqual(Contents(m.st, args)))
  {
    var values := Contents(m.st, args);
    EqualChained(w, values);
    OutcomeEnds(w, args, t, opim, invert, 1, m.st, m, Boolean(AllEqual(values) != invert));
  }

  /** The outcome if no comparison fails, if one fails, and if one fails that is far from the end. */
  lemma {:induction false} OutcomeIs(st: Store, args: seq<Operand>, t: nat, opim: Option<Opcode>,
                                     invert: bool, i: nat, m: nat)
    requires 0 < i <= m < |args|
    ensures (forall k :: i <= k < |args| ==> Agree(st, args, t, invert, k)) ==>
            Outcome(st, args, t, opim, invert, i) == Some(true)
    ensures !Agree(st, args, t, invert, m) && Far(args, t, opim, m) ==> Outcome(st, args, t, opim, invert, i) == None
    ensures !Agree(st, args, t, invert, m) ==> Outcome(st, args, t, opim, invert, i) != Some(true)
    ensures (forall k :: i <= k < |args| && !Agree(st, args, t, invert, k) ==> !Far(args, t, opim, k)) ==>
            Outcome(st, args, t, opim, invert, i).Some?
    decreases |args| - i
  {
    if Agree(st, args, t, invert, i) && i + 1 < |args| {
      OutcomeIs(st, args, t, opim, invert, i + 1, if m == i then i + 1 else m);
    }
    if !Far(args, t, opim, i) {
      FarLater(args, t, opim, i, m);
    }
  }

  /** The i-th comparison finds equal values whatever the registers hold. */
  predicate Same(args: seq<Operand>, t: nat, invert: bool, i: nat)
    requires 0 < i < |args|
  {
    var x, y, going := args[i - 1], args[i], Constant(Going(invert));
    x == y || (i >= 2 && ((x == Register(t) && y == going) || (y == Register(t) && x == going)))
  }

  /** Every branch that can be taken fits in its field. */
  predicate Fits(args: seq<Operand>, t: nat, opim: Option<Opcode>, invert: bool) {
    forall i :: 1 <= i < |args| && Far(args, t, opim, i) ==> Same(args, t, invert, i)
  }

  /** Registers that make two operands different. */
  function Parting(x: Operand, y: Operand): Store {
    var u := if y.Constant? && y.v == Nil then Boolean(true) else Nil;
    var v := if x.Constant? && x.v != Nil then Nil else Boolean(true);
    (l: Operand) => if x == l then u else v
  }

  lemma SameAgrees(args: seq<Operand>, t: nat, invert: bool, i: nat, st: Store)
    requires 0 < i < |args| && Same(args, t, invert, i)
    ensures Agree(st, args, t, invert, i)
  {
  }

  lemma OtherwiseDiffers(args: seq<Operand>, t: nat, invert: bool, i: nat) returns (st: Store)
    requires 0 < i < |args| && !Same(args, t, invert, i)
    ensures !Agree(st, args, t, invert, i)
  {
    var x, y := args[i - 1], args[i];
    if i >= 2 && (x == Register(t) || y == Register(t)) {
      st := (l: Operand) => Nil;
    } else {
      st := Parting(x, y);
    }
  }

  /** From the second operand on, some are the target and some are not. */
  predicate Mixed(args: seq<Operand>, t: nat) {
    (exists j :: 1 <= j < |args| && args[j] == Register(t)) && exists j :: 1 <= j < |args| && args[j] != Register(t)
  }

  /** All operands can be equal without being what the target holds while the chain goes on. */
  predicate CanMiss(args: seq<Operand>, invert: bool) {
    && (forall j :: 0 <= j < |args| && args[j].Constant? ==> args[j].v != Going(invert))
    && (forall j, k :: 0 <= j < k < |args| && args[j].Constant? && args[k].Constant? ==> args[j] == args[k])
  }

  /** The chain can find all operands equal to what the target holds while the target had another value. */
  predicate CanFool(args: seq<Operand>, t: nat, invert: bool)
    requires 2 <= |args|
  {
    && (forall j :: 1 <= j < |args| && args[j].Constant? ==> args[j].v == Going(invert))
    && if args[1] == Register(t) then
         args[0] == Register(t) || (if args[0].Constant? then args[0].v != Going(invert) else args[0] !in args[1..])
       else args[0] != Register(t) && (args[0].Constant? ==> args[0].v == Going(invert))
  }

  /** The target may be among the operands without harm. */
  predicate Harmless(args: seq<Operand>, t: nat, invert: bool)
    requires 2 <= |args|
  {
    |args| == 2 || !Mixed(args, t) || (!CanMiss(args, invert) && !CanFool(args, t, invert))
  }

  /** All comparisons find equal values. */
  predicate AllAgree(st: Store, args: seq<Operand>, t: nat, invert: bool) {
    forall i :: 1 <= i < |args| ==> Agree(st, args, t, invert, i)
  }

  /** If the target is no operand from the second on, or all of them are. */
  lemma UnmixedRight(st: Store, args: seq<Operand>, t: nat, invert: bool)
    requires 2 <= |args| && (|args| == 2 || !Mixed(args, t))
    ensures AllAgree(st, args, t, invert) <==> AllEqual(Contents(st, args))
  {
    var values := Contents(st, args);
    assert forall i :: 1 <= i < |args| ==> (Agree(st, args, t, invert, i) <==> values[i - 1] == values[i]);
  }

  lemma {:induction false} EqualTo(values: seq<Value>, k: nat, j: nat)
    requires k <= j < |values| && forall m :: k < m <= j ==> values[m - 1] == values[m]
    ensures values[k] == values[j]
    decreases j
  {
    if k < j {
      EqualTo(values, k, j - 1);
    }
  }

  /** When all comparisons agree, everything from the second operand on reads as the target does. */
  lemma AgreeGoing(st: Store, args: seq<Operand>, t: nat, invert: bool, k: nat)
    requires 2 < |args| && AllAgree(st, args, t, invert) && Mixed(args, t) && 1 <= k < |args| && args[k] != Register(t)
    ensures Content(st, args[k]) == Going(invert)
  {
    var found := seq(|args|, i requires 0 <= i < |args| => Reads(st, t, invert, 2, args[i]));
    var j :| 1 <= j < |args| && args[j] == Register(t);
    forall m | 1 < m < |args|
      ensures found[m - 1] == found[m]
    {
      assert Agree(st, args, t, invert, m);
    }
    EqualTo(found, 1, j);
    EqualTo(found, 1, k);
  }

  lemma EqualValues(st: Store, args: seq<Operand>, j: nat)
    requires j < |args| && AllEqual(Contents(st, args))
    ensures Content(st, args[j]) == Content(st, args[0])
  {
    EqualTo(Contents(st, args), 0, j);
  }

  /** Equal values that are not what the target holds. */
  lemma Missed(st: Store, args: seq<Operand>, invert: bool)
    requires 0 < |args| && AllEqual(Contents(st, args)) && Content(st, args[0]) != Going(invert)
    ensures CanMiss(args, invert)
  {
    forall j | 0 <= j < |args| && args[j].Constant?
      ensures args[j].v == Content(st, args[0])
    {
      EqualValues(st, args, j);
    }
  }

  /** Otherwise equal values are found equal. */
  lemma MixedFinds(st: Store, args: seq<Operand>, t: nat, invert: bool)
    requires 2 < |args| && AllEqual(Contents(st, args)) && Content(st, args[0]) == Going(invert)
    ensures AllAgree(st, args, t, invert)
  {
    forall i | 1 <= i < |args|
      ensures Agree(st, args, t, invert, i)
    {
      EqualValues(st, args, i - 1);
      EqualValues(st, args, i);
    }
  }

  /** Values found equal while the target held another value. */
  lemma Fooled(st: Store, args: seq<Operand>, t: nat, invert: bool)
    requires 2 < |args| && Mixed(args, t) && AllAgree(st, args, t, invert) && st(Register(t)) != Going(invert)
    ensures CanFool(args, t, invert)
  {
    forall k | 1 <= k < |args| && args[k] != Register(t)
      ensures Content(st, args[k]) == Going(invert)
    {
      AgreeGoing(st, args, t, invert, k);
    }
    assert Agree(st, args, t, invert, 1);
    assert forall k :: 1 <= k < |args| ==> args[k] in args[1..];
  }

  /** Otherwise values found equal are equal. */
  lemma MixedMeans(st: Store, args: seq<Operand>, t: nat, invert: bool)
    requires 2 < |args| && Mixed(args, t) && AllAgree(st, args, t, invert) && st(Register(t)) == Going(invert)
    ensures AllEqual(Contents(st, args))
  {
    var values := Contents(st, args);
    forall k | 1 <= k < |args|
      ensures values[k] == Going(invert)
    {
      if args[k] != Register(t) {
        AgreeGoing(st, args, t, invert, k);
      }
    }
    assert Agree(st, args, t, invert, 1);
  }

  /** Where the target does no harm, values are found equal exactly if they are. */
  lemma HarmlessMeans(st: Store, args: seq<Operand>, t: nat, invert: bool)
    requires 2 <= |args| && Harmless(args, t, invert)
    ensures AllAgree(st, args, t, invert) <==> AllEqual(Contents(st, args))
  {
    if |args| == 2 || !Mixed(args, t) {
      UnmixedRight(st, args, t, invert);
    } else {
      if AllEqual(Contents(st, args)) {
        if Content(st, args[0]) != Going(invert) {
          Missed(st, args, invert);
        } else {
          MixedFinds(st, args, t, invert);
        }
      }
      if AllAgree(st, args, t, invert) {
        if st(Register(t)) != Going(invert) {
          Fooled(st, args, t, invert);
        } else {
          MixedMeans(st, args, t, invert);
        }
      }
    }
  }

  /** Values that are all equal, but not to what the target holds. */
  lemma MissingFails(args: seq<Operand>, t: nat, invert: bool)
    returns (st: Store)
    requires 2 < |args| && Mixed(args, t) && CanMiss(args, invert)
    ensures AllEqual(Contents(st, args)) && !AllAgree(st, args, t, invert)
  {
    var v := Nil;
    if k :| 0 <= k < |args| && args[k].Constant? {
      v := args[k].v;
    }
    st := (l: Operand) => v;
    assert forall j :: 0 <= j < |args| ==> Content(st, args[j]) == v;
    if AllAgree(st, args, t, invert) {
      var k :| 1 <= k < |args| && args[k] != Register(t);
      AgreeGoing(st, args, t, invert, k);
    }
  }

  lemma FoolingFails(args: seq<Operand>, t: nat, invert: bool)
    returns (st: Store)
    requires 2 < |args| && Mixed(args, t) && CanFool(args, t, invert)
    ensures !AllEqual(Contents(st, args)) && AllAgree(st, args, t, invert)
  {
    var going := Going(invert);
    var other := if args[0].Constant? && args[0].v != going then args[0].v else Nil;
    if args[1] == Register(t) {
      st := (l: Operand) => if l != Register(t) && l in args[1..] then going else other;
    } else {
      st := (l: Operand) => if l == Register(t) then Nil else going;
    }
    forall k | 1 <= k < |args|
      ensures Reads(st, t, invert, 2, args[k]) == going
    {
      assert args[k] in args[1..];
    }
    var values := Contents(st, args);
    var j, k :| 1 <= j < |args| && args[j] == Register(t) && 1 <= k < |args| && args[k] != Register(t);
    assert values[j] != going && values[k] == going;
    if AllEqual(values) {
      EqualTo(values, 0, j);
      EqualTo(values, 0, k);
    }
  }

  /** Inline equality or inequality tests give what they mean for all values exactly when every branch that
      can be taken fits in its field and the target does no harm among the operands. */
  lemma EqualityExactly(args: seq<Operand>, t: nat, opim: Option<Opcode>, invert: bool)
    requires 2 <= |args|
    ensures Fits(args, t, opim, invert) && Harmless(args, t, invert)
       <==> forall w: World, m: Memory :: Compares(w, EqualityOp(invert), opim, invert) ==>
         Chains(w, args, t, EqualityOp(invert), opim, invert, m)
  {
    if Fits(args, t, opim, invert) && Harmless(args, t, invert) {
      forall w: World, m: Memory | Compares(w, EqualityOp(invert), opim, invert)
        ensures Chains(w, args, t, EqualityOp(invert), opim, invert, m)
      {
        HarmlessRight(m.st, args, t, opim, invert);
        ChainsExactly(w, args, t, opim, invert, m);
      }
    } else {
      var st := HarmfulWrong(args, t, opim, invert);
      var w, m := Nowhere(EqualityOp(invert)), Memory(st, (k: nat) => Nil);
      NowhereCompares(EqualityOp(invert), opim, invert);
      ChainsExactly(w, args, t, opim, invert, m);
      assert !Chains(w, args, t, EqualityOp(invert), opim, invert, m);
    }
  }

  lemma HarmlessRight(st: Store, args: seq<Operand>, t: nat, opim: Option<Opcode>, invert: bool)
    requires 2 <= |args| && Fits(args, t, opim, invert) && Harmless(args, t, invert)
    ensures Outcome(st, args, t, opim, invert, 1) == Some(AllEqual(Contents(st, args)))
  {
    HarmlessMeans(st, args, t, invert);
    forall k | 1 <= k < |args| && !Agree(st, args, t, invert, k)
      ensures !Far(args, t, opim, k)
    {
      if Same(args, t, invert, k) {
        SameAgrees(args, t, invert, k, st);
      }
    }
    var r := Outcome(st, args, t, opim, invert, 1);
    OutcomeIs(st, args, t, opim, invert, 1, 1);
    if !AllAgree(st, args, t, invert) {
      var m :| 1 <= m < |args| && !Agree(st, args, t, invert, m);
      OutcomeIs(st, args, t, opim, invert, 1, m);
      assert r.Some? && r == Some(r.value) && !r.value && !AllEqual(Contents(st, args));
    }
  }

  lemma HarmfulWrong(args: seq<Operand>, t: nat, opim: Option<Opcode>, invert: bool) returns (st: Store)
    requires 2 <= |args| && !(Fits(args, t, opim, invert) && Harmless(args, t, invert))
    ensures Outcome(st, args, t, opim, invert, 1) != Some(AllEqual(Contents(st, args)))
  {
    if !Fits(args, t, opim, invert) {
      var i :| 1 <= i < |args| && Far(args, t, opim, i) && !Same(args, t, invert, i);
      st := OtherwiseDiffers(args, t, invert, i);
      OutcomeIs(st, args, t, opim, invert, 1, i);
    } else if CanMiss(args, invert) {
      st := MissingFails(args, t, invert);
      var m :| 1 <= m < |args| && !Agree(st, args, t, invert, m);
      OutcomeIs(st, args, t, opim, invert, 1, m);
    } else {
      st := FoolingFails(args, t, invert);
      OutcomeIs(st, args, t, opim, invert, 1, 1);
    }
  }
}
