/** Assembling a function body with labels, in two passes. */
module Assembler {
  import opened Options
  import opened Bytecode
  import opened Asm
  import Verifier

  datatype Arg = Num(n: int) | Label(name: string)

  /** A line is a label for the instruction that follows, or an instruction; an empty one is a noop. */
  datatype Line = Mark(name: string) | Empty | Code(op: Opcode, args: seq<Arg>)

  /** The number of instructions in the first n lines. */
  function Count(lines: seq<Line>, n: nat): (c: nat)
    requires n <= |lines|
    ensures c <= n
  {
    if n == 0 then 0 else Count(lines, n - 1) + if lines[n - 1].Mark? then 0 else 1
  }

  /** The labels in the first n lines; a later one hides an earlier one of the same name. */
  function Labels(lines: seq<Line>, n: nat): map<string, nat>
    requires n <= |lines|
  {
    if n == 0 then map[]
    else
      var before := Labels(lines, n - 1);
      if lines[n - 1].Mark? then before[lines[n - 1].name := Count(lines, n - 1)] else before
  }

  predicate Int32(n: int) {
    -0x8000_0000 <= n < 0x8000_0000
  }

  /** The number that an argument stands for: a label counts from the instruction that uses it. */
  function Value(f: Field, arg: Arg, labels: map<string, nat>, here: nat): Option<int> {
    match arg
    case Num(n) => if Int32(n) then Some(n) else None
    case Label(name) => if f.role.LabelRole? && name in labels then Some(labels[name] - here) else None
  }

  function ValueOr(f: Field, arg: Arg, labels: map<string, nat>, here: nat): int {
    match Value(f, arg, labels, here) case Some(n) => n case None => 0
  }

  function Values(fields: seq<Field>, args: seq<Arg>, labels: map<string, nat>, here: nat): seq<int>
    requires |args| == |fields|
  {
    seq(|args|, k requires 0 <= k < |args| => ValueOr(fields[k], args[k], labels, here))
  }

  /** The word of a line that is not a label. */
  function Word1(line: Line, labels: map<string, nat>, here: nat, depth: nat): Option<Word> {
    match line
    case Mark(_) => None
    case Empty => Some(NOOP)
    case Code(op, args) =>
      var fields := Fields(KindOf(op));
      if |args| != |fields| || exists k :: 0 <= k < |args| && Value(fields[k], args[k], labels, here).None? then None
      else Assemble1(op, Values(fields, args, labels, here), depth)
  }

  /** The words of the first n lines. */
  function Words(lines: seq<Line>, n: nat, labels: map<string, nat>, depth: nat): (r: Option<seq<Word>>)
    requires n <= |lines|
    ensures r.Some? ==> |r.value| == Count(lines, n)
  {
    if n == 0 then Some([])
    else
      match Words(lines, n - 1, labels, depth)
      case None => None
      case Some(ws) =>
        if lines[n - 1].Mark? then Some(ws)
        else match Word1(lines[n - 1], labels, |ws|, depth) case None => None case Some(w) => Some(ws + [w])
  }

  /** The whole body. */
  function Body(lines: seq<Line>, depth: nat): Option<seq<Word>> {
    Words(lines, |lines|, Labels(lines, |lines|), depth)
  }

  lemma {:induction false} CountGrows(lines: seq<Line>, j: nat, n: nat)
    requires j <= n <= |lines|
    ensures Count(lines, j) <= Count(lines, n)
    ensures j < n && !lines[j].Mark? ==> Count(lines, j) < Count(lines, n)
    decreases n
  {
    if j < n {
      CountGrows(lines, j, n - 1);
    }
  }

  /** The word of each instruction stands where the count says. */
  lemma {:induction false} WordAt(lines: seq<Line>, n: nat, labels: map<string, nat>, depth: nat, j: nat)
    requires j < n <= |lines| && Words(lines, n, labels, depth).Some? && !lines[j].Mark?
    ensures Count(lines, j) < Count(lines, n)
    ensures Word1(lines[j], labels, Count(lines, j), depth)
            == Some(Words(lines, n, labels, depth).value[Count(lines, j)])
    decreases n
  {
    CountGrows(lines, j, n);
    if j < n - 1 {
      WordAt(lines, n - 1, labels, depth, j);
    }
  }

  /** A label names the instruction that follows its last occurrence. */
  lemma {:induction false} LabelNames(lines: seq<Line>, n: nat, p: nat)
    requires p < n <= |lines| && lines[p].Mark?
    requires forall q :: p < q < n ==> lines[q] != lines[p]
    ensures lines[p].name in Labels(lines, n) && Labels(lines, n)[lines[p].name] == Count(lines, p)
    decreases n
  {
    if p < n - 1 {
      LabelNames(lines, n - 1, p);
    }
  }

  /** A jump to a label goes to the instruction that the label names, wherever both are. */
  lemma JumpsToLabel(lines: seq<Line>, depth: nat, j: nat, m: nat, p: nat)
    requires Body(lines, depth).Some? && j < |lines| && lines[j].Code? && m < |lines[j].args|
    requires p < |lines| && lines[p] == Mark(if lines[j].args[m].Label? then lines[j].args[m].name else "")
    requires lines[j].args[m].Label? && forall q :: p < q < |lines| ==> lines[q] != lines[p]
    ensures var code, k := Body(lines, depth).value, Count(lines, j);
            && k < |code| && Disassemble(code[k]).Some?
            && var (op, args) := Disassemble(code[k]).value;
            op == lines[j].op && m < |args| && k + args[m] == Count(lines, p)
  {
    var labels, here := Labels(lines, |lines|), Count(lines, j);
    WordAt(lines, |lines|, labels, depth, j);
    LabelNames(lines, |lines|, p);
    var fields := Fields(KindOf(lines[j].op));
    var values := Values(fields, lines[j].args, labels, here);
    DisassembleAssemble(lines[j].op, values, depth);
    assert Value(fields[m], lines[j].args[m], labels, here).Some?;
  }

  /** Every slot among the arguments is below the number of slots. */
  ghost predicate Covered(fields: seq<Field>, values: seq<int>, n: nat, slotcount: nat) {
    |values| <= |fields| && n <= |values| && forall k :: 0 <= k < n && fields[k].role.SlotRole? ==>
      values[k] < slotcount
  }

  /** The argument stands for a number that fits its field. */
  predicate Acceptable(f: Field, arg: Arg, labels: map<string, nat>, here: nat) {
    Value(f, arg, labels, here).Some? && Fits(f, ValueOr(f, arg, labels, here))
  }

  lemma BadArg(op: Opcode, args: seq<Arg>, labels: map<string, nat>, here: nat, depth: nat, k: nat)
    requires |args| == |Fields(KindOf(op))| && k < |args| && !Acceptable(Fields(KindOf(op))[k], args[k], labels, here)
    ensures Word1(Code(op, args), labels, here, depth).None?
  {
    var fields := Fields(KindOf(op));
    assert Values(fields, args, labels, here)[k] == ValueOr(fields[k], args[k], labels, here);
  }

  lemma GoodArgs(op: Opcode, args: seq<Arg>, labels: map<string, nat>, here: nat, depth: nat)
    requires |args| == |Fields(KindOf(op))|
    requires forall k :: 0 <= k < |args| ==> Acceptable(Fields(KindOf(op))[k], args[k], labels, here)
    ensures Word1(Code(op, args), labels, here, depth)
            == Assemble1(op, Values(Fields(KindOf(op)), args, labels, here), depth)
  {
  }

  lemma WordsNext(lines: seq<Line>, i: nat, labels: map<string, nat>, depth: nat, ws: seq<Word>)
    requires i < |lines| && Words(lines, i, labels, depth) == Some(ws)
    ensures |ws| == Count(lines, i)
    ensures lines[i].Mark? ==> Words(lines, i + 1, labels, depth) == Some(ws)
    ensures !lines[i].Mark? ==>
              Words(lines, i + 1, labels, depth)
                == match Word1(lines[i], labels, |ws|, depth) case None => None case Some(w) => Some(ws + [w])
  {
  }

  class Assembler {
    const depth: nat
    var labels: map<string, nat>
    var bytecode: seq<Word>
    var bytecodeLength: nat
    var slotcount: nat

    /** The parameters take the first slots. */
    constructor (depth: nat, arity: nat, vararg: bool)
      ensures this.depth == depth && labels == map[] && bytecode == [] && slotcount == arity + if vararg then 1 else 0
    {
      this.depth, labels, bytecode, bytecodeLength, slotcount := depth, map[], [], 0, arity + if vararg then 1 else 0;
    }

    /** One argument; a slot makes room for itself. */
    method DoArg(f: Field, arg: Arg) returns (v: Option<int>)
      modifies this`slotcount
      ensures slotcount >= old(slotcount)
      ensures v.Some? <==> Acceptable(f, arg, labels, |bytecode|)
      ensures v.Some? ==> v.value == ValueOr(f, arg, labels, |bytecode|) && (f.role.SlotRole? ==> v.value < slotcount)
    {
      v := Value(f, arg, labels, |bytecode|);
      if v.None? { return; }
      if f.role.SlotRole? && v.value >= slotcount {
        slotcount := v.value + 1;
      }
      if !Fits(f, v.value) {
        v := None;
      }
    }

    /** All arguments of an instruction, or the first that is not acceptable. */
    method ReadArgs(fields: seq<Field>, args: seq<Arg>) returns (values: Option<seq<int>>, ghost bad: nat)
      requires |args| == |fields|
      modifies this`slotcount
      ensures slotcount >= old(slotcount)
      ensures values.None? ==> bad < |args| && !Acceptable(fields[bad], args[bad], labels, |bytecode|)
      ensures values.Some? ==> forall k :: 0 <= k < |args| ==> Acceptable(fields[k], args[k], labels, |bytecode|)
      ensures values.Some? ==>
              values.value == Values(fields, args, labels, |bytecode|) && Covered(fields, values.value, |args|,
              slotcount)
    {
      var vs: seq<int> := [];
      for k := 0 to |args|
        invariant |vs| == k && slotcount >= old(slotcount)
        invariant forall i :: 0 <= i < k ==> Acceptable(fields[i], args[i], labels, |bytecode|)
        invariant forall i :: 0 <= i < k ==> vs[i] == ValueOr(fields[i], args[i], labels, |bytecode|)
        invariant forall i :: 0 <= i < k && fields[i].role.SlotRole? ==> vs[i] < slotcount
      {
        var v := DoArg(fields[k], args[k]);
        if v.None? { return None, k; }
        vs := vs + [v.value];
      }
      assert vs == Values(fields, args, labels, |bytecode|);
      return Some(vs), 0;
    }

    method ReadInstruction(op: Opcode, args: seq<Arg>) returns (w: Option<Word>)
      modifies this`slotcount
      ensures w == Word1(Code(op, args), labels, |bytecode|, depth) && slotcount >= old(slotcount)
      ensures w.Some? ==> Covered(Fields(KindOf(op)), Values(Fields(KindOf(op)), args, labels, |bytecode|), |args|,
              slotcount)
    {
      if |args| != |Fields(KindOf(op))| { return None; }
      var values, bad := ReadArgs(Fields(KindOf(op)), args);
      if values.None? {
        BadArg(op, args, labels, |bytecode|, depth, bad);
        return None;
      }
      GoodArgs(op, args, labels, |bytecode|, depth);
      w := Assemble1(op, values.value, depth);
    }

    /** The first pass gives every label the number of instructions before it. */
    method FindLabels(lines: seq<Line>) returns (blength: nat)
      requires labels == map[]
      modifies this`labels
      ensures labels == Labels(lines, |lines|) && blength == Count(lines, |lines|)
    {
      blength := 0;
      for i := 0 to |lines|
        invariant labels == Labels(lines, i) && blength == Count(lines, i)
      {
        if lines[i].Mark? {
          labels := labels[lines[i].name := blength];
        } else {
          blength := blength + 1;
        }
      }
    }

    /** The word of one line that is not a label. */
    method AssembleLine(line: Line) returns (ok: bool)
      requires !line.Mark?
      modifies this`slotcount, this`bytecode
      ensures slotcount >= old(slotcount) && (ok ==> LineCovered(line, labels, |old(bytecode)|, slotcount))
      ensures match Word1(line, labels, |old(bytecode)|, depth)
              case None => !ok
              case Some(w) => ok && bytecode == old(bytecode) + [w]
    {
      if line.Empty? {
        bytecode := bytecode + [NOOP];
        return true;
      }
      var w := ReadInstruction(line.op, line.args);
      if w.None? { return false; }
      bytecode := bytecode + [w.value];
      ok := true;
    }

    /** Both passes; the words are those of the body, and every slot they name exists. */
    method AssembleBody(lines: seq<Line>) returns (ok: bool)
      requires labels == map[] && bytecode == []
      modifies this
      ensures ok <==> Body(lines, depth).Some?
      ensures ok ==> Body(lines, depth) == Some(bytecode) && |bytecode| == bytecodeLength
      ensures ok ==> SlotsExist(lines, |lines|, labels, slotcount) && SlotsPass(bytecode, slotcount)
    {
      bytecodeLength := FindLabels(lines);
      ok := AssembleLines(lines);
      if ok {
        BodyPasses(lines, depth, slotcount);
      }
    }

    /** The second pass. */
    method AssembleLines(lines: seq<Line>) returns (ok: bool)
      requires labels == Labels(lines, |lines|) && bytecode == []
      modifies this`slotcount, this`bytecode
      ensures ok <==> Body(lines, depth).Some?
      ensures ok ==> Body(lines, depth) == Some(bytecode) && SlotsExist(lines, |lines|, labels, slotcount)
    {
      for i := 0 to |lines|
        invariant Words(lines, i, labels, depth) == Some(bytecode) && SlotsExist(lines, i, labels, slotcount)
      {
        WordsNext(lines, i, labels, depth, bytecode);
        if !lines[i].Mark? {
          ghost var before := slotcount;
          ok := AssembleLine(lines[i]);
          SlotsKept(lines, i, labels, before, slotcount);
          if !ok {
            Stops(lines, i, labels, depth);
            return false;
          }
        }
      }
      ok := true;
    }
  }

  /** No instruction is refused for an unknown opcode or a slot that does not exist. */
  ghost predicate SlotsPass(code: seq<Word>, slotcount: nat) {
    forall k: nat, frame: Frame, length: nat {:trigger Verifier.InstructionFault(frame, length, k, Decode(code[k]))} ::
      k < |code| && frame.slotcount == slotcount ==>
        Verifier.InstructionFault(frame, length, k, Decode(code[k])) !in {3, 4}
  }

  lemma WordPasses(op: Opcode, values: seq<int>, depth: nat, frame: Frame, length: nat, at: nat)
    requires Assemble1(op, values, depth).Some? && Covered(Fields(KindOf(op)), values, |values|, frame.slotcount)
    ensures Verifier.InstructionFault(frame, length, at, Decode(Assemble1(op, values, depth).value)) !in {3, 4}
  {
    DisassembleAssemble(op, values, depth);
    var i := Decode(Assemble1(op, values, depth).value);
    assert ArgsOf(KindOf(op), i) == values;
    FieldsPass(i, values, frame, length, at);
  }

  lemma FieldsPass(i: Instruction, values: seq<int>, frame: Frame, length: nat, at: nat)
    requires !i.op.Unknown? && values == ArgsOf(KindOf(i.op), i)
    requires Covered(Fields(KindOf(i.op)), values, |values|, frame.slotcount)
    ensures Verifier.InstructionFault(frame, length, at, i) !in {3, 4}
  {
    var fields := Fields(KindOf(i.op));
    assert |values| > 0 && fields[0].role.SlotRole? ==> values[0] < frame.slotcount;
    assert |values| > 1 && fields[1].role.SlotRole? ==> values[1] < frame.slotcount;
    assert |values| > 2 && fields[2].role.SlotRole? ==> values[2] < frame.slotcount;
  }

  lemma NoopPasses(frame: Frame, length: nat, at: nat)
    ensures Verifier.InstructionFault(frame, length, at, Decode(NOOP)) == 0
  {
    DecodeNoop(NOOP);
  }

  /** Every instruction comes from a line. */
  lemma {:induction false} LineOf(lines: seq<Line>, n: nat, k: nat) returns (j: nat)
    requires n <= |lines| && k < Count(lines, n)
    ensures j < n && !lines[j].Mark? && Count(lines, j) == k
    decreases n
  {
    if k < Count(lines, n - 1) {
      j := LineOf(lines, n - 1, k);
    } else {
      j := n - 1;
    }
  }

  lemma LinePasses(line: Line, labels: map<string, nat>, here: nat, depth: nat, frame: Frame, length: nat)
    requires Word1(line, labels, here, depth).Some? && LineCovered(line, labels, here, frame.slotcount)
    ensures Verifier.InstructionFault(frame, length, here, Decode(Word1(line, labels, here, depth).value)) !in {3, 4}
  {
    if line.Code? {
      WordPasses(line.op, Values(Fields(KindOf(line.op)), line.args, labels, here), depth, frame, length, here);
    } else {
      NoopPasses(frame, length, here);
    }
  }

  /** When all slots exist, the verifier's slot checks pass on the whole body. */
  lemma BodyPasses(lines: seq<Line>, depth: nat, slotcount: nat)
    requires Body(lines, depth).Some?
    requires SlotsExist(lines, |lines|, Labels(lines, |lines|), slotcount)
    ensures SlotsPass(Body(lines, depth).value, slotcount)
  {
    var labels := Labels(lines, |lines|);
    forall k: nat, frame: Frame, length: nat | k < |Body(lines, depth).value| && frame.slotcount == slotcount
      ensures Verifier.InstructionFault(frame, length, k, Decode(Body(lines, depth).value[k])) !in {3, 4}
    {
      var j := LineOf(lines, |lines|, k);
      WordAt(lines, |lines|, labels, depth, j);
      LinePasses(lines[j], labels, k, depth, frame, length);
    }
  }

  /** The slots of all instructions of the first n lines exist. */
  ghost predicate SlotsExist(lines: seq<Line>, n: nat, labels: map<string, nat>, slotcount: nat)
    requires n <= |lines|
  {
    forall j: nat {:trigger LineCovered(lines[j], labels, Count(lines, j), slotcount)} ::
      j < n ==> LineCovered(lines[j], labels, Count(lines, j), slotcount)
  }

  lemma SlotsKept(lines: seq<Line>, n: nat, labels: map<string, nat>, slotcount: nat, slotcount': nat)
    requires n <= |lines| && SlotsExist(lines, n, labels, slotcount) && slotcount <= slotcount'
    ensures SlotsExist(lines, n, labels, slotcount')
  {
    forall j: nat | j < n
      ensures LineCovered(lines[j], labels, Count(lines, j), slotcount')
    {
      assert LineCovered(lines[j], labels, Count(lines, j), slotcount);
    }
  }

  ghost predicate LineCovered(line: Line, labels: map<string, nat>, here: nat, slotcount: nat) {
    line.Code? ==>
      var fields := Fields(KindOf(line.op));
      |line.args| == |fields| && Covered(fields, Values(fields, line.args, labels, here), |fields|, slotcount)
  }

  /** A line that cannot be assembled stops the assembly. */
  lemma {:induction false} Stops(lines: seq<Line>, i: nat, labels: map<string, nat>, depth: nat)
    requires i < |lines| && Words(lines, i, labels, depth).Some? && !lines[i].Mark?
    requires Word1(lines[i], labels, Count(lines, i), depth).None?
    ensures Words(lines, |lines|, labels, depth).None?
  {
    StopsAt(lines, i, labels, depth, |lines|);
  }

  lemma {:induction false} StopsAt(lines: seq<Line>, i: nat, labels: map<string, nat>, depth: nat, n: nat)
    requires i < n <= |lines| && Words(lines, i, labels, depth).Some? && !lines[i].Mark?
    requires Word1(lines[i], labels, Count(lines, i), depth).None?
    ensures Words(lines, n, labels, depth).None?
    decreases n
  {
    if n > i + 1 {
      StopsAt(lines, i, labels, depth, n - 1);
    }
  }

  // Assembling what was disassembled

  /** The line that a word disassembles to. */
  function LineFor(w: Word): Line
    requires Disassemble(w).Some?
  {
    var (op, args) := Disassemble(w).value;
    Code(op, seq(|args|, k requires 0 <= k < |args| => Num(args[k])))
  }

  predicate AllKnown(code: seq<Word>) {
    forall k :: 0 <= k < |code| ==> !Decode(code[k]).op.Unknown?
  }

  function Listing(code: seq<Word>): seq<Line>
    requires AllKnown(code)
  {
    seq(|code|, k requires 0 <= k < |code| => LineFor(code[k]))
  }

  lemma ArgsSmall(kind: Kind, i: Instruction)
    requires i.a < 0x100 && i.b < 0x100 && i.c < 0x100 && i.d < 0x100_0000 && i.e < 0x1_0000
    requires -0x80_0000 <= i.ds < 0x80_0000 && -0x8000 <= i.es < 0x8000
    ensures |ArgsOf(kind, i)| == |Fields(kind)|
    ensures forall k :: 0 <= k < |ArgsOf(kind, i)| ==> Int32(ArgsOf(kind, i)[k])
  {
  }

  /** Its numbers are what the assembler reads. */
  lemma LineRead(w: Word, labels: map<string, nat>, here: nat, depth: nat)
    requires !Decode(w).op.Unknown?
    ensures var (op, args) := Disassemble(w).value; Word1(LineFor(w), labels, here, depth) == Assemble1(op, args, depth)
  {
    var (op, args) := Disassemble(w).value;
    ArgsSmall(KindOf(op), Decode(w));
    var fields, nums := Fields(KindOf(op)), LineFor(w).args;
    assert forall k :: 0 <= k < |nums| ==> Value(fields[k], nums[k], labels, here) == Some(args[k]);
    assert Values(fields, nums, labels, here) == args;
  }

  lemma LineBack(w: Word, labels: map<string, nat>, here: nat, depth: nat)
    requires !Decode(w).op.Unknown?
    ensures Word1(LineFor(w), labels, here, depth) == Some(w) <==> Canonical(w, depth)
  {
    LineRead(w, labels, here, depth);
    AssembleDisassemble(w, depth);
  }

  lemma OneMoreWord(lines: seq<Line>, n: nat, labels: map<string, nat>, depth: nat, code: seq<Word>)
    requires 0 < n <= |lines| && n <= |code| && !lines[n - 1].Mark?
    ensures Words(lines, n, labels, depth) == Some(code[..n])
       <==> Words(lines, n - 1, labels, depth) == Some(code[..n - 1])
            && Word1(lines[n - 1], labels, n - 1, depth) == Some(code[n - 1])
  {
    var before := Words(lines, n - 1, labels, depth);
    assert code[..n] == code[..n - 1] + [code[n - 1]];
    if Words(lines, n, labels, depth) == Some(code[..n]) {
      var w := Word1(lines[n - 1], labels, |before.value|, depth).value;
      assert before.value + [w] == code[..n];
      assert (before.value + [w])[..|before.value|] == before.value;
    }
  }

  /** Every line gives the word in its place. */
  ghost predicate InPlace(lines: seq<Line>, n: nat, labels: map<string, nat>, depth: nat, code: seq<Word>)
    requires n <= |lines| && n <= |code|
  {
    forall k :: 0 <= k < n ==> Word1(lines[k], labels, k, depth) == Some(code[k])
  }

  lemma InPlaceNext(lines: seq<Line>, n: nat, labels: map<string, nat>, depth: nat, code: seq<Word>)
    requires 0 < n <= |lines| && n <= |code|
    ensures InPlace(lines, n, labels, depth, code)
       <==> InPlace(lines, n - 1, labels, depth, code)
            && Word1(lines[n - 1], labels, n - 1, depth) == Some(code[n - 1])
  {
  }

  lemma {:induction false} WordsInPlace(lines: seq<Line>, n: nat, labels: map<string, nat>, depth: nat, code: seq<Word>)
    requires n <= |lines| && n <= |code| && forall k :: 0 <= k < n ==> !lines[k].Mark?
    ensures Words(lines, n, labels, depth) == Some(code[..n]) <==> InPlace(lines, n, labels, depth, code)
  {
    if n > 0 {
      WordsInPlace(lines, n - 1, labels, depth, code);
      OneMoreWord(lines, n, labels, depth, code);
      InPlaceNext(lines, n, labels, depth, code);
    }
  }

  /** Assembling the lines of a disassembled body gives the body back exactly when every word is canonical. */
  lemma BodyBack(code: seq<Word>, depth: nat)
    requires AllKnown(code)
    ensures Body(Listing(code), depth) == Some(code) <==> forall k :: 0 <= k < |code| ==> Canonical(code[k], depth)
  {
    var lines := Listing(code);
    var labels := Labels(lines, |code|);
    WordsInPlace(lines, |code|, labels, depth, code);
    assert code[..|code|] == code;
    forall k | 0 <= k < |code|
      ensures Word1(lines[k], labels, k, depth) == Some(code[k]) <==> Canonical(code[k], depth)
    {
      LineBack(code[k], labels, k, depth);
    }
  }
}
