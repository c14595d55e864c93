/** Lexical scopes during compilation: which registers they hold, and the environment lists through
    which a function reaches the variables of the functions around it. */
module Scopes {
  import opened Options
  import opened Regalloc
  import opened Slots

  /** A register allocator seen as the registers it holds apart from the reserved ones, the largest that it
      ever handed out, and the temporaries that are in use. */
  datatype Registers = Registers(taken: set<nat>, max: nat, temps: set<nat>)

  /** A named slot. It loses its name when its scope ends; keep says that a closure uses it. */
  datatype SymPair = SymPair(slot: Slot, sym: Option<string>, keep: bool)

  /** A scope. An entry of envs tells where a closure of the function finds one of its environments when
      it is created: -1 is the frame of the enclosing function, other numbers are environments of the
      enclosing function. The upvalues are the registers that closures use. */
  datatype Scope = Scope(isFunction: bool, unused: bool, needsEnv: bool, syms: seq<SymPair>, envs: seq<int>,
                         ra: Registers, upvalues: set<nat>, issued: set<nat>)

  function Owner(scopes: seq<Scope>, i: nat): (r: nat)
    requires i < |scopes| && scopes[0].isFunction
    ensures r <= i && scopes[r].isFunction && forall k :: r < k <= i ==> !scopes[k].isFunction
  {
    if scopes[i].isFunction then i else Owner(scopes, i - 1)
  }

  /** The function around the function whose scope is at index i. */
  function Enclosing(scopes: seq<Scope>, i: nat): (r: nat)
    requires 0 < i < |scopes| && scopes[0].isFunction
    ensures r < i && scopes[r].isFunction && forall k :: r < k < i ==> !scopes[k].isFunction
  {
    Owner(scopes, i - 1)
  }

  predicate Distinct(envs: seq<int>) {
    forall j, k :: 0 <= j < k < |envs| ==> envs[j] != envs[k]
  }

  predicate LinkOk(scopes: seq<Scope>, i: nat)
    requires i < |scopes| && scopes[0].isFunction
  {
    if i == 0 || !scopes[i].isFunction then scopes[i].envs == []
    else
      && Distinct(scopes[i].envs)
      && forall j {:trigger scopes[i].envs[j]} ::
           0 <= j < |scopes[i].envs| ==> -1 <= scopes[i].envs[j] < |scopes[Enclosing(scopes, i)].envs|
  }

  /** Every environment entry names something that the enclosing function has. */
  ghost predicate Linked(scopes: seq<Scope>) {
    && |scopes| > 0 && scopes[0].isFunction
    && forall i: nat {:trigger LinkOk(scopes, i)} :: i < |scopes| ==> LinkOk(scopes, i)
  }

  /** The functions whose frames the environments of a closure are, as they are collected when the
      closure is created. */
  ghost function Captured(scopes: seq<Scope>, i: nat): (r: seq<nat>)
    requires Linked(scopes) && i < |scopes| && scopes[i].isFunction
    ensures |r| == |scopes[i].envs|
    decreases i
  {
    assert LinkOk(scopes, i);
    if i == 0 then []
    else
      var e := Enclosing(scopes, i);
      var outer := Captured(scopes, e);
      seq(|scopes[i].envs|, j requires 0 <= j < |scopes[i].envs| => if scopes[i].envs[j]
        == -1 then e else outer[scopes[i].envs[j]])
  }

  /** The environments of a function belong to different functions, all of them around it. */
  lemma {:induction false} CapturedDistinct(scopes: seq<Scope>, i: nat)
    requires Linked(scopes) && i < |scopes| && scopes[i].isFunction
    ensures forall j :: 0 <= j < |Captured(scopes, i)| ==>
            Captured(scopes, i)[j] < i && scopes[Captured(scopes, i)[j]].isFunction
    ensures forall j, k :: 0 <= j < k < |Captured(scopes, i)| ==> Captured(scopes, i)[j] != Captured(scopes, i)[k]
    decreases i
  {
    assert LinkOk(scopes, i);
    if i > 0 {
      CapturedDistinct(scopes, Enclosing(scopes, i));
    }
  }

  /** The same scopes, some of which have more environments. */
  ghost predicate Grown(scopes: seq<Scope>, scopes': seq<Scope>) {
    && |scopes'| == |scopes|
    && forall i: nat {:trigger scopes'[i]} :: i < |scopes| ==>
         scopes'[i].isFunction == scopes[i].isFunction && scopes[i].envs <= scopes'[i].envs
  }

  lemma {:induction false} OwnerSame(scopes: seq<Scope>, scopes': seq<Scope>, i: nat)
    requires Grown(scopes, scopes') && i < |scopes| && scopes[0].isFunction
    ensures Owner(scopes', i) == Owner(scopes, i)
    decreases i
  {
    assert scopes'[i].isFunction == scopes[i].isFunction && scopes'[0].isFunction;
    if !scopes[i].isFunction {
      OwnerSame(scopes, scopes', i - 1);
    }
  }

  /** New environments come after those a function already has, whose meaning stays the same. */
  lemma {:induction false} CapturedGrows(scopes: seq<Scope>, scopes': seq<Scope>, i: nat)
    requires Linked(scopes) && Linked(scopes') && Grown(scopes, scopes') && i < |scopes| && scopes[i].isFunction
    ensures scopes'[i].isFunction && Captured(scopes, i) <= Captured(scopes', i)
    decreases i
  {
    assert LinkOk(scopes, i) && scopes'[i].isFunction;
    if i > 0 {
      OwnerSame(scopes, scopes', i - 1);
      CapturedGrows(scopes, scopes', Enclosing(scopes, i));
    }
  }

  /** The environment e, as seen from the innermost function at or below index i, is the frame of
      function o; -1 stands for the frame of that function itself. */
  ghost predicate Reaches(scopes: seq<Scope>, i: nat, e: int, o: nat)
    requires Linked(scopes) && i < |scopes|
  {
    var f := Owner(scopes, i);
    if f == o then e == -1 else 0 <= e < |scopes[f].envs| && Captured(scopes, f)[e] == o
  }

  function WithEnv(scopes: seq<Scope>, i: nat, e: int): seq<Scope>
    requires i < |scopes|
  {
    scopes[i := scopes[i].(envs := scopes[i].envs + [e])]
  }

  lemma GrownWithEnv(scopes: seq<Scope>, i: nat, e: int)
    requires i < |scopes|
    ensures Grown(scopes, WithEnv(scopes, i, e))
  {
  }

  lemma LinkedWithEnv(scopes: seq<Scope>, i: nat, e: int)
    requires Linked(scopes) && 0 < i < |scopes| && scopes[i].isFunction && e !in scopes[i].envs
    requires -1 <= e < |scopes[Enclosing(scopes, i)].envs|
    ensures Linked(WithEnv(scopes, i, e))
  {
    var scopes' := WithEnv(scopes, i, e);
    GrownWithEnv(scopes, i, e);
    forall k: nat | k < |scopes'|
      ensures LinkOk(scopes', k)
    {
      assert LinkOk(scopes, k);
      if k > 0 {
        OwnerSame(scopes, scopes', k - 1);
      }
    }
  }

  /** A function that has, or is given, the entry e for o can reach o through it. */
  lemma LinkFound(scopes: seq<Scope>, i: nat, e: int, o: nat, j: nat)
    requires Linked(scopes) && o < i < |scopes| && scopes[i].isFunction && Reaches(scopes, i - 1, e, o)
    requires j < |scopes[i].envs| && scopes[i].envs[j] == e
    ensures Reaches(scopes, i, j, o)
  {
    assert LinkOk(scopes, i);
  }

  lemma LinkAdded(scopes: seq<Scope>, i: nat, e: int, o: nat)
    requires Linked(scopes) && o < i < |scopes| && scopes[i].isFunction && Reaches(scopes, i - 1, e, o)
    requires e !in scopes[i].envs
    ensures Linked(WithEnv(scopes, i, e)) && Reaches(WithEnv(scopes, i, e), i, |scopes[i].envs|, o)
  {
    var scopes' := WithEnv(scopes, i, e);
    LinkedWithEnv(scopes, i, e);
    GrownWithEnv(scopes, i, e);
    OwnerSame(scopes, scopes', i - 1);
    CapturedGrows(scopes, scopes', Owner(scopes, i - 1));
    LinkFound(scopes', i, e, o, |scopes[i].envs|);
  }

  predicate IsRegister(s: Slot) {
    !s.isConstant && !s.isRef && s.envindex < 0 && s.index >= 0
  }

  /** The register of a slot that has a name or that closures use must not be given away. */
  predicate Pins(pair: SymPair) {
    IsRegister(pair.slot) && (pair.sym.Some? || pair.keep)
  }

  /** The registers that the names of a scope pin are held by all scopes of the same function inside
      it, and those that closures use are upvalues of the function. */
  ghost predicate PinOk(scopes: seq<Scope>, q: nat, pair: SymPair)
    requires q < |scopes| && scopes[0].isFunction
  {
    && (pair.slot.isConstant || pair.slot.isRef || IsRegister(pair.slot)) && (pair.keep ==> IsRegister(pair.slot))
    && (Pins(pair) ==>
      && (forall t: nat {:trigger scopes[t].ra} :: q <= t < |scopes| && Owner(scopes, t) == Owner(scopes, q) ==>
           pair.slot.index in scopes[t].ra.taken)
      && (pair.keep ==> pair.slot.index in scopes[Owner(scopes, q)].upvalues))
  }

  ghost predicate RegistersOk(scopes: seq<Scope>, q: nat)
    requires q < |scopes| && scopes[0].isFunction
  {
    && (forall r :: r in scopes[q].issued ==> r <= scopes[q].ra.max)
    && (forall r :: r in scopes[q].ra.taken ==> !Reserved(r))
    && (forall j {:trigger scopes[q].syms[j]} :: 0 <= j < |scopes[q].syms| ==> PinOk(scopes, q, scopes[q].syms[j]))
  }

  /** The allocator is what the scope says. */
  ghost predicate Models(a: RegisterAllocator, scope: Scope)
    reads a
  {
    && a.Valid() && a.max == scope.ra.max && a.regtemps == scope.ra.temps
    && (forall r: nat {:trigger r in a.taken} :: r in a.taken <==> r in scope.ra.taken || Reserved(r))
    && (forall r: nat {:trigger r in a.issued} :: r in a.issued <==> r in scope.issued)
  }

  ghost predicate Sound(scopes: seq<Scope>) {
    Linked(scopes) && forall q: nat {:trigger RegistersOk(scopes, q)} :: q < |scopes| ==> RegistersOk(scopes, q)
  }

  /** The index of the latest pair with a name. */
  function Latest(syms: seq<SymPair>, sym: string): (r: Option<nat>)
    ensures r.Some? ==> r.value < |syms| && syms[r.value].sym == Some(sym)
    ensures forall j :: 0 <= j < |syms| && (r.Some? ==> j > r.value) ==> syms[j].sym != Some(sym)
  {
    if syms == [] then None
    else if syms[|syms| - 1].sym == Some(sym) then Some(|syms| - 1)
    else Latest(syms[..|syms| - 1], sym)
  }
}
