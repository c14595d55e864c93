/** The compiler's scope stack as it changes: entering and leaving scopes, naming slots, and resolving
    symbols to slots. */
module Compiler {
  import opened Options
  import opened Regalloc
  import opened Slots
  import opened Scopes

  /** Pair j of scope q has the name. */
  predicate Names(scopes: seq<Scope>, q: nat, j: nat, sym: string) {
    q < |scopes| && j < |scopes[q].syms| && scopes[q].syms[j].sym == Some(sym)
  }

  /** Pair j of scope q has the name, no later pair of that scope has it, and no scope inside has it. */
  ghost predicate Innermost(scopes: seq<Scope>, q: nat, j: nat, sym: string) {
    && Names(scopes, q, j, sym)
    && (forall m: nat :: j < m ==> !Names(scopes, q, m, sym))
    && NamedNowhere(scopes, q + 1, sym)
  }

  /** No scope from the n-th inward has the name. */
  ghost predicate NamedNowhere(scopes: seq<Scope>, n: nat, sym: string) {
    forall k: nat, m: nat :: n <= k ==> !Names(scopes, k, m, sym)
  }

  /** A name that some scope has stands for one pair only. */
  lemma InnermostOnly(scopes: seq<Scope>, q: nat, j: nat, q': nat, j': nat, sym: string)
    requires Innermost(scopes, q, j, sym) && Innermost(scopes, q', j', sym)
    ensures q == q' && j == j' && !NamedNowhere(scopes, 0, sym)
  {
    assert Names(scopes, q, j, sym) && Names(scopes, q', j', sym);
  }

  /** The symbol is found without crossing the boundary of a function. */
  predicate Local(scopes: seq<Scope>, q: nat) {
    forall k :: q < k < |scopes| ==> !scopes[k].isFunction
  }

  /** The code being compiled will be thrown away. */
  predicate Unused(scopes: seq<Scope>, q: nat) {
    exists k :: q <= k < |scopes| && scopes[k].unused
  }

  function UseUpvalue(scope: Scope, index: nat): Scope {
    scope.(needsEnv := true, upvalues := scope.upvalues + {index})
  }

  function KeepPair(scope: Scope, j: nat): Scope
    requires j < |scope.syms|
  {
    scope.(syms := scope.syms[j := scope.syms[j].(keep := true)])
  }

  /** A closure uses the variable at (q, j) of function o. */
  function Kept(scopes: seq<Scope>, q: nat, j: nat, o: nat): seq<Scope>
    requires o <= q < |scopes| && j < |scopes[q].syms| && scopes[q].syms[j].slot.index >= 0
  {
    var s1 := scopes[q := KeepPair(scopes[q], j)];
    s1[o := UseUpvalue(s1[o], scopes[q].syms[j].slot.index)]
  }

  /** The scopes a with more environments, and with more of their variables used by closures. */
  ghost predicate Extends(a: seq<Scope>, b: seq<Scope>) {
    Grown(a, b) && forall k: nat {:trigger b[k]} :: k < |a| ==> ExtendsAt(a[k], b[k])
  }

  ghost predicate ExtendsAt(a: Scope, b: Scope) {
    && b.ra == a.ra && b.issued == a.issued && a.upvalues <= b.upvalues && |b.syms| == |a.syms|
    && forall m :: 0 <= m < |a.syms| ==> b.syms[m].slot == a.syms[m].slot && b.syms[m].sym == a.syms[m].sym
  }

  /** What is newly used by a closure had a name, and is an upvalue now. */
  ghost predicate NewlyKept(a: seq<Scope>, b: seq<Scope>, k: nat, m: nat)
    requires |a| == |b| && k < |a| && |a[k].syms| == |b[k].syms| && m < |a[k].syms| && a[0].isFunction
  {
    b[k].syms[m].keep ==>
      || a[k].syms[m].keep
      || (a[k].syms[m].sym.Some? && IsRegister(a[k].syms[m].slot) && b[k].syms[m].slot.index in b[Owner(a, k)].upvalues)
  }

  lemma SoundExtends(a: seq<Scope>, b: seq<Scope>)
    requires Sound(a) && Linked(b) && Extends(a, b)
    requires forall k: nat, m: nat {:trigger NewlyKept(a, b, k, m)} :: k < |a| && m < |a[k].syms| ==>
             NewlyKept(a, b, k, m)
    ensures Sound(b)
  {
    forall k: nat | k < |a|
      ensures Owner(b, k) == Owner(a, k)
    {
      OwnerSame(a, b, k);
    }
    forall k: nat | k < |b|
      ensures RegistersOk(b, k)
    {
      assert RegistersOk(a, k) && ExtendsAt(a[k], b[k]);
      forall m: nat | m < |b[k].syms|
        ensures PinOk(b, k, b[k].syms[m])
      {
        assert PinOk(a, k, a[k].syms[m]) && NewlyKept(a, b, k, m);
        assert ExtendsAt(a[Owner(a, k)], b[Owner(a, k)]);
        PinExtends(a, b, k, a[k].syms[m], b[k].syms[m]);
      }
    }
  }

  lemma PinExtends(a: seq<Scope>, b: seq<Scope>, k: nat, p: SymPair, p': SymPair)
    requires |a| == |b| && k < |a| && a[0].isFunction && b[0].isFunction
    requires forall t: nat {:trigger b[t]} :: t < |a| ==> ExtendsAt(a[t], b[t])
    requires forall t: nat {:trigger Owner(b, t)} :: t < |a| ==> Owner(b, t) == Owner(a, t)
    requires PinOk(a, k, p) && p'.slot == p.slot && p'.sym == p.sym
    requires p'.keep ==> p.keep || (p.sym.Some? && IsRegister(p.slot) && p'.slot.index in b[Owner(a, k)].upvalues)
    ensures PinOk(b, k, p')
  {
    assert ExtendsAt(a[Owner(a, k)], b[Owner(a, k)]);
    if Pins(p') {
      forall t: nat | k <= t < |b| && Owner(b, t) == Owner(b, k)
        ensures p'.slot.index in b[t].ra.taken
      {
        assert ExtendsAt(a[t], b[t]) && p.slot.index in a[t].ra.taken;
      }
    }
  }

  lemma LinkedSame(a: seq<Scope>, b: seq<Scope>)
    requires Linked(a) && Grown(a, b) && Grown(b, a)
    ensures Linked(b)
  {
    forall i: nat | i < |b|
      ensures LinkOk(b, i)
    {
      assert LinkOk(a, i) && a[i].envs == b[i].envs;
      if i > 0 {
        OwnerSame(a, b, i - 1);
      }
    }
  }

  lemma KeptSound(scopes: seq<Scope>, q: nat, j: nat)
    requires Sound(scopes) && q < |scopes| && j < |scopes[q].syms| && IsRegister(scopes[q].syms[j].slot)
    requires scopes[q].syms[j].sym.Some?
    ensures var after := Kept(scopes, q, j, Owner(scopes, q)); Sound(after) && Extends(scopes, after)
  {
    var after := Kept(scopes, q, j, Owner(scopes, q));
    assert Grown(scopes, after) && Grown(after, scopes);
    LinkedSame(scopes, after);
    forall k: nat, m: nat | k < |scopes| && m < |scopes[k].syms|
      ensures NewlyKept(scopes, after, k, m)
    {
    }
    SoundExtends(scopes, after);
  }

  lemma SoundWithEnv(scopes: seq<Scope>, i: nat, e: int)
    requires Sound(scopes) && i < |scopes| && Linked(WithEnv(scopes, i, e))
    ensures Sound(WithEnv(scopes, i, e)) && Extends(scopes, WithEnv(scopes, i, e))
  {
    var after := WithEnv(scopes, i, e);
    GrownWithEnv(scopes, i, e);
    forall k: nat, m: nat | k < |scopes| && m < |scopes[k].syms|
      ensures NewlyKept(scopes, after, k, m)
    {
    }
    SoundExtends(scopes, after);
  }

  /** Only environments were added. */
  ghost predicate EnvsOnly(a: seq<Scope>, b: seq<Scope>) {
    Grown(a, b) && forall k: nat {:trigger b[k]} :: k < |a| ==> b[k] == a[k].(envs := b[k].envs)
  }

  lemma EnvsOnlyTrans(a: seq<Scope>, b: seq<Scope>, c: seq<Scope>)
    requires EnvsOnly(a, b) && EnvsOnly(b, c)
    ensures EnvsOnly(a, c)
  {
    GrownTrans(a, b, c);
    forall k: nat | k < |a|
      ensures c[k] == a[k].(envs := c[k].envs)
    {
      assert b[k] == a[k].(envs := b[k].envs);
    }
  }

  lemma GrownTrans(a: seq<Scope>, b: seq<Scope>, c: seq<Scope>)
    requires Grown(a, b) && Grown(b, c)
    ensures Grown(a, c)
  {
    forall i: nat | i < |a|
      ensures c[i].isFunction == a[i].isFunction && a[i].envs <= c[i].envs
    {
      assert b[i].isFunction == a[i].isFunction && a[i].envs <= b[i].envs;
    }
  }

  /** Every scope has its own allocator, which is what the scope says. */
  ghost predicate Backed(scopes: seq<Scope>, allocators: seq<RegisterAllocator>)
    reads allocators
  {
    && |allocators| == |scopes|
    && (forall i {:trigger allocators[i]} :: 0 <= i < |scopes| ==> Models(allocators[i], scopes[i]))
    && forall i, j :: 0 <= i < j < |allocators| ==> allocators[i] != allocators[j]
  }

  class Compiler {
    var scopes: seq<Scope>
    var allocators: seq<RegisterAllocator>

    ghost predicate Valid()
      reads this, allocators
    {
      Sound(scopes) && Backed(scopes, allocators)
    }

    /** The environment list of scope i gets an entry for e unless it has one. */
    method LinkScope(i: nat, e: int, ghost o: nat) returns (e': int)
      requires Sound(scopes) && o < i < |scopes| && Reaches(scopes, i - 1, e, o)
      modifies this`scopes
      ensures Sound(scopes) && EnvsOnly(old(scopes), scopes) && Reaches(scopes, i, e', o)
    {
      if !scopes[i].isFunction {
        return e;
      }
      var j := 0;
      while j < |scopes[i].envs|
        invariant j <= |scopes[i].envs| && e !in scopes[i].envs[..j]
      {
        if scopes[i].envs[j] == e {
          LinkFound(scopes, i, e, o, j);
          return j;
        }
        j := j + 1;
      }
      assert scopes[i].envs[..j] == scopes[i].envs;
      LinkAdded(scopes, i, e, o);
      GrownWithEnv(scopes, i, e);
      SoundWithEnv(scopes, i, e);
      e' := |scopes[i].envs|;
      scopes := WithEnv(scopes, i, e);
    }

    /** Every function between o and the innermost scope gets an environment for the frame of o. */
    method Propagate(o: nat) returns (e: int)
      requires Sound(scopes) && o < |scopes| && scopes[o].isFunction
      modifies this`scopes
      ensures Sound(scopes) && EnvsOnly(old(scopes), scopes) && Reaches(scopes, |scopes| - 1, e, o)
    {
      e := -1;
      var i := o + 1;
      while i < |scopes|
        invariant o < i <= |scopes| && Sound(scopes) && EnvsOnly(old(scopes), scopes) && Reaches(scopes, i - 1, e, o)
      {
        ghost var before := scopes;
        e := LinkScope(i, e, o);
        EnvsOnlyTrans(old(scopes), before, scopes);
        i := i + 1;
      }
    }

    method FindIn(scope: Scope, sym: string) returns (r: Option<nat>)
      ensures r == Latest(scope.syms, sym)
    {
      var i := |scope.syms| - 1;
      while i >= 0
        invariant -1 <= i < |scope.syms|
        invariant Latest(scope.syms, sym) == Latest(scope.syms[..i + 1], sym)
      {
        assert scope.syms[..i + 1][..i] == scope.syms[..i];
        if scope.syms[i].sym == Some(sym) {
          return Some(i);
        }
        i := i - 1;
      }
      r := None;
    }

    /** Searches the scopes from the inside out, noting function boundaries and discarded code. */
    method Find(sym: string) returns (r: Option<(nat, nat)>, foundlocal: bool, unused: bool)
      ensures r.None? <==> NamedNowhere(scopes, 0, sym)
      ensures r.Some? ==> Innermost(scopes, r.value.0, r.value.1, sym)
      ensures r.Some? ==> foundlocal == Local(scopes, r.value.0) && unused == Unused(scopes, r.value.0)
    {
      foundlocal, unused := true, false;
      var n: nat := |scopes|;
      while n > 0
        invariant n <= |scopes| && NamedNowhere(scopes, n, sym)
        invariant foundlocal == forall k :: n <= k < |scopes| ==> !scopes[k].isFunction
        invariant unused == exists k :: n <= k < |scopes| && scopes[k].unused
      {
        var q := n - 1;
        if scopes[q].unused {
          unused := true;
        }
        var j := FindIn(scopes[q], sym);
        if j.Some? {
          assert Names(scopes, q, j.value, sym);
          return Some((q, j.value)), foundlocal, unused;
        }
        if scopes[q].isFunction {
          foundlocal := false;
        }
        n := q;
      }
      r := None;
    }

    /** The slot that a symbol stands for: one of its own scopes or of the scopes around it, where a
        variable of an enclosing function becomes an upvalue, or else a global. */
    method Resolve(sym: string, global: Option<Slot>) returns (r: Option<Slot>)
      requires Valid()
      modifies this`scopes
      ensures Valid() && Extends(old(scopes), scopes)
      ensures NamedNowhere(old(scopes), 0, sym) ==> r == global && scopes == old(scopes)
      ensures forall q: nat, j: nat :: Innermost(old(scopes), q, j, sym) ==>
                var slot := old(scopes)[q].syms[j].slot;
                if slot.isConstant || slot.isRef then r == Some(slot) && scopes == old(scopes)
                else if Unused(old(scopes), q) || Local(old(scopes), q) then
                  r == Some(slot.(envindex := -1)) && scopes == old(scopes)
                else
                  && r.Some? && r.value.index == slot.index && r.value == slot.(envindex := r.value.envindex)
                  && scopes[q].syms[j].keep && slot.index in scopes[Owner(scopes, q)].upvalues
                  && scopes[Owner(scopes, q)].needsEnv
                  && UpvalueOf(scopes, r.value.envindex, Owner(scopes, q))
    {
      var found, foundlocal, unused := Find(sym);
      if found.None? {
        ExtendsSelf(scopes);
        return global;
      }
      var (q, j) := found.value;
      var slot := scopes[q].syms[j].slot;
      forall q': nat, j': nat | Innermost(scopes, q', j', sym)
        ensures q' == q && j' == j
      {
        InnermostOnly(scopes, q, j, q', j', sym);
      }
      assert RegistersOk(scopes, q) && PinOk(scopes, q, scopes[q].syms[j]);
      if slot.isConstant || slot.isRef {
        ExtendsSelf(scopes);
        return Some(slot);
      }
      if unused || foundlocal {
        ExtendsSelf(scopes);
        return Some(slot.(envindex := -1));
      }
      var e := Expose(q, j);
      r := Some(slot.(envindex := e));
    }

    /** The function that scope q belongs to. */
    method FunctionOf(q: nat) returns (o: nat)
      requires q < |scopes| && scopes[0].isFunction
      ensures o == Owner(scopes, q)
    {
      o := q;
      while !scopes[o].isFunction
        invariant o <= q && Owner(scopes, q) == Owner(scopes, o)
        decreases o
      {
        o := o - 1;
      }
    }

    /** The variable at (q, j), used by a function inside its own, is exposed to it. */
    method Expose(q: nat, j: nat) returns (e: int)
      requires Sound(scopes) && q < |scopes| && j < |scopes[q].syms| && IsRegister(scopes[q].syms[j].slot)
      requires scopes[q].syms[j].sym.Some? && !Local(scopes, q)
      modifies this`scopes
      ensures Sound(scopes) && Extends(old(scopes), scopes)
      ensures scopes[q].syms[j] == old(scopes)[q].syms[j].(keep := true)
      ensures old(scopes)[q].syms[j].slot.index in scopes[Owner(scopes, q)].upvalues
      ensures scopes[Owner(scopes, q)].needsEnv
      ensures UpvalueOf(scopes, e, Owner(scopes, q))
    {
      var o := FunctionOf(q);
      KeptSound(scopes, q, j);
      scopes := Kept(scopes, q, j, o);
      ghost var kept := scopes;
      e := Propagate(o);
      OwnerSame(old(scopes), kept, q);
      OwnerSame(kept, scopes, q);
      ExtendsTrans(old(scopes), kept, scopes);
      NotLocal(old(scopes), q);
      OwnerSame(old(scopes), scopes, |scopes| - 1);
    }

    /** A compiler starts in the scope of the function that the top level form becomes. */
    constructor ()
      ensures Valid() && scopes == [NewScope(true, false, Registers({}, 0, {}), {})] && fresh(allocators[0])
    {
      scopes := [NewScope(true, false, Registers({}, 0, {}), {})];
      var a := new RegisterAllocator();
      allocators := [a];
    }

    /** A new scope of the same function starts with the registers that are held already. */
    method Enter(isFunction: bool, unused: bool)
      requires Valid()
      modifies this
      ensures Valid()
      ensures |allocators| == |old(allocators)| + 1 && allocators[..|old(allocators)|] == old(allocators)
      ensures fresh(allocators[|old(allocators)|])
      ensures scopes == old(scopes) + [
                if isFunction then NewScope(true, unused, Registers({}, 0, {}), {})
                else NewScope(false, unused, old(scopes)[|old(scopes)| - 1].ra.(temps := {}),
                  old(scopes)[|old(scopes)| - 1].issued)]
    {
      var top := scopes[|scopes| - 1];
      var scope, a;
      if isFunction {
        scope := NewScope(true, unused, Registers({}, 0, {}), {});
        a := new RegisterAllocator();
      } else {
        scope := NewScope(false, unused, top.ra.(temps := {}), top.issued);
        a := new RegisterAllocator.Clone(allocators[|scopes| - 1]);
      }
      EnterSound(scopes, scope);
      scopes, allocators := scopes + [scope], allocators + [a];
    }

    /** Leaves the innermost scope. Within a function, the scope around it takes over the largest
        register, and holds on to the registers that closures use. */
    method Leave()
      requires Valid() && |scopes| > 1
      modifies this, allocators
      ensures Valid() && |scopes| == |old(scopes)| - 1 && scopes[..|scopes| - 1] == old(scopes)[..|old(scopes)| - 2]
      ensures allocators == old(allocators)[..|old(allocators)| - 1]
      ensures var inner, outer := old(scopes)[|old(scopes)| - 1], old(scopes)[|old(scopes)| - 2];
              scopes[|scopes| - 1] == if inner.isFunction || inner.unused then outer
                else Merged(outer, inner, inner.syms)
    {
      var n := |scopes| - 1;
      var inner, outer := scopes[n], scopes[n - 1];
      PrefixSound(scopes);
      ghost var before := scopes;
      if !inner.isFunction && !inner.unused {
        KeptNotReserved(scopes);
        var merged := MergeSyms(outer, inner, allocators[n - 1], allocators[n]);
        LeaveSound(before);
        scopes := scopes[..n][n - 1 := merged];
      } else {
        scopes := scopes[..n];
      }
      allocators := allocators[..n];
    }

    method MergeSyms(outer: Scope, inner: Scope, a: RegisterAllocator, b: RegisterAllocator) returns (merged: Scope)
      requires Models(a, outer) && Models(b, inner) && a != b
      modifies a
      ensures merged == Merged(outer, inner, inner.syms) && Models(a, merged)
    {
      if a.max < b.max {
        a.max := b.max;
      }
      a.issued := a.issued + b.issued;
      merged := Merged(outer, inner, []);
      for i := 0 to |inner.syms|
        invariant merged == Merged(outer, inner, inner.syms[..i]) && Models(a, merged)
      {
        assert inner.syms[..i + 1][..i] == inner.syms[..i];
        var pair := inner.syms[i].(sym := None);
        if pair.keep && pair.slot.index >= 0 {
          a.Touch(pair.slot.index);
          merged := merged.(ra := merged.ra.(taken := merged.ra.taken + {pair.slot.index}));
        }
        merged := merged.(syms := merged.syms + [pair]);
      }
      assert inner.syms[..|inner.syms|] == inner.syms;
    }

    /** The least free register of the innermost scope. No variable that has a name or is used by a
        closure lives there. */
    method Alloc() returns (reg: nat)
      requires Valid()
      modifies this`scopes, allocators
      ensures Valid() && LeastOpen(old(scopes)[|scopes| - 1].ra.taken, reg) && !Pinned(old(scopes), reg)
      ensures scopes == old(scopes)[|old(scopes)| - 1 := Allocated(old(scopes)[|old(scopes)| - 1], reg)]
    {
      var n := |scopes| - 1;
      ghost var was := allocators[n].taken;
      reg := allocators[n].Alloc1();
      LeastOf(was, scopes[n].ra.taken, reg);
      AllocSound(scopes, reg);
      scopes := scopes[n := Allocated(scopes[n], reg)];
    }

    /** A register below 256 for a moment. No variable lives there either. When no register below 240 is
        free it is a reserved one, and the far register that was tried stays taken. */
    method Temp(nth: nat) returns (reg: nat)
      requires Valid() && nth < 8 && nth !in scopes[|scopes| - 1].ra.temps
      modifies this`scopes, allocators
      ensures Valid() && |scopes| == |old(scopes)| && reg < NEAR && !Pinned(old(scopes), reg)
      ensures exists tried: nat :: LeastOpen(old(scopes)[|scopes| - 1].ra.taken, tried) && reg == TempOf(tried, nth)
                && scopes == old(scopes)[|old(scopes)| - 1 := Borrowed(old(scopes)[|old(scopes)| - 1], tried, nth)]
    {
      var n := |scopes| - 1;
      var tried;
      reg, tried := Borrow(allocators[n], scopes[n], nth);
      BorrowSound(scopes, tried, nth);
      scopes := scopes[n := Borrowed(scopes[n], tried, nth)];
    }

    /** The allocator of a scope lends a temporary. */
    static method Borrow(a: RegisterAllocator, scope: Scope, nth: nat) returns (reg: nat, tried: nat)
      requires Models(a, scope) && nth < 8 && nth !in scope.ra.temps
      modifies a
      ensures LeastOpen(scope.ra.taken, tried) && reg == TempOf(tried, nth) && Models(a, Borrowed(scope, tried, nth))
    {
      tried := LeastFree(scope.ra.taken);
      ghost var was := a.taken;
      reg := a.Temp(nth);
      if reg < RESERVED {
        LeastOf(was, scope.ra.taken, reg);
        LeastUnique(scope.ra.taken, tried, reg);
      } else {
        ghost var far :| NEAR <= far && far !in was && (forall r: nat :: r < far ==> r in was)
          && a.taken == was + iset{far};
        LeastOf(was, scope.ra.taken, far);
        LeastUnique(scope.ra.taken, tried, far);
      }
    }

    /** Gives a temporary back. */
    method FreeTemp(reg: nat, nth: nat)
      requires Valid() && (reg in scopes[|scopes| - 1].ra.taken || Reserved(reg)) && !Pinned(scopes, reg)
      modifies this`scopes, allocators
      ensures Valid() && scopes == old(scopes)[|old(scopes)| - 1 := Returned(old(scopes)[|old(scopes)| - 1], reg, nth)]
    {
      var n := |scopes| - 1;
      allocators[n].FreeTemp(reg, nth);
      ReturnSound(scopes, reg, nth);
      scopes := scopes[n := Returned(scopes[n], reg, nth)];
    }

    static method LeastFree(taken: set<nat>) returns (reg: nat)
      ensures LeastOpen(taken, reg)
    {
      ghost var left := taken + set r: nat | r < NEAR && Reserved(r);
      reg := 0;
      while reg in taken || Reserved(reg)
        invariant forall k: nat :: k < reg ==> k in taken || Reserved(k)
        invariant forall k: nat :: k >= reg && (k in taken || Reserved(k)) ==> k in left
        decreases |left|
      {
        left := left - {reg};
        reg := reg + 1;
      }
    }

    /** Names a register that the scope holds, or a constant or reference. */
    method NameSlot(sym: string, slot: Slot)
      requires Valid()
      requires slot.isConstant || slot.isRef || (IsRegister(slot) && slot.index in scopes[|scopes| - 1].ra.taken)
      modifies this`scopes
      ensures Valid() && Innermost(scopes, |scopes| - 1, |old(scopes)[|old(scopes)| - 1].syms|, sym)
      ensures var top := old(scopes)[|old(scopes)| - 1];
              scopes == old(scopes)[|old(scopes)| - 1 := top.(syms := top.syms + [SymPair(slot, Some(sym), false)])]
    {
      var top := scopes[|scopes| - 1];
      var pair := SymPair(slot, Some(sym), false);
      HeldByTop(scopes);
      assert RegistersOk(scopes, |scopes| - 1);
      TopSound(scopes, top.(syms := top.syms + [pair]), [pair]);
      scopes := scopes[|scopes| - 1 := top.(syms := top.syms + [pair])];
    }

    /** Gives back the register of a slot; constants, references, named slots and upvalues stay. */
    method FreeSlot(slot: Slot, named: bool)
      requires Valid()
      requires slot.isConstant || slot.isRef || named || slot.envindex >= 0
               || (IsRegister(slot) && slot.index in scopes[|scopes| - 1].ra.taken && !Pinned(scopes, slot.index))
      modifies this`scopes, allocators
      ensures Valid()
      ensures slot.isConstant || slot.isRef || named || slot.envindex >= 0 ==> scopes == old(scopes)
      ensures !slot.isConstant && !slot.isRef && !named && slot.envindex < 0 ==>
                scopes == old(scopes)[|old(scopes)| - 1 := Freed(old(scopes)[|old(scopes)| - 1], slot.index)]
    {
      if slot.isConstant || slot.isRef || named { return; }
      if slot.envindex >= 0 { return; }
      var n := |scopes| - 1;
      assert RegistersOk(scopes, n);
      allocators[n].Free(slot.index);
      FreeSound(scopes, slot.index);
      scopes := scopes[n := Freed(scopes[n], slot.index)];
    }

    /** The end of a function: its slots cover every register and every temporary handed out in its code,
        and its environments are those that its closures and upvalue slots refer to by number. */
    method PopFuncdef() returns (slotcount: nat, environments: seq<int>, upvalues: set<nat>)
      requires Valid() && |scopes| > 1 && scopes[|scopes| - 1].isFunction
      modifies this, allocators
      ensures Valid() && scopes == old(scopes)[..|old(scopes)| - 1]
      ensures slotcount == old(scopes)[|old(scopes)| - 1].ra.max + 1
      ensures var issued := old(scopes)[|old(scopes)| - 1].issued; forall r :: r in issued ==> r < slotcount
      ensures var issued := old(allocators[|allocators| - 1].issued); forall r: nat :: r in issued ==> r < slotcount
      ensures environments == old(scopes)[|old(scopes)| - 1].envs && upvalues == old(scopes)[|old(scopes)| - 1].upvalues
    {
      var n := |scopes| - 1;
      assert RegistersOk(scopes, n) && Models(allocators[n], scopes[n]);
      slotcount := allocators[n].max + 1;
      environments, upvalues := scopes[n].envs, scopes[n].upvalues;
      Leave();
    }
  }

  /** Environment e of the innermost function is the frame of function o. */
  ghost predicate UpvalueOf(scopes: seq<Scope>, e: int, o: nat)
    requires Linked(scopes)
  {
    var f := Owner(scopes, |scopes| - 1);
    0 <= e < |scopes[f].envs| && Captured(scopes, f)[e] == o
  }

  lemma NotLocal(scopes: seq<Scope>, q: nat)
    requires |scopes| > 0 && scopes[0].isFunction && !Local(scopes, q)
    ensures Owner(scopes, |scopes| - 1) > q
  {
  }

  lemma ExtendsSelf(a: seq<Scope>)
    ensures Extends(a, a)
  {
  }

  lemma ExtendsTrans(a: seq<Scope>, b: seq<Scope>, c: seq<Scope>)
    requires Extends(a, b) && EnvsOnly(b, c)
    ensures Extends(a, c)
  {
    GrownTrans(a, b, c);
    forall k: nat | k < |a|
      ensures ExtendsAt(a[k], c[k])
    {
      assert ExtendsAt(a[k], b[k]) && c[k] == b[k].(envs := c[k].envs);
    }
  }

  function NewScope(isFunction: bool, unused: bool, ra: Registers, issued: set<nat>): Scope {
    Scope(isFunction, unused, false, [], [], ra, {}, issued)
  }

  /** The least register that is neither taken nor reserved. */
  predicate LeastOpen(taken: set<nat>, reg: nat) {
    reg !in taken && !Reserved(reg) && forall k: nat :: k < reg ==> k in taken || Reserved(k)
  }

  lemma LeastOf(was: iset<nat>, taken: set<nat>, reg: nat)
    requires (forall r: nat {:trigger r in was} :: r in was <==> r in taken || Reserved(r)) && reg !in was
             && forall r: nat :: r < reg ==> r in was
    ensures LeastOpen(taken, reg)
  {
    forall k: nat | k < reg
      ensures k in taken || Reserved(k)
    {
      assert k in was;
    }
  }

  lemma LeastUnique(taken: set<nat>, reg: nat, reg': nat)
    requires LeastOpen(taken, reg) && LeastOpen(taken, reg')
    ensures reg == reg'
  {
  }

  /** The register that a temporary gets when the least free one is tried. */
  function TempOf(tried: nat, nth: nat): nat {
    if tried >= NEAR then RESERVED + nth else tried
  }

  function Borrowed(scope: Scope, tried: nat, nth: nat): Scope {
    var reg := TempOf(tried, nth);
    scope.(ra := Registers(scope.ra.taken + {tried}, if reg > scope.ra.max then reg else scope.ra.max,
      scope.ra.temps + {nth}),
           issued := scope.issued + {reg})
  }

  function Freed(scope: Scope, reg: nat): Scope {
    scope.(ra := scope.ra.(taken := scope.ra.taken - {reg}))
  }

  function Returned(scope: Scope, reg: nat, nth: nat): Scope {
    var freed := if reg < RESERVED then Freed(scope, reg) else scope;
    freed.(ra := freed.ra.(temps := freed.ra.temps - {nth}))
  }

  function Allocated(scope: Scope, reg: nat): Scope {
    scope.(ra := scope.ra.(taken := scope.ra.taken + {reg}, max := if reg > scope.ra.max then reg else scope.ra.max),
           issued := scope.issued + {reg})
  }

  /** The outer scope after some of the names of the inner one have moved to it. */
  function Merged(outer: Scope, inner: Scope, pairs: seq<SymPair>): Scope {
    if pairs == [] then
      outer.(ra := outer.ra.(max := if outer.ra.max < inner.ra.max then inner.ra.max else outer.ra.max),
             issued := outer.issued + inner.issued)
    else
      var before := Merged(outer, inner, pairs[..|pairs| - 1]);
      var pair := pairs[|pairs| - 1].(sym := None);
      var taken := if pair.keep && pair.slot.index >= 0 then before.ra.taken + {pair.slot.index} else before.ra.taken;
      before.(ra := before.ra.(taken := taken), syms := before.syms + [pair])
  }

  lemma {:induction false} MergedIs(outer: Scope, inner: Scope, pairs: seq<SymPair>)
    ensures var m := Merged(outer, inner, pairs);
            && m.isFunction == outer.isFunction && m.envs == outer.envs && m.upvalues == outer.upvalues
            && outer.ra.taken <= m.ra.taken && m.ra.max >= outer.ra.max && m.ra.max >= inner.ra.max
            && m.issued == outer.issued + inner.issued
            && |m.syms| == |outer.syms| + |pairs| && m.syms[..|outer.syms|] == outer.syms
            && (forall j :: 0 <= j < |pairs| ==> m.syms[|outer.syms| + j] == pairs[j].(sym := None))
            && (forall j :: 0 <= j < |pairs| && pairs[j].keep && pairs[j].slot.index >= 0 ==>
                 pairs[j].slot.index in m.ra.taken)
            && (forall r :: r in m.ra.taken ==>
                 r in outer.ra.taken || exists j :: 0 <= j < |pairs| && pairs[j].keep && pairs[j].slot.index == r)
  {
    if pairs != [] {
      MergedIs(outer, inner, pairs[..|pairs| - 1]);
    }
  }

  lemma {:induction false} OwnerPrefix(scopes: seq<Scope>, n: nat, i: nat)
    requires i < n <= |scopes| && scopes[0].isFunction
    ensures Owner(scopes[..n], i) == Owner(scopes, i)
    decreases i
  {
    if !scopes[i].isFunction {
      OwnerPrefix(scopes, n, i - 1);
    }
  }

  lemma PrefixSound(scopes: seq<Scope>)
    requires Sound(scopes) && |scopes| > 1
    ensures Sound(scopes[..|scopes| - 1])
  {
    var n := |scopes| - 1;
    var left := scopes[..n];
    forall i: nat | i < n
      ensures Owner(left, i) == Owner(scopes, i)
    {
      OwnerPrefix(scopes, n, i);
    }
    forall i: nat | i < n
      ensures LinkOk(left, i)
    {
      assert LinkOk(scopes, i);
    }
    forall q: nat | q < n
      ensures RegistersOk(left, q)
    {
      assert RegistersOk(scopes, q);
      forall m | 0 <= m < |left[q].syms|
        ensures PinOk(left, q, left[q].syms[m])
      {
        assert PinOk(scopes, q, scopes[q].syms[m]);
        assert forall t: nat :: t < n ==> left[t].ra == scopes[t].ra;
      }
    }
  }

  /** Some variable of the function being compiled, with a name or used by a closure, lives in reg. */
  ghost predicate Pinned(scopes: seq<Scope>, reg: int)
    requires Linked(scopes)
  {
    exists q: nat, m: nat {:trigger scopes[q].syms[m]} ::
      && q < |scopes| && Owner(scopes, q) == Owner(scopes, |scopes| - 1) && m < |scopes[q].syms|
      && Pins(scopes[q].syms[m]) && scopes[q].syms[m].slot.index == reg
  }

  lemma NotPinned(scopes: seq<Scope>, reg: nat)
    requires Sound(scopes) && reg !in scopes[|scopes| - 1].ra.taken
    ensures !Pinned(scopes, reg)
  {
    forall q: nat, m: nat | q < |scopes| && Owner(scopes, q) == Owner(scopes, |scopes| - 1) && m < |scopes[q].syms|
      && Pins(scopes[q].syms[m])
      ensures scopes[q].syms[m].slot.index != reg
    {
      assert RegistersOk(scopes, q) && PinOk(scopes, q, scopes[q].syms[m]);
      assert scopes[|scopes| - 1].ra.taken == scopes[|scopes| - 1].ra.taken;
    }
  }

  /** The variables of the function being compiled live in registers of the set. */
  ghost predicate KeepsPins(scopes: seq<Scope>, taken: set<nat>)
    requires Linked(scopes)
  {
    forall q: nat, m: nat {:trigger scopes[q].syms[m]} ::
      (q < |scopes| && Owner(scopes, q) == Owner(scopes, |scopes| - 1) && m < |scopes[q].syms|
        && Pins(scopes[q].syms[m]))
      ==> scopes[q].syms[m].slot.index in taken
  }

  ghost predicate PairFits(pair: SymPair, taken: set<nat>, upvalues: set<nat>) {
    && (pair.slot.isConstant || pair.slot.isRef || IsRegister(pair.slot)) && (pair.keep ==> IsRegister(pair.slot))
    && (Pins(pair) ==> pair.slot.index in taken && (pair.keep ==> pair.slot.index in upvalues))
  }

  /** Changes to the innermost scope that take no register away from its variables. */
  lemma TopSound(scopes: seq<Scope>, top: Scope, more: seq<SymPair>)
    requires Sound(scopes)
    requires var was := scopes[|scopes| - 1];
             && top.isFunction == was.isFunction && top.envs == was.envs && top.upvalues == was.upvalues
             && top.syms == was.syms + more
    requires KeepsPins(scopes, top.ra.taken)
    requires (forall r :: r in top.issued ==> r <= top.ra.max) && forall r :: r in top.ra.taken ==> !Reserved(r)
    requires forall j :: 0 <= j < |more| ==>
             PairFits(more[j], top.ra.taken, scopes[Owner(scopes, |scopes| - 1)].upvalues)
    ensures Sound(scopes[|scopes| - 1 := top])
  {
    var n := |scopes| - 1;
    var after := scopes[n := top];
    assert Grown(scopes, after) && Grown(after, scopes);
    LinkedSame(scopes, after);
    forall i: nat | i < |scopes|
      ensures Owner(after, i) == Owner(scopes, i)
    {
      OwnerSame(scopes, after, i);
    }
    forall q: nat | q < |after|
      ensures RegistersOk(after, q)
    {
      assert RegistersOk(scopes, q);
      forall m: nat | m < |after[q].syms|
        ensures PinOk(after, q, after[q].syms[m])
      {
        if m < |scopes[q].syms| {
          assert PinOk(scopes, q, scopes[q].syms[m]);
          TopPin(scopes, top, q, m);
        } else {
          assert after[q].syms[m] == more[m - |scopes[n].syms|];
        }
      }
    }
  }

  lemma TopPin(scopes: seq<Scope>, top: Scope, q: nat, m: nat)
    requires Sound(scopes) && q < |scopes| && m < |scopes[q].syms| && PinOk(scopes, q, scopes[q].syms[m])
    requires var after := scopes[|scopes| - 1 := top];
             && after[0].isFunction
             && (forall i: nat {:trigger Owner(after, i)} :: i < |scopes| ==> Owner(after, i) == Owner(scopes, i))
    requires top.upvalues == scopes[|scopes| - 1].upvalues
    requires Owner(scopes, q) == Owner(scopes, |scopes| - 1) && Pins(scopes[q].syms[m]) ==>
             scopes[q].syms[m].slot.index in top.ra.taken
    ensures PinOk(scopes[|scopes| - 1 := top], q, scopes[q].syms[m])
  {
    var after, pair := scopes[|scopes| - 1 := top], scopes[q].syms[m];
    if Pins(pair) {
      forall t: nat | q <= t < |after| && Owner(after, t) == Owner(after, q)
        ensures pair.slot.index in after[t].ra.taken
      {
        if t < |scopes| - 1 {
          assert pair.slot.index in scopes[t].ra.taken;
        }
      }
    }
  }

  /** The names of the innermost function keep their registers when the scope holds more. */
  lemma HeldByTop(scopes: seq<Scope>)
    requires Sound(scopes)
    ensures KeepsPins(scopes, scopes[|scopes| - 1].ra.taken)
  {
    forall q: nat, m: nat | q < |scopes| && Owner(scopes, q) == Owner(scopes, |scopes| - 1) && m < |scopes[q].syms|
      && Pins(scopes[q].syms[m])
      ensures scopes[q].syms[m].slot.index in scopes[|scopes| - 1].ra.taken
    {
      assert RegistersOk(scopes, q) && PinOk(scopes, q, scopes[q].syms[m]);
      assert scopes[|scopes| - 1].ra.taken == scopes[|scopes| - 1].ra.taken;
    }
  }

  lemma FreeSound(scopes: seq<Scope>, reg: nat)
    requires Sound(scopes) && !Pinned(scopes, reg)
    ensures Sound(scopes[|scopes| - 1 := Freed(scopes[|scopes| - 1], reg)])
  {
    HeldByTop(scopes);
    assert RegistersOk(scopes, |scopes| - 1);
    TopSound(scopes, Freed(scopes[|scopes| - 1], reg), []);
  }

  lemma ReturnSound(scopes: seq<Scope>, reg: nat, nth: nat)
    requires Sound(scopes) && !Pinned(scopes, reg)
    ensures Sound(scopes[|scopes| - 1 := Returned(scopes[|scopes| - 1], reg, nth)])
  {
    HeldByTop(scopes);
    assert RegistersOk(scopes, |scopes| - 1);
    TopSound(scopes, Returned(scopes[|scopes| - 1], reg, nth), []);
  }

  lemma AllocSound(scopes: seq<Scope>, reg: nat)
    requires Sound(scopes) && LeastOpen(scopes[|scopes| - 1].ra.taken, reg)
    ensures Sound(scopes[|scopes| - 1 := Allocated(scopes[|scopes| - 1], reg)]) && !Pinned(scopes, reg)
  {
    NotPinned(scopes, reg);
    HeldByTop(scopes);
    assert RegistersOk(scopes, |scopes| - 1);
    TopSound(scopes, Allocated(scopes[|scopes| - 1], reg), []);
  }

  lemma BorrowSound(scopes: seq<Scope>, tried: nat, nth: nat)
    requires Sound(scopes) && LeastOpen(scopes[|scopes| - 1].ra.taken, tried) && nth < 8
    ensures Sound(scopes[|scopes| - 1 := Borrowed(scopes[|scopes| - 1], tried, nth)])
    ensures !Pinned(scopes, TempOf(tried, nth))
  {
    HeldByTop(scopes);
    assert RegistersOk(scopes, |scopes| - 1);
    TopSound(scopes, Borrowed(scopes[|scopes| - 1], tried, nth), []);
    NotPinned(scopes, TempOf(tried, nth));
  }

  /** The registers that closures use are not reserved ones. */
  lemma KeptNotReserved(scopes: seq<Scope>)
    requires Sound(scopes)
    ensures var top := scopes[|scopes| - 1];
            forall j :: 0 <= j < |top.syms| && top.syms[j].keep ==>
              IsRegister(top.syms[j].slot) && !Reserved(top.syms[j].slot.index)
  {
    var n := |scopes| - 1;
    assert RegistersOk(scopes, n);
    forall j | 0 <= j < |scopes[n].syms| && scopes[n].syms[j].keep
      ensures IsRegister(scopes[n].syms[j].slot) && !Reserved(scopes[n].syms[j].slot.index)
    {
      assert PinOk(scopes, n, scopes[n].syms[j]);
      assert scopes[n].syms[j].slot.index in scopes[n].ra.taken;
    }
  }

  lemma EnterSound(scopes: seq<Scope>, scope: Scope)
    requires Sound(scopes) && scope.syms == [] && scope.envs == []
    requires scope.isFunction
             || (scope.ra == scopes[|scopes| - 1].ra.(temps := {}) && scope.issued == scopes[|scopes| - 1].issued)
    requires scope.isFunction ==> scope.issued == {} && scope.ra.taken == {}
    ensures Sound(scopes + [scope])
  {
    var n, after := |scopes|, scopes + [scope];
    assert after[..n] == scopes;
    forall i: nat | i < n
      ensures Owner(after, i) == Owner(scopes, i)
    {
      OwnerPrefix(after, n, i);
    }
    forall i: nat | i < |after|
      ensures LinkOk(after, i)
    {
      assert i < n ==> LinkOk(scopes, i);
    }
    HeldByTop(scopes);
    forall q: nat | q < |after|
      ensures RegistersOk(after, q)
    {
      assert RegistersOk(scopes, if q < n then q else n - 1);
      forall m: nat | m < |after[q].syms|
        ensures PinOk(after, q, after[q].syms[m])
      {
        assert PinOk(scopes, q, scopes[q].syms[m]);
        EnterPin(scopes, scope, q, m);
      }
    }
  }

  lemma EnterPin(scopes: seq<Scope>, scope: Scope, q: nat, m: nat)
    requires Sound(scopes) && q < |scopes| && m < |scopes[q].syms| && PinOk(scopes, q, scopes[q].syms[m])
    requires scope.isFunction || scope.ra.taken == scopes[|scopes| - 1].ra.taken
    requires forall i: nat {:trigger Owner(scopes + [scope], i)} :: i < |scopes| ==>
             Owner(scopes + [scope], i) == Owner(scopes, i)
    requires Owner(scopes, q) == Owner(scopes, |scopes| - 1) && Pins(scopes[q].syms[m]) ==>
             scopes[q].syms[m].slot.index in scopes[|scopes| - 1].ra.taken
    ensures PinOk(scopes + [scope], q, scopes[q].syms[m])
  {
    var after, pair := scopes + [scope], scopes[q].syms[m];
    if Pins(pair) {
      forall t: nat | q <= t < |after| && Owner(after, t) == Owner(after, q)
        ensures pair.slot.index in after[t].ra.taken
      {
        if t < |scopes| {
          assert pair.slot.index in scopes[t].ra.taken;
        } else {
          assert Owner(after, t) == if scope.isFunction then t else Owner(after, t - 1);
        }
      }
    }
  }

  lemma LeaveSound(scopes: seq<Scope>)
    requires Sound(scopes) && |scopes| > 1 && !scopes[|scopes| - 1].isFunction && Sound(scopes[..|scopes| - 1])
    ensures var n := |scopes| - 1;
            Sound(scopes[..n][n - 1 := Merged(scopes[n - 1], scopes[n], scopes[n].syms)])
  {
    var n := |scopes| - 1;
    var outer, inner, left := scopes[n - 1], scopes[n], scopes[..n];
    var merged := Merged(outer, inner, inner.syms);
    MergedIs(outer, inner, inner.syms);
    HeldByTop(left);
    assert RegistersOk(scopes, n) && RegistersOk(scopes, n - 1);
    OwnerPrefix(scopes, n, n - 1);
    var more := merged.syms[|outer.syms|..];
    assert merged.syms == outer.syms + more;
    forall j | 0 <= j < |more|
      ensures PairFits(more[j], merged.ra.taken, left[Owner(left, n - 1)].upvalues)
    {
      assert more[j] == inner.syms[j].(sym := None) && PinOk(scopes, n, inner.syms[j]);
    }
    forall r | r in merged.ra.taken
      ensures !Reserved(r)
    {
      if r !in outer.ra.taken {
        var j :| 0 <= j < |inner.syms| && inner.syms[j].keep && inner.syms[j].slot.index == r;
        assert PinOk(scopes, n, inner.syms[j]);
        assert r in scopes[n].ra.taken;
      }
    }
    TopSound(left, merged, more);
  }
}
