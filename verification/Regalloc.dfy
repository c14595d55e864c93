/** The compiler's register allocator: a growing bitset of 32-bit chunks in which
    registers 240-255 are reserved, refined to a set of registers. */
module Regalloc {

  const RESERVED := 0xF0
  const NEAR := 0x100

  /** A 32-bit chunk, as its bits from the least significant one up. */
  type Chunk = c: seq<bool> | |c| == 32 witness seq(32, i => false)

  predicate Reserved(reg: nat) {
    RESERVED <= reg < NEAR
  }

  /** The chunk that pushchunk appends as number count. */
  function NewChunk(count: nat): Chunk {
    seq(32, i => count == 7 && 16 <= i)
  }

  /** Whether reg is taken: its bit is set, or its chunk has not been pushed and it is reserved. */
  predicate Holds(chunks: seq<Chunk>, reg: nat) {
    if reg / 32 < |chunks| then chunks[reg / 32][reg % 32] else Reserved(reg)
  }

  function WithBit(chunks: seq<Chunk>, reg: nat, on: bool): seq<Chunk>
    requires reg / 32 < |chunks|
  {
    chunks[reg / 32 := chunks[reg / 32][reg % 32 := on]]
  }

  /** Growing the bitset changes no answer: the new chunk holds just the reserved registers. */
  lemma PushHolds(chunks: seq<Chunk>, reg: nat)
    ensures Holds(chunks + [NewChunk(|chunks|)], reg) <==> Holds(chunks, reg)
  {
  }

  /** Writing one bit changes the answer for that register alone. */
  lemma WithBitHolds(chunks: seq<Chunk>, reg: nat, on: bool, other: nat)
    requires reg / 32 < |chunks|
    ensures Holds(WithBit(chunks, reg, on), other) <==> if other == reg then on else Holds(chunks, other)
  {
    if other != reg && other / 32 == reg / 32 {
      assert other % 32 != reg % 32;
    }
  }

  /** The index of the least zero bit of a chunk that is not all ones. */
  method CountTrailingOnes(x: Chunk) returns (n: nat)
    requires false in x
    ensures n < 32 && !x[n]
    ensures forall m :: 0 <= m < n ==> x[m]
  {
    n := 0;
    while x[n]
      invariant n < 32 && false in x[n..]
      invariant forall m :: 0 <= m < n ==> x[m]
      decreases 32 - n
    {
      n := n + 1;
    }
  }

  class RegisterAllocator {
    var chunks: seq<Chunk>
    var max: nat
    var regtemps: set<nat>
    /** The taken registers, and every register that was ever handed out. */
    ghost var taken: iset<nat>
    ghost var issued: iset<nat>

    /** The bitset is the set of taken registers, the reserved ones are never given back, and max
        bounds every register that was handed out. */
    ghost predicate Valid()
      reads this
    {
      && (forall r: nat {:trigger Holds(chunks, r)} :: Holds(chunks, r) <==> r in taken)
      && (forall r: nat {:trigger Reserved(r)} :: Reserved(r) ==> r in taken)
      && (forall r: nat :: r in issued ==> r <= max)
    }

    constructor ()
      ensures Valid() && max == 0 && regtemps == {} && issued == iset{}
      ensures taken == iset r: nat | Reserved(r)
    {
      chunks, max, regtemps := [], 0, {};
      taken, issued := iset r: nat | Reserved(r), iset{};
    }

    /** A copy of src whose temporaries are all free again. */
    constructor Clone(src: RegisterAllocator)
      requires src.Valid()
      ensures Valid() && max == src.max && regtemps == {} && taken == src.taken && issued == src.issued
    {
      chunks, max, regtemps := src.chunks, src.max, {};
      taken, issued := src.taken, src.issued;
    }

    method PushChunk()
      requires Valid()
      modifies this`chunks
      ensures Valid() && chunks == old(chunks) + [NewChunk(old(|chunks|))]
    {
      forall r: nat {
        PushHolds(chunks, r);
      }
      chunks := chunks + [NewChunk(|chunks|)];
    }

    method GrowTo(reg: nat)
      requires Valid()
      modifies this`chunks
      ensures Valid() && reg / 32 < |chunks|
    {
      while reg / 32 >= |chunks|
        invariant Valid()
      {
        PushChunk();
      }
    }

    method Touch(reg: nat)
      requires Valid()
      modifies this`chunks, this`taken
      ensures Valid() && taken == old(taken) + iset{reg}
    {
      GrowTo(reg);
      forall r: nat {
        WithBitHolds(chunks, reg, true, r);
      }
      chunks, taken := WithBit(chunks, reg, true), taken + iset{reg};
    }

    /** Taking a register out: the least free one, so never a reserved one. */
    method Alloc1() returns (reg: nat)
      requires Valid()
      modifies this`chunks, this`max, this`taken, this`issued
      ensures Valid() && reg !in old(taken) && !Reserved(reg)
      ensures forall r: nat :: r < reg ==> r in old(taken)
      ensures taken == old(taken) + iset{reg} && issued == old(issued) + iset{reg}
      ensures max == if reg > old(max) then reg else old(max)
    {
      var chunk := FirstOpenChunk();
      var bit := 0;
      if chunk < |chunks| {
        bit := CountTrailingOnes(chunks[chunk]);
      } else {
        PushChunk();
      }
      reg := chunk * 32 + bit;
      LeastFree(old(chunks), chunk, bit);
      assert !Holds(chunks, reg);
      forall r: nat | r < reg
        ensures r in taken
      {
        assert Holds(old(chunks), r);
      }
      forall r: nat {
        WithBitHolds(chunks, reg, true, r);
      }
      chunks, taken, issued := WithBit(chunks, reg, true), taken + iset{reg}, issued + iset{reg};
      if reg > max {
        max := reg;
      }
    }

    method FirstOpenChunk() returns (chunk: nat)
      ensures chunk <= |chunks| && (chunk < |chunks| ==> false in chunks[chunk])
      ensures forall c :: 0 <= c < chunk ==> false !in chunks[c]
    {
      chunk := 0;
      while chunk < |chunks| && false !in chunks[chunk]
        invariant chunk <= |chunks|
        invariant forall c :: 0 <= c < chunk ==> false !in chunks[c]
      {
        chunk := chunk + 1;
      }
    }

    /** Only a register that was taken and not given back since may be freed. */
    method Free(reg: nat)
      requires Valid() && reg in taken && !Reserved(reg)
      modifies this`chunks, this`taken
      ensures Valid() && taken == old(taken) - iset{reg}
    {
      assert Holds(chunks, reg);
      forall r: nat {
        WithBitHolds(chunks, reg, false, r);
      }
      chunks, taken := WithBit(chunks, reg, false), taken - iset{reg};
    }

    method Check(reg: nat) returns (set_: bool)
      requires Valid()
      modifies this`chunks
      ensures Valid() && (set_ <==> reg in taken)
    {
      GrowTo(reg);
      set_ := chunks[reg / 32][reg % 32];
      assert Holds(chunks, reg) == set_;
    }

    /** A register below 256: the least free one, or the nth reserved one when no register
        below 240 is free. In that case the far register that was tried stays taken. */
    method Temp(nth: nat) returns (reg: nat)
      requires Valid() && nth < 8 && nth !in regtemps
      modifies this
      ensures Valid() && regtemps == old(regtemps) + {nth}
      ensures reg < NEAR && reg in taken && (reg in old(taken) ==> reg == RESERVED + nth)
      ensures max == (if reg > old(max) then reg else old(max)) && issued == old(issued) + iset{reg}
      ensures reg < RESERVED ==> taken == old(taken) + iset{reg} && reg !in old(taken) && forall r: nat :: r < reg ==>
              r in old(taken)
      ensures reg >= RESERVED ==>
                && reg == RESERVED + nth
                && (forall r: nat :: r < NEAR ==> r in old(taken))
                && exists far :: && NEAR <= far && far !in old(taken) && (forall r: nat :: r < far ==> r in old(taken))
                                 && taken == old(taken) + iset{far}
    {
      var oldmax := max;
      ghost var oldissued := issued;
      regtemps := regtemps + {nth};
      reg := Alloc1();
      if reg > 0xFF {
        assert Reserved(0xF0 + nth);
        reg := 0xF0 + nth;
        max := if reg > oldmax then reg else oldmax;
        issued := oldissued + iset{reg};
      }
    }

    method FreeTemp(reg: nat, nth: nat)
      requires Valid() && reg in taken
      modifies this`chunks, this`regtemps, this`taken
      ensures Valid() && regtemps == old(regtemps) - {nth}
      ensures taken == if reg < RESERVED then old(taken) - iset{reg} else old(taken)
    {
      regtemps := regtemps - {nth};
      if reg < 0xF0 {
        Free(reg);
      }
    }
  }

  /** When the chunks before the given one are full and so are the bits before the given one, every
      register before that bit is taken. */
  lemma LeastFree(chunks: seq<Chunk>, chunk: nat, bit: nat)
    requires chunk <= |chunks| && bit < 32 && (chunk == |chunks| ==> bit == 0)
    requires forall c :: 0 <= c < chunk ==> false !in chunks[c]
    requires chunk < |chunks| ==> forall m :: 0 <= m < bit ==> chunks[chunk][m]
    ensures (chunk * 32 + bit) / 32 == chunk && (chunk * 32 + bit) % 32 == bit
    ensures forall r: nat :: r < chunk * 32 + bit ==> Holds(chunks, r)
  {
    forall r: nat | r < chunk * 32 + bit
      ensures Holds(chunks, r)
    {
      if r / 32 < chunk {
        assert chunks[r / 32][r % 32] in chunks[r / 32];
      }
    }
  }
}
