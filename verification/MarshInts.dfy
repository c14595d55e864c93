/** The two integer encodings of the marshalling format. */
module MarshInts {
  import opened Options

  type Byte = b: int | 0 <= b < 256
  type Int16 = n: int | -0x8000 <= n < 0x8000
  type Int32 = n: int | -0x8000_0000 <= n < 0x8000_0000
  type UInt64 = n: int | 0 <= n < 0x1_0000_0000_0000_0000

  const LB_INTEGER: Byte := 205

  /** A value read at a position, and the position after it. */
  datatype Parsed<+T> = Parsed(value: T, next: nat)

  /** The bytes of a 32-bit integer: one below 128, two for 14 bits, five otherwise. */
  function IntBytes(x: Int32): (r: seq<Byte>)
    ensures 1 <= |r| <= 5
  {
    if 0 <= x < 128 then [x]
    else if -8192 <= x <= 8191 then [x / 256 % 64 + 128, x % 256]
    else [LB_INTEGER, x / 0x100_0000 % 256, x / 0x1_0000 % 256, x / 256 % 256, x % 256]
  }

  function FromWord(u: nat): Int32
    requires u < 0x1_0000_0000
  {
    if u < 0x8000_0000 then u else u - 0x1_0000_0000
  }

  function LongInt(data: seq<Byte>, at: nat): Int32
    requires at + 4 < |data|
  {
    FromWord(data[at + 1] as int * 0x100_0000 + data[at + 2] as int * 0x1_0000 + data[at + 3] as int * 256
      + data[at + 4] as int)
  }

  /** Reads an integer; None stands for the panics on short input and on another lead byte. */
  function ReadInt(data: seq<Byte>, at: nat): Option<Parsed<Int32>> {
    if at >= |data| then None
    else if data[at] < 128 then Some(Parsed(data[at], at + 1))
    else if data[at] < 192 then
      if at + 1 >= |data| then None
      else
        var u := data[at] as int % 64 * 256 + data[at + 1] as int;
        Some(Parsed(if u >= 8192 then u - 16384 else u, at + 2))
    else if data[at] == LB_INTEGER then
      if at + 4 >= |data| then None else Some(Parsed(LongInt(data, at), at + 5))
    else None
  }

  function ReadNat(data: seq<Byte>, at: nat): Option<Parsed<nat>> {
    match ReadInt(data, at)
    case None => None
    case Some(Parsed(n, next)) => if n < 0 then None else Some(Parsed(n, next))
  }

  lemma LongIntBytes(x: Int32)
    ensures FromWord(x / 0x100_0000 % 256 * 0x100_0000 + x / 0x1_0000 % 256 * 0x1_0000 + x / 256 % 256 * 256
            + x % 256) == x
  {
    var a, b, c := x / 256, x / 0x1_0000, x / 0x100_0000;
    assert x == a * 256 + x % 256;
    assert b == a / 256 && a == b * 256 + a % 256;
    assert c == b / 256 && b == c * 256 + b % 256;
    assert c % 256 == if c < 0 then c + 256 else c;
  }

  /** The bytes stand at a position of the input. */
  ghost predicate Occurs(data: seq<Byte>, at: nat, bytes: seq<Byte>) {
    at + |bytes| <= |data| && forall i :: 0 <= i < |bytes| ==> data[at + i] == bytes[i]
  }

  lemma OccursSplit(data: seq<Byte>, at: nat, a: seq<Byte>, b: seq<Byte>)
    requires Occurs(data, at, a + b)
    ensures Occurs(data, at, a) && Occurs(data, at + |a|, b)
  {
    assert forall i :: 0 <= i < |a| ==> (a + b)[i] == a[i];
    assert forall i :: 0 <= i < |b| ==> data[at + |a| + i] == (a + b)[|a| + i] == b[i];
  }

  lemma ShortIntRoundTrip(x: Int32, high: Byte, low: Byte)
    requires -8192 <= x <= 8191 && high == x / 256 % 64 + 128 && low == x % 256
    ensures 128 <= high < 192
    ensures var u := high as int % 64 * 256 + low as int; x == if u >= 8192 then u - 16384 else u
  {
  }

  /** What is written is read back wherever it stands, and the reader stops right behind it. */
  lemma IntRoundTrip(data: seq<Byte>, at: nat, x: Int32)
    requires Occurs(data, at, IntBytes(x))
    ensures ReadInt(data, at) == Some(Parsed(x, at + |IntBytes(x)|))
  {
    var bytes := IntBytes(x);
    assert data[at] == data[at + 0] == bytes[0];
    if 0 <= x < 128 {
    } else if -8192 <= x <= 8191 {
      assert data[at + 1] == bytes[1];
      ShortIntRoundTrip(x, data[at], data[at + 1]);
    } else {
      assert data[at + 1] == bytes[1] && data[at + 2] == bytes[2] && data[at + 3] == bytes[3]
        && data[at + 4] == bytes[4];
      LongIntBytes(x);
      assert LongInt(data, at) == x;
    }
  }

  // 64-bit sizes

  function Pow256(n: nat): nat {
    if n == 0 then 1 else 256 * Pow256(n - 1)
  }

  /** The bytes of x, least significant first and without leading zeros; at most n of them. */
  function LittleEndian(x: nat, n: nat): (r: seq<Byte>)
    requires x < Pow256(n)
    ensures |r| <= n && (x > 0 ==> |r| > 0)
  {
    if x == 0 then [] else [x % 256] + LittleEndian(x / 256, n - 1)
  }

  function FromLittleEndian(bytes: seq<Byte>): nat {
    if bytes == [] then 0 else bytes[0] as int + 256 * FromLittleEndian(bytes[1..])
  }

  /** A size of up to 64 bits: itself up to 0xF0, otherwise a byte count and the bytes. */
  function SizeBytes(x: UInt64): (r: seq<Byte>) {
    Pow256Eight();
    if x <= 0xF0 then [x] else [0xF0 + |LittleEndian(x, 8)|] + LittleEndian(x, 8)
  }

  lemma Pow256Eight()
    ensures Pow256(8) == 0x1_0000_0000_0000_0000
  {
    assert Pow256(4) == 0x1_0000_0000;
  }

  function ReadSize(data: seq<Byte>, at: nat): Option<Parsed<nat>> {
    if at >= |data| then None
    else if data[at] <= 0xF0 then Some(Parsed(data[at], at + 1))
    else
      var count := data[at] as int - 0xF0;
      if count > 8 || at + count >= |data| then None
      else Some(Parsed(FromLittleEndian(data[at + 1..at + 1 + count]), at + 1 + count))
  }

  lemma {:induction false} LittleEndianInverse(x: nat, n: nat)
    requires x < Pow256(n)
    ensures FromLittleEndian(LittleEndian(x, n)) == x
  {
    if x > 0 {
      LittleEndianInverse(x / 256, n - 1);
      assert LittleEndian(x, n)[1..] == LittleEndian(x / 256, n - 1);
    }
  }

  lemma SizeRoundTrip(data: seq<Byte>, at: nat, x: UInt64)
    requires Occurs(data, at, SizeBytes(x))
    ensures ReadSize(data, at) == Some(Parsed(x, at + |SizeBytes(x)|))
  {
    assert data[at] == data[at + 0] == SizeBytes(x)[0];
    if x > 0xF0 {
      Pow256Eight();
      var bytes := LittleEndian(x, 8);
      OccursSplit(data, at, [0xF0 + |bytes|], bytes);
      assert data[at + 1..at + 1 + |bytes|] == bytes;
      LittleEndianInverse(x, 8);
    }
  }

  /** The writing loop of the size encoding. */
  method PushSize(buf: seq<Byte>, x: UInt64) returns (buf': seq<Byte>)
    ensures buf' == buf + SizeBytes(x)
  {
    if x <= 0xF0 {
      buf' := buf + [x];
    } else {
      Pow256Eight();
      var bytes: seq<Byte>, rest: nat := [], x;
      ghost var n: nat := 8;
      while rest != 0
        invariant rest < Pow256(n) && |bytes| + n == 8
        invariant bytes + LittleEndian(rest, n) == LittleEndian(x, 8)
        decreases rest
      {
        bytes := bytes + [rest % 256];
        rest := rest / 256;
        n := n - 1;
      }
      buf' := buf + ([0xF0 + |bytes|] + bytes);
    }
  }

  /** The reading loop of the size encoding. */
  method PullSize(data: seq<Byte>, at: nat) returns (r: Option<Parsed<nat>>)
    ensures r == ReadSize(data, at)
  {
    if at >= |data| { return None; }
    if data[at] <= 0xF0 { return Some(Parsed(data[at], at + 1)); }
    var nbytes := data[at] as int - 0xF0;
    if nbytes > 8 || at + nbytes >= |data| { return None; }
    var ret := 0;
    ghost var bytes := data[at + 1..at + 1 + nbytes];
    for i := nbytes downto 0
      invariant ret == FromLittleEndian(bytes[i..])
    {
      assert bytes[i..][1..] == bytes[i + 1..];
      ret := ret * 256 + data[at + 1 + i] as int;
    }
    return Some(Parsed(ret, at + nbytes + 1));
  }
}
