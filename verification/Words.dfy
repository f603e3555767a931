// Fixed-width integers and their little-endian byte images, as the log file
// holds them (rr_event_t and rr_log_header_t are written out raw on x86-64).
module Words {

  datatype Option<+T> = None | Some(value: T)

  type byte = b: int | 0 <= b < 256

  const U32 := 0x1_0000_0000
  const U64 := 0x1_0000_0000_0000_0000
  const I32_MAX := 0x7FFF_FFFF

  predicate FitsI32(i: int) { -I32_MAX - 1 <= i <= I32_MAX }

  function Pow256(n: nat): nat {
    if n == 0 then 1 else 256 * Pow256(n - 1)
  }

  // The n low-order bytes of v, least significant first.
  function LittleEndian(v: nat, n: nat): (bs: seq<byte>)
    ensures |bs| == n
  {
    if n == 0 then [] else [v % 256] + LittleEndian(v / 256, n - 1)
  }

  function FromLittleEndian(bs: seq<byte>): nat {
    if bs == [] then 0 else bs[0] + 256 * FromLittleEndian(bs[1..])
  }

  lemma {:induction false} LittleEndianRoundTrip(v: nat, n: nat)
    requires v < Pow256(n)
    ensures FromLittleEndian(LittleEndian(v, n)) == v
  {
    if n > 0 {
      var rest := LittleEndian(v / 256, n - 1);
      assert LittleEndian(v, n)[1..] == rest;
      LittleEndianRoundTrip(v / 256, n - 1);
    }
  }

  lemma {:induction false} Widths()
    ensures Pow256(4) == U32
    ensures Pow256(8) == U64
  {
    assert Pow256(4) == 256 * 256 * 256 * Pow256(1);
    assert Pow256(8) == 256 * 256 * 256 * 256 * Pow256(4);
  }

  // Two's complement.
  function ToU32(i: int): (u: nat)
    requires FitsI32(i)
    ensures u < U32
  {
    if i < 0 then i + U32 else i
  }

  // Also (int32_t) of an unsigned 32-bit value.
  function FromU32(u: int): (i: int)
    ensures 0 <= u < U32 ==> FitsI32(i)
  {
    if u > I32_MAX then u - U32 else u
  }

  // (uint64_t): of an int, and of a counter that wraps around.
  function Wrap(n: int): (u: nat)
    ensures u < U64
  {
    n % 0x1_0000_0000_0000_0000
  }

  function Zeros(n: nat): (z: seq<byte>)
    ensures |z| == n
  {
    seq(n, _ => 0)
  }

  function Min(a: nat, b: nat): nat { if a <= b then a else b }

  // A counter that wraps stays congruent to the number of steps.
  lemma {:induction false} WrapSuccessor(n: nat)
    ensures Wrap(Wrap(n) + 1) == Wrap(n + 1)
  {
    if Wrap(n) == U64 - 1 {
      assert (n + 1) / 0x1_0000_0000_0000_0000 == n / 0x1_0000_0000_0000_0000 + 1;
    } else {
      assert (n + 1) / 0x1_0000_0000_0000_0000 == n / 0x1_0000_0000_0000_0000;
    }
  }
}
