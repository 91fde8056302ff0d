/**
 32-bit IPv4 arithmetic as the two packages write it: ors and ands over host masks built by
 shifting, in uint32 and in uint64, and what they mean on the numbers.
 */
module Ipv4 {
  const WIDTH := 32
  const LIMIT := 0x1_0000_0000

  type Address = a: nat | a < LIMIT

  function Pow2(n: nat): (p: nat)
    ensures p > 0
  {
    if n == 0 then 1 else 2 * Pow2(n - 1)
  }

  /** Conversion to uint32. */
  function U32(x: int): Address {
    x % LIMIT
  }

  function BitOr(a: nat, b: nat): nat
    decreases a + b
  {
    if a == 0 then b
    else if b == 0 then a
    else (if a % 2 == 1 || b % 2 == 1 then 1 else 0) + 2 * BitOr(a / 2, b / 2)
  }

  function BitAnd(a: nat, b: nat): nat
    decreases a + b
  {
    if a == 0 || b == 0 then 0
    else (if a % 2 == 1 && b % 2 == 1 then 1 else 0) + 2 * BitAnd(a / 2, b / 2)
  }

  /** The mask of the allocator: 1 shifted left in uint32, minus 1, wrapping. */
  function ShiftedMask(bits: nat): Address
    requires bits <= WIDTH
  {
    U32(U32(Pow2(WIDTH - bits)) - 1)
  }

  /** The mask of the host configuration: 1 shifted left in uint64, minus 1, converted. */
  function WideMask(bits: nat): Address
    requires bits <= WIDTH
  {
    U32(Pow2(WIDTH - bits) - 1)
  }

  function LastAddress(network: Address, bits: nat): nat
    requires bits <= WIDTH
  {
    BitOr(network, ShiftedMask(bits))
  }

  predicate IsBroadcast(ip: Address, bits: nat)
    requires bits <= WIDTH
  {
    BitAnd(ip, WideMask(bits)) == WideMask(bits)
  }

  /** The number with its k low bits cleared, and those bits alone. */
  function High(n: nat, k: nat): (h: nat)
    ensures h <= n
  {
    if k == 0 then n else 2 * High(n / 2, k - 1)
  }

  function Low(n: nat, k: nat): (l: nat)
    ensures l < Pow2(k) && High(n, k) + l == n
  {
    if k == 0 then 0 else n % 2 + 2 * Low(n / 2, k - 1)
  }

  /** The network address of a prefix of the given length. */
  function Masked(ip: Address, bits: nat): Address
    requires bits <= WIDTH
  {
    High(ip, WIDTH - bits)
  }

  predicate Contains(network: Address, bits: nat, ip: Address)
    requires bits <= WIDTH
  {
    Masked(ip, bits) == Masked(network, bits)
  }

  lemma {:induction false} Pow2Sum(m: nat, n: nat)
    ensures Pow2(m + n) == Pow2(m) * Pow2(n)
  {
    if m > 0 { Pow2Sum(m - 1, n); }
  }

  lemma {:induction false} Pow2Monotone(m: nat, n: nat)
    requires m <= n
    ensures Pow2(m) <= Pow2(n)
  {
    if m < n { Pow2Monotone(m, n - 1); }
  }

  lemma Pow2Width()
    ensures Pow2(WIDTH) == LIMIT
  {
    assert Pow2(4) == 16;
    Pow2Sum(4, 4);
    Pow2Sum(8, 8);
    Pow2Sum(16, 16);
  }

  /** Both packages build the same mask, for every prefix length from 0 to 32. */
  lemma MasksAgree(bits: nat)
    requires bits <= WIDTH
    ensures ShiftedMask(bits) == WideMask(bits) == Pow2(WIDTH - bits) - 1
  {
    Pow2Width();
    Pow2Monotone(WIDTH - bits, WIDTH);
    if bits > 0 { Pow2Monotone(WIDTH - bits, WIDTH - 1); }
  }

  lemma OddHalf(m: nat)
    ensures (2 * m + 1) / 2 == m && (2 * m + 1) % 2 == 1
  {
  }

  /** Or-ing the k low ones into a number sets its low bits and leaves the rest. */
  lemma {:induction false} OrOnes(n: nat, k: nat)
    ensures BitOr(n, Pow2(k) - 1) == High(n, k) + Pow2(k) - 1
  {
    if k > 0 {
      OddHalf(Pow2(k - 1) - 1);
      if n > 0 { OrOnes(n / 2, k - 1); } else { HighOfZero(k); }
    }
  }

  lemma {:induction false} HighOfZero(k: nat)
    ensures High(0, k) == 0
  {
    if k > 0 { HighOfZero(k - 1); }
  }

  /** And-ing with the k low ones keeps the k low bits. */
  lemma {:induction false} AndOnes(n: nat, k: nat)
    ensures BitAnd(n, Pow2(k) - 1) == Low(n, k)
  {
    if k > 0 {
      OddHalf(Pow2(k - 1) - 1);
      AndOnes(n / 2, k - 1);
    }
    if n == 0 { HighOfZero(k); }
  }

  /** Clearing low bits twice clears them once. */
  lemma {:induction false} HighIdempotent(n: nat, k: nat)
    ensures High(High(n, k), k) == High(n, k)
  {
    if k > 0 { HighIdempotent(n / 2, k - 1); }
  }

  /** The numbers sharing their high bits with a canonical network are an interval. */
  lemma {:induction false} HighIsInterval(network: nat, n: nat, k: nat)
    requires High(network, k) == network
    ensures High(n, k) == network <==> network <= n < network + Pow2(k)
  {
    if k > 0 { HighIsInterval(network / 2, n / 2, k - 1); }
  }

  /** The last address is the network with every host bit set (section 7 of RFC 919). */
  lemma LastAddressIsAllOnes(network: Address, bits: nat)
    requires bits <= WIDTH
    ensures LastAddress(network, bits) == Masked(network, bits) + Pow2(WIDTH - bits) - 1 < LIMIT
    ensures Contains(network, bits, LastAddress(network, bits))
    ensures IsBroadcast(LastAddress(network, bits), bits)
  {
    var k := WIDTH - bits;
    MasksAgree(bits);
    OrOnes(network, k);
    HighIdempotent(network, k);
    HighIsInterval(Masked(network, bits), LastAddress(network, bits), k);
    Pow2Width();
    HighFits(network, k);
    AndOnes(LastAddress(network, bits), k);
  }

  /** A block of 2^k addresses starting below the limit ends below it. */
  lemma {:induction false} HighFits(n: Address, k: nat)
    requires k <= WIDTH
    ensures High(n, k) + Pow2(k) <= LIMIT
  {
    Pow2Width();
    HighWithin(n, k, WIDTH);
  }

  lemma {:induction false} HighWithin(n: nat, k: nat, width: nat)
    requires k <= width && n < Pow2(width)
    ensures High(n, k) + Pow2(k) <= Pow2(width)
  {
    if k > 0 { HighWithin(n / 2, k - 1, width - 1); }
  }

  /** The three broadcast tests in the repository are one test. */
  lemma BroadcastTestsAgree(ip: Address, bits: nat)
    requires bits <= WIDTH
    ensures IsBroadcast(ip, bits) <==> ip == LastAddress(ip, bits)
    ensures IsBroadcast(ip, bits) <==> ip == BitOr(Masked(ip, bits), WideMask(bits))
    ensures IsBroadcast(ip, bits) <==> ip == LastAddress(Masked(ip, bits), bits)
  {
    var k := WIDTH - bits;
    MasksAgree(bits);
    AndOnes(ip, k);
    OrOnes(ip, k);
    OrOnes(Masked(ip, bits), k);
    HighIdempotent(ip, k);
  }
}
