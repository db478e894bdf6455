/** Addresses and prefixes as `net/netip` has them, without zones: an address keeps its family, an
    IPv4-mapped IPv6 address is an IPv6 address until it is unmapped, and a prefix is an address
    with a length that need not be masked. */
module Netip {
  import opened Bits

  datatype AnyAddr = V4(n: nat) | V6(n: nat)

  type Addr = a: AnyAddr | a.n < (if a.V4? then TWO32 else TWO128) witness V4(0)

  datatype Prefix = Prefix(addr: Addr, bits: int)

  /** The IPv4-mapped block of section 2.5.5.2 of RFC 4291, `::ffff:0:0/96`. */
  const MAPPED_LO := 0xffff_0000_0000
  const MAPPED_HI := 0xffff_ffff_ffff

  predicate IsMapped(a: Addr) {
    a.V6? && MAPPED_LO <= a.n <= MAPPED_HI
  }

  function Unmap(a: Addr): Addr {
    if IsMapped(a) then V4(a.n - MAPPED_LO) else a
  }

  function BitLen(a: Addr): nat {
    if a.V4? then 32 else 128
  }

  predicate SameFamily(a: Addr, b: Addr) {
    a.V4? == b.V4?
  }

  /** `Addr.Compare`: the shorter family first, then the value. */
  function Compare(a: Addr, b: Addr): int {
    if BitLen(a) != BitLen(b) then BitLen(a) - BitLen(b)
    else if a.n < b.n then -1
    else if a.n > b.n then 1
    else 0
  }

  predicate ValidPrefix(p: Prefix) {
    0 <= p.bits <= BitLen(p.addr)
  }

  /** A prefix as `netip.PrefixFrom` makes it: valid, or without a length. */
  type MadePrefix = p: Prefix | p.bits == -1 || ValidPrefix(p) witness Prefix(V4(0), 0)

  /** `netip.PrefixFrom`: a length outside the family's range is recorded as -1. */
  function PrefixFrom(a: Addr, bits: int): MadePrefix {
    if 0 <= bits <= BitLen(a) then Prefix(a, bits) else Prefix(a, -1)
  }

  /** The number of addresses in a block with `bits` network bits. */
  function BlockSize(a: Addr, bits: int): (k: nat)
    requires 0 <= bits <= BitLen(a)
    ensures k >= 1
  {
    Pow2(BitLen(a) - bits)
  }

  lemma RemainderFits(n: nat, k: nat)
    requires k > 0
    ensures 0 <= n % k <= n
  {
    assert n == k * (n / k) + n % k;
    assert k * (n / k) >= 0;
  }

  /** An address with its host bits cleared. */
  function Mask(a: Addr, bits: int): (r: Addr)
    requires 0 <= bits <= BitLen(a)
    ensures SameFamily(a, r)
  {
    var k := BlockSize(a, bits);
    RemainderFits(a.n, k);
    if a.V4? then V4(a.n - a.n % k) else V6(a.n - a.n % k)
  }

  function Masked(p: Prefix): (r: Prefix)
    requires ValidPrefix(p)
    ensures ValidPrefix(r)
  {
    Prefix(Mask(p.addr, p.bits), p.bits)
  }

  predicate IsMasked(p: Prefix)
    requires ValidPrefix(p)
  {
    Masked(p) == p
  }

  /** What it means for a CIDR prefix to cover an address (section 3.1 of RFC 4632, section 2.3 of
      RFC 4291): the same family and the same leading bits. */
  predicate Covers(p: Prefix, a: Addr)
    requires ValidPrefix(p)
  {
    SameFamily(p.addr, a) &&
    a.n / BlockSize(p.addr, p.bits) == p.addr.n / BlockSize(p.addr, p.bits)
  }

  /** Clearing host bits gives the multiple of the block size at the quotient. */
  lemma MaskIsMultiple(a: Addr, bits: int)
    requires 0 <= bits <= BitLen(a)
    ensures var k := BlockSize(a, bits);
            Mask(a, bits).n == k * (a.n / k) && Mask(a, bits).n % k == 0 && Mask(a, bits).n / k == a.n / k
  {
    MaskArithmetic(a.n, BlockSize(a, bits));
  }

  lemma MaskArithmetic(n: nat, k: nat)
    requires k > 0
    ensures n - n % k == k * (n / k)
    ensures (k * (n / k)) % k == 0 && (k * (n / k)) / k == n / k
  {
    MultipleMod(n / k, k);
  }

  /** A block ends inside its family's address space. */
  lemma BlockFits(a: Addr, bits: int)
    requires 0 <= bits <= BitLen(a)
    ensures Mask(a, bits).n + BlockSize(a, bits) <= Pow2(BitLen(a))
  {
    Pow2Widths();
    MaskIsMultiple(a, bits);
    MultipleFitsPow(Mask(a, bits).n, BitLen(a) - bits, BitLen(a));
  }

  /** A multiple of `2^host` below `2^w` leaves room for one more block. */
  lemma MultipleFitsPow(x: nat, host: nat, w: nat)
    requires host <= w && x % Pow2(host) == 0 && x < Pow2(w)
    ensures x + Pow2(host) <= Pow2(w)
  {
    Pow2Add(host, w - host);
    MultipleFits(x, Pow2(host), Pow2(w - host));
  }

  /** A multiple of `k` below `k * c` leaves room for one more `k`. */
  lemma MultipleFits(x: nat, k: nat, c: nat)
    requires k > 0 && x % k == 0 && x < k * c
    ensures x + k <= k * c
  {
    var q := x / k;
    assert x == k * q;
    assert q < c by {
      if q >= c { MulMono(k, c, q); }
    }
    MulMono(k, q + 1, c);
    assert k * (q + 1) == k * q + k;
  }

  lemma MulMono(k: nat, x: nat, y: nat)
    requires x <= y
    ensures k * x <= k * y
  {
  }

  /** A prefix covers exactly the addresses from its masked address to the end of its block. */
  lemma CoversIsRange(p: Prefix, a: Addr)
    requires ValidPrefix(p)
    ensures var m := Masked(p).addr.n;
            Covers(p, a) <==> SameFamily(p.addr, a) && m <= a.n <= m + BlockSize(p.addr, p.bits) - 1
  {
    var k := BlockSize(p.addr, p.bits);
    var q := p.addr.n / k;
    MaskIsMultiple(p.addr, p.bits);
    if SameFamily(p.addr, a) {
      if a.n / k == q {
        assert a.n == k * q + a.n % k;
      }
      if k * q <= a.n <= k * q + k - 1 {
        DivUnique(a.n, k, q, a.n - k * q);
      }
    }
  }

  /** Among masked prefixes of one length, the one that covers an address is that address masked:
      the fact that lets a map from masked prefixes replace a scan. */
  lemma CoverIsMaskedAddress(p: Prefix, a: Addr)
    requires ValidPrefix(p) && IsMasked(p)
    ensures Covers(p, a) <==>
            SameFamily(p.addr, a) && p == Masked(Prefix(a, p.bits))
  {
    if SameFamily(p.addr, a) {
      MaskIsMultiple(p.addr, p.bits);
      MaskIsMultiple(a, p.bits);
    }
  }

  /** A masked address can be IPv4-mapped only when the length reaches the mapped block's own. */
  lemma MappedIsLong(a: Addr, bits: int)
    requires 0 <= bits <= BitLen(a)
    ensures bits < 96 ==> !IsMapped(Mask(a, bits))
  {
    if a.V6? && bits < 96 {
      var host := 128 - bits;
      MaskIsMultiple(a, bits);
      LongBlock(host);
      MulAssoc(0x2_0000_0000, Pow2(host - 33), a.n / Pow2(host));
      NoMappedMultiple(Pow2(host - 33) * (a.n / Pow2(host)));
    }
  }

  lemma LongBlock(host: nat)
    requires host >= 33
    ensures Pow2(host) == 0x2_0000_0000 * Pow2(host - 33)
  {
    Pow2Widths();
    Pow2Add(32, 1);
    Pow2Add(33, host - 33);
  }

  lemma MulAssoc(x: nat, y: nat, z: nat)
    ensures (x * y) * z == x * (y * z)
  {
  }

  lemma NoMappedMultiple(m: nat)
    ensures var n := 0x2_0000_0000 * m; n < MAPPED_LO || MAPPED_HI < n
  {
  }
}
