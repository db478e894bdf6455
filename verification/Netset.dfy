/** The interval table of internal/netset: prefixes become address intervals, intervals are sorted
    and merged, and a lookup is a binary search. */
module Netset {
  import opened Bits
  import opened Netip

  datatype Interval = Interval(start: Addr, end: Addr)

  datatype Table = Table(v4: seq<Interval>, v6: seq<Interval>)

  // ---- words and bytes ----

  function As4(a: Addr): (s: seq<Byte>)
    ensures |s| == 4
  {
    ToBE(a.n, 4)
  }

  function As16(a: Addr): (s: seq<Byte>)
    ensures |s| == 16
  {
    ToBE(if a.V4? then a.n + MAPPED_LO else a.n, 16)
  }

  function Uint32From4(a: seq<Byte>): u32
    requires |a| == 4
  {
    a[0] as int * 0x100_0000 + a[1] as int * 0x1_0000 + a[2] as int * 0x100 + a[3] as int
  }

  function Uint32To4(n: u32): (s: seq<Byte>)
    ensures |s| == 4
  {
    [n / 0x100_0000, n / 0x1_0000 % 0x100, n / 0x100 % 0x100, n % 0x100]
  }

  /** The shifts of the 32-bit conversions read and write the big-endian value. */
  lemma Uint32Conversions(n: u32, s: seq<Byte>)
    requires |s| == 4
    ensures Uint32From4(s) == FromBE(s)
    ensures Uint32From4(ToBE(n, 4)) == n
    ensures FromBE(Uint32To4(n)) == n
  {
    BE4(s);
    BE4(ToBE(n, 4));
    Pow2Widths();
    BERoundTrip(n, 4);
    Uint32Pieces(n);
  }

  lemma Uint32Pieces(n: u32)
    ensures FromBE(Uint32To4(n)) == n
  {
    BE4(Uint32To4(n));
    Digits(n);
  }

  lemma Digits(n: u32)
    ensures n == 0x100 * (n / 0x100) + n % 0x100
    ensures n / 0x100 == 0x100 * (n / 0x1_0000) + n / 0x100 % 0x100
    ensures n / 0x1_0000 == 0x100 * (n / 0x100_0000) + n / 0x1_0000 % 0x100
  {
  }

  lemma BE4(s: seq<Byte>)
    requires |s| == 4
    ensures FromBE(s) == Uint32From4(s)
  {
    var s3 := s[..3];
    var s2 := s3[..2];
    var s1 := s2[..1];
    assert FromBE(s1) == s[0];
    assert FromBE(s2) == FromBE(s1) * 256 + s[1];
    assert FromBE(s3) == FromBE(s2) * 256 + s[2];
  }

  /** Both halves of sixteen big-endian bytes, byte by byte. */
  method Uint128From16(a: seq<Byte>) returns (hi: u64, lo: u64)
    requires |a| == 16
    ensures hi == FromBE(a[..8]) && lo == FromBE(a[8..])
  {
    hi, lo := 0, 0;
    ghost var x, y := a[..8], a[8..];
    for i := 0 to 8
      invariant hi == FromBE(x[..i]) && lo == FromBE(y[..i])
    {
      ShiftIn(x, i);
      ShiftIn(y, i);
      hi := hi * 256 % TWO64 + a[i];
      lo := lo * 256 % TWO64 + a[i + 8];
    }
    assert x[..8] == x && y[..8] == y;
  }

  /** Shifting a byte into a 64-bit word that has room for it loses nothing. */
  lemma ShiftIn(s: seq<Byte>, i: nat)
    requires i < |s| && i < 8
    ensures FromBE(s[..i + 1]) == FromBE(s[..i]) * 256 % TWO64 + s[i] < TWO64
  {
    var t := s[..i + 1];
    assert t[..i] == s[..i];
    assert FromBE(t) == FromBE(s[..i]) * 256 + s[i];
    SevenBytes(s[..i]);
    NoWrap(FromBE(s[..i]));
  }

  lemma SevenBytes(s: seq<Byte>)
    requires |s| < 8
    ensures FromBE(s) < 0x100_0000_0000_0000
  {
    BEBound(s);
    Pow2Monotone(8 * |s|, 56);
    Pow2At56();
  }

  lemma NoWrap(x: nat)
    requires x < 0x100_0000_0000_0000
    ensures x * 256 % TWO64 == x * 256 <= TWO64 - 256
  {
  }

  lemma Pow2At56()
    ensures Pow2(56) == 0x100_0000_0000_0000
  {
    Pow2Widths();
    ByteWide(8);
  }

  /** Sixteen big-endian bytes from both halves, filled from the low end. */
  method Uint128To16(hi: u64, lo: u64) returns (bytes: seq<Byte>)
    ensures bytes == ToBE(hi, 8) + ToBE(lo, 8)
  {
    var out := new Byte[16](i => 0);
    var h: nat, l: nat := hi, lo;
    var i := 7;
    while i >= 0
      invariant -1 <= i <= 7
      invariant ToBE(hi, 8) == ToBE(h, i + 1) + out[..][i + 1..8]
      invariant ToBE(lo, 8) == ToBE(l, i + 1) + out[..][i + 9..16]
    {
      ghost var was := out[..];
      out[i] := h % 256;
      out[i + 8] := l % 256;
      FillAt(was, out[..], i, h % 256, l % 256);
      h := h / 256;
      l := l / 256;
      i := i - 1;
    }
    bytes := out[..];
    assert bytes == bytes[0..8] + bytes[8..16];
  }

  lemma FillAt(was: seq<Byte>, now: seq<Byte>, i: nat, x: Byte, y: Byte)
    requires |was| == 16 && i < 8 && now == was[i := x][i + 8 := y]
    ensures now[i..8] == [x] + was[i + 1..8]
    ensures now[i + 8..16] == [y] + was[i + 9..16]
  {
  }

  /** The sixteen bytes of an IPv6 address split into its value's quotient and remainder by 2^64. */
  lemma HalvesOf(n: u128)
    ensures var s := ToBE(n, 16);
            FromBE(s[..8]) == n / TWO64 && FromBE(s[8..]) == n % TWO64
  {
    var s := ToBE(n, 16);
    Pow2Widths();
    BERoundTrip(n, 16);
    HalvesJoin(s[..8], s[8..]);
    assert s == s[..8] + s[8..];
    DivUnique(n, TWO64, FromBE(s[..8]), FromBE(s[8..]));
  }

  lemma HalvesJoin(x: seq<Byte>, y: seq<Byte>)
    requires |y| == 8
    ensures FromBE(x + y) == FromBE(x) * TWO64 + FromBE(y) && FromBE(y) < TWO64
  {
    Pow2Widths();
    BEConcat(x, y);
    BEBound(y);
  }

  lemma JoinOf(hi: u64, lo: u64)
    ensures FromBE(ToBE(hi, 8) + ToBE(lo, 8)) == hi * TWO64 + lo < TWO128
  {
    Pow2Widths();
    BERoundTrip(hi, 8);
    BERoundTrip(lo, 8);
    HalvesJoin(ToBE(hi, 8), ToBE(lo, 8));
  }

  // ---- the last address of a prefix ----

  /** The last address of a prefix. An IPv4-mapped prefix keeps its 128-based length after the
      address is unmapped, so its block collapses to one address. */
  function Last(p: Prefix): (r: Addr)
    requires ValidPrefix(p)
    ensures SameFamily(r, Unmap(Masked(p).addr)) && Unmap(Masked(p).addr).n <= r.n
  {
    var m := Masked(p).addr;
    BlockFits(p.addr, p.bits);
    Pow2Widths();
    if IsMapped(m) then Unmap(m)
    else if m.V4? then V4(m.n + BlockSize(m, p.bits) - 1)
    else V6(m.n + BlockSize(m, p.bits) - 1)
  }

  /** Clear low bits of a 128-bit value are clear low bits of its halves. */
  lemma SplitMultiple(m: u128, host: nat)
    requires host <= 128 && m % Pow2(host) == 0
    ensures host <= 64 ==> (m % TWO64) % Pow2(host) == 0
    ensures host >= 64 ==> m % TWO64 == 0 && (m / TWO64) % Pow2(host - 64) == 0
  {
    Pow2Widths();
    if host <= 64 {
      Pow2Add(host, 64 - host);
      RemainderIsMultiple(m, Pow2(host), Pow2(64 - host));
    }
    if host >= 64 {
      Pow2Add(64, host - 64);
      QuotientIsMultiple(m, TWO64, Pow2(host - 64));
    }
  }

  /** A multiple of `k` has a multiple of `k` as its remainder by a multiple of `k`. */
  lemma RemainderIsMultiple(m: nat, k: nat, c: nat)
    requires k > 0 && c > 0 && m % k == 0
    ensures k * c > 0 && m % (k * c) % k == 0
  {
    MulAtLeast(k, c);
    var w := k * c;
    var q, e := m / k, m / w;
    assert m == k * q && m == w * e + m % w;
    MulAssoc(k, c, e);
    Distribute(k, q, c * e);
    DivUnique(m % w, k, q - c * e, 0);
  }

  /** A multiple of `w * c` is a multiple of `w` whose quotient by `w` is a multiple of `c`. */
  lemma QuotientIsMultiple(m: nat, w: nat, c: nat)
    requires w > 0 && c > 0 && w * c > 0 && m % (w * c) == 0
    ensures m % w == 0 && m / w % c == 0
  {
    var q := m / (w * c);
    assert m == w * c * q;
    MulAssoc(w, c, q);
    DivUnique(m, w, c * q, 0);
    MultipleMod(q, c);
  }

  lemma Distribute(k: int, x: int, y: int)
    ensures k * x - k * y == k * (x - y)
  {
  }

  /** `lastAddr`: 32-bit arithmetic for IPv4, two 64-bit words for IPv6. */
  method LastAddr(p: Prefix) returns (last: Addr)
    requires ValidPrefix(p)
    ensures last == Last(p)
  {
    var masked := Masked(p);
    var addr := Unmap(masked.addr);
    var bits := masked.bits;
    MappedIsLong(p.addr, p.bits);
    MaskIsMultiple(p.addr, p.bits);
    if addr.V4? {
      var n := Word(addr);
      n := FillHost4(n, bits);
      last := FromWord(n);
      return;
    }
    var hi, lo := Words(addr);
    hi, lo := FillHost(addr.n, hi, lo, 128 - bits);
    last := FromWords(hi, lo);
  }

  /** An IPv4 address as one word, through its four bytes. */
  method Word(a: Addr) returns (n: u32)
    requires a.V4?
    ensures n == a.n
  {
    Uint32Conversions(a.n, As4(a));
    n := Uint32From4(As4(a));
  }

  method FromWord(n: u32) returns (a: Addr)
    ensures a == V4(n)
  {
    Uint32Conversions(n, Uint32To4(n));
    a := V4(FromBE(Uint32To4(n)));
  }

  /** An IPv6 address as two words, through its sixteen bytes. */
  method Words(a: Addr) returns (hi: u64, lo: u64)
    requires a.V6?
    ensures hi == a.n / TWO64 && lo == a.n % TWO64
  {
    HalvesOf(a.n);
    hi, lo := Uint128From16(As16(a));
  }

  method FromWords(hi: u64, lo: u64) returns (a: Addr)
    ensures a.V6? && a.n == hi * TWO64 + lo
  {
    JoinOf(hi, lo);
    var bytes := Uint128To16(hi, lo);
    a := V6(FromBE(bytes));
  }

  /** Sets the host bits of a 32-bit value; a length of 32 or more leaves none. */
  method FillHost4(n: u32, bits: int) returns (r: u32)
    requires 0 <= bits && (bits < 32 ==> n % Pow2(32 - bits) == 0)
    ensures r == if bits < 32 then n + Pow2(32 - bits) - 1 else n
  {
    r := n;
    if bits < 32 {
      LowBits(n, 32 - bits);
      r := Or(n, Pow2(32 - bits) - 1);
    }
  }

  lemma LowBits(n: u32, host: nat)
    requires host <= 32 && n % Pow2(host) == 0
    ensures Or(n, Pow2(host) - 1) == n + Pow2(host) - 1 < TWO32
  {
    OrMask(n, host);
    Pow2Widths();
    MultipleFitsPow(n, host, 32);
  }

  /** Sets the low `host` bits of a 128-bit value held in two words. */
  method FillHost(ghost n: u128, hi: u64, lo: u64, host: int) returns (h: u64, l: u64)
    requires hi == n / TWO64 && lo == n % TWO64
    requires 0 <= host <= 128 && n % Pow2(host) == 0
    ensures h * TWO64 + l == n + Pow2(host) - 1
  {
    assert n == n / TWO64 * TWO64 + n % TWO64;
    if host <= 0 {
      h, l := hi, lo;
    } else if host < 64 {
      LowHalf(n, host);
      h, l := hi, Or(lo, Pow2(host) - 1);
    } else if host == 64 {
      WholeLow(n);
      h, l := hi, TWO64 - 1;
    } else if host < 128 {
      HighHalf(n, host);
      JoinHigh(n, host);
      h, l := Or(hi, Pow2(host - 64) - 1), TWO64 - 1;
    } else {
      WholeSpace(n);
      h, l := TWO64 - 1, TWO64 - 1;
    }
  }

  lemma WholeLow(n: u128)
    requires n % Pow2(64) == 0
    ensures n % TWO64 == 0 && Pow2(64) == TWO64
  {
    Pow2Widths();
  }

  lemma WholeSpace(n: u128)
    requires n % Pow2(128) == 0
    ensures n == 0 && Pow2(128) == TWO64 * TWO64
  {
    Pow2Widths();
  }

  /** The two halves of a block wider than a word. */
  lemma JoinHigh(n: u128, host: nat)
    requires 64 < host < 128 && n % Pow2(host) == 0
    ensures (n / TWO64 + Pow2(host - 64) - 1) * TWO64 + (TWO64 - 1) == n + Pow2(host) - 1
  {
    SplitMultiple(n, host);
    Pow2Widths();
    Pow2Add(64, host - 64);
    Carry(n / TWO64, Pow2(host - 64), TWO64);
  }

  lemma Carry(x: nat, p: nat, w: nat)
    ensures (x + p - 1) * w + (w - 1) == x * w + w * p - 1
  {
  }

  lemma LowHalf(n: u128, host: nat)
    requires 0 < host < 64 && n % Pow2(host) == 0
    ensures var lo := Or(n % TWO64, Pow2(host) - 1);
            lo < TWO64 && lo == n % TWO64 + Pow2(host) - 1
  {
    SplitMultiple(n, host);
    FillWord(n % TWO64, host);
  }

  /** Filling the clear low bits of a word stays within the word. */
  lemma FillWord(x: u64, host: nat)
    requires host <= 64 && x % Pow2(host) == 0
    ensures Or(x, Pow2(host) - 1) == x + Pow2(host) - 1 < TWO64
  {
    OrMask(x, host);
    Pow2Widths();
    MultipleFitsPow(x, host, 64);
  }

  lemma HighHalf(n: u128, host: nat)
    requires 64 < host < 128 && n % Pow2(host) == 0
    ensures var hi := Or(n / TWO64, Pow2(host - 64) - 1);
            hi < TWO64 && hi == n / TWO64 + Pow2(host - 64) - 1 &&
            Pow2(host) == TWO64 * Pow2(host - 64)
  {
    SplitMultiple(n, host);
    FillWord(n / TWO64, host - 64);
    Pow2Widths();
    Pow2Add(64, host - 64);
  }

  // ---- the next address ----

  /** `nextAddr`: one more, with a carry between the halves; none after the last address. */
  function NextAddr(a: Addr): Option<Addr> {
    var u := Unmap(a);
    if u.V4? then
      if u.n == TWO32 - 1 then None else Some(V4(u.n + 1))
    else
      var hi, lo := u.n / TWO64, u.n % TWO64;
      if lo == TWO64 - 1 then
        if hi == TWO64 - 1 then None else Some(V6((hi + 1) * TWO64))
      else Some(V6(hi * TWO64 + (lo + 1)))
  }

  /** On the split representation the successor is the successor, and it is missing exactly at the
      top of the (unmapped) family. */
  lemma NextAddrIsSuccessor(a: Addr)
    ensures NextAddr(a).None? <==> Unmap(a).n == (if Unmap(a).V4? then TWO32 else TWO128) - 1
    ensures NextAddr(a).Some? ==>
              SameFamily(NextAddr(a).value, Unmap(a)) && NextAddr(a).value.n == Unmap(a).n + 1
  {
    var n := Unmap(a).n;
    assert n == n / TWO64 * TWO64 + n % TWO64;
  }

  // ---- intervals ----

  predicate Proper(iv: Interval) {
    SameFamily(iv.start, iv.end) && iv.start.n <= iv.end.n
  }

  predicate Holds(iv: Interval, a: Addr) {
    SameFamily(iv.start, a) && iv.start.n <= a.n <= iv.end.n
  }

  /** Membership in a list of intervals by linear scan: the meaning of a table. */
  predicate Has(s: seq<Interval>, a: Addr) {
    exists i :: 0 <= i < |s| && Holds(s[i], a)
  }

  /** A list the lookup can search: proper intervals of one family, in order, without overlap. */
  predicate Separated(s: seq<Interval>, v4: bool) {
    (forall i :: 0 <= i < |s| ==> Proper(s[i]) && s[i].start.V4? == v4) &&
    (forall i, j :: 0 <= i < j < |s| ==> s[i].end.n < s[j].start.n)
  }

  /** Neighbours of a built list that still touch do so at the top of the mapped block. */
  predicate Gapped(s: seq<Interval>) {
    forall i :: 0 <= i < |s| - 1 && s[i].end.n + 1 == s[i + 1].start.n ==> IsMapped(s[i].end)
  }

  predicate ProperList(s: seq<Interval>, v4: bool) {
    forall i :: 0 <= i < |s| ==> Proper(s[i]) && s[i].start.V4? == v4
  }

  function OverlapsOrTouches(a: Interval, b: Interval): bool {
    Compare(a.end, b.start) >= 0 ||
    (var n := NextAddr(a.end); n.Some? && n.value == b.start)
  }

  /** Two intervals that start in order meet when nothing lies between them, except that adjacency
      is not seen after an end that is IPv4-mapped. */
  lemma MeetsWhen(a: Interval, b: Interval)
    requires Proper(a) && Proper(b) && SameFamily(a.start, b.start)
    ensures OverlapsOrTouches(a, b) <==>
            b.start.n <= a.end.n || (b.start.n == a.end.n + 1 && !IsMapped(a.end))
  {
    NextAddrIsSuccessor(a.end);
  }

  // ---- sorting ----

  /** The order `merge` sorts by: start, then end. */
  predicate Before(x: Interval, y: Interval) {
    var c := Compare(x.start, y.start);
    if c != 0 then c < 0 else Compare(x.end, y.end) < 0
  }

  predicate Ordered(s: seq<Interval>) {
    forall i, j :: 0 <= i < j < |s| ==> !Before(s[j], s[i])
  }

  function Insert(x: Interval, s: seq<Interval>): (r: seq<Interval>)
    ensures multiset(r) == multiset(s) + multiset{x}
  {
    if s == [] then [x]
    else if !Before(s[0], x) then [x] + s
    else
      assert s == [s[0]] + s[1..];
      [s[0]] + Insert(x, s[1..])
  }

  /** `sort.Slice` as a value: some ordered rearrangement (and the only one, since ties are equal). */
  function Sort(s: seq<Interval>): (r: seq<Interval>)
    ensures multiset(r) == multiset(s)
    ensures |r| == |s|
  {
    if s == [] then []
    else
      assert s == [s[0]] + s[1..];
      var r := Insert(s[0], Sort(s[1..]));
      assert |multiset(r)| == |multiset(s)|;
      r
  }

  lemma BeforeTrans(x: Interval, y: Interval, z: Interval)
    requires !Before(y, x) && !Before(z, y)
    ensures !Before(z, x)
  {
  }

  lemma {:induction false} InsertOrdered(x: Interval, s: seq<Interval>)
    requires Ordered(s)
    ensures Ordered(Insert(x, s))
  {
    if s == [] {
    } else if !Before(s[0], x) {
      forall j | 0 <= j < |s| ensures !Before(s[j], x) {
        if j > 0 { BeforeTrans(x, s[0], s[j]); }
      }
    } else {
      var t := s[1..];
      InsertOrdered(x, t);
      var r := Insert(x, t);
      forall j | 0 <= j < |r| ensures !Before(r[j], s[0]) {
        assert r[j] in multiset(r);
        assert r[j] == x || r[j] in t;
      }
    }
  }

  lemma {:induction false} SortOrdered(s: seq<Interval>)
    ensures Ordered(Sort(s))
  {
    if s != [] {
      SortOrdered(s[1..]);
      InsertOrdered(s[0], Sort(s[1..]));
    }
  }

  lemma SameMembers(s: seq<Interval>, t: seq<Interval>)
    requires multiset(s) == multiset(t)
    ensures forall a :: Has(s, a) <==> Has(t, a)
    ensures forall v4 :: ProperList(s, v4) ==> ProperList(t, v4)
  {
    forall v4 | ProperList(s, v4) ensures ProperList(t, v4) {
      forall i | 0 <= i < |t| ensures Proper(t[i]) && t[i].start.V4? == v4 {
        assert t[i] in multiset(t);
      }
    }
    forall iv | iv in t ensures iv in s { assert iv in multiset(t); }
    forall iv | iv in s ensures iv in t { assert iv in multiset(s); }
    forall a ensures Has(s, a) <==> Has(t, a) {
      HasMember(s, a);
      HasMember(t, a);
    }
  }

  lemma HasMember(s: seq<Interval>, a: Addr)
    ensures Has(s, a) <==> exists iv :: iv in s && Holds(iv, a)
  {
    if iv :| iv in s && Holds(iv, a) {
      var i :| 0 <= i < |s| && s[i] == iv;
    }
  }

  // ---- merging ----

  /** `merge`: sort, then one sweep. The union is kept, the result is sorted and pairwise disjoint,
      and neighbours that still touch do so only after an IPv4-mapped end. */
  method Merge(input: seq<Interval>, v4: bool) returns (out: seq<Interval>)
    requires ProperList(input, v4)
    ensures Separated(out, v4)
    ensures forall a :: Has(out, a) <==> Has(input, a)
    ensures Gapped(out)
  {
    if |input| == 0 {
      return [];
    }
    var s := Sort(input);
    SortOrdered(input);
    SameMembers(input, s);
    SameMembers(s, input);
    out := [];
    var cur := s[0];
    SweepStart(s, v4);
    for i := 1 to |s|
      invariant Sweep(s, v4, out, cur, i)
    {
      var next := s[i];
      assert Proper((out + [cur])[|out|]) && Proper(next);
      MeetsWhen(cur, next);
      if OverlapsOrTouches(cur, next) {
        var grown := if Compare(next.end, cur.end) > 0 then cur.(end := next.end) else cur;
        SweepJoin(s, v4, out, cur, grown, i);
        cur := grown;
      } else {
        SweepSplit(s, v4, out, cur, i);
        out := out + [cur];
        cur := next;
      }
    }
    SweepEnd(s, v4, out, cur);
    out := out + [cur];
  }

  lemma SweepStart(s: seq<Interval>, v4: bool)
    requires s != [] && ProperList(s, v4) && Ordered(s)
    ensures Sweep(s, v4, [], s[0], 1)
  {
    assert s[..1] == [s[0]] == [] + [s[0]];
    StartsInOrder(s, v4);
  }

  lemma SweepEnd(s: seq<Interval>, v4: bool, out: seq<Interval>, cur: Interval)
    requires Sweep(s, v4, out, cur, |s|)
    ensures Separated(out + [cur], v4) && Gapped(out + [cur])
    ensures forall a :: Has(out + [cur], a) <==> Has(s, a)
  {
    assert s[..|s|] == s;
  }

  /** What the sweep keeps: the finished intervals with the open one are separated, have the same
      addresses as the intervals read, and the open one starts no later than what is still to come. */
  ghost predicate Sweep(s: seq<Interval>, v4: bool, out: seq<Interval>, cur: Interval, i: nat) {
    && 1 <= i <= |s|
    && ProperList(s, v4) && Ordered(s)
    && var done := out + [cur];
       && Separated(done, v4)
       && (forall a :: Has(done, a) <==> Has(s[..i], a))
       && Gapped(done)
       && (forall k :: i <= k < |s| ==> cur.start.n <= s[k].start.n)
  }

  lemma StartsInOrder(s: seq<Interval>, v4: bool)
    requires ProperList(s, v4) && Ordered(s)
    ensures forall i, j :: 0 <= i <= j < |s| ==> s[i].start.n <= s[j].start.n
  {
    forall i, j | 0 <= i <= j < |s| ensures s[i].start.n <= s[j].start.n {
      if i < j { assert !Before(s[j], s[i]); }
    }
  }

  lemma HasAppend(s: seq<Interval>, iv: Interval, a: Addr)
    ensures Has(s + [iv], a) <==> Has(s, a) || Holds(iv, a)
  {
    var t := s + [iv];
    if Has(s, a) {
      var i :| 0 <= i < |s| && Holds(s[i], a);
      assert Holds(t[i], a);
    }
    if Holds(iv, a) { assert Holds(t[|s|], a); }
    if Has(t, a) {
      var i :| 0 <= i < |t| && Holds(t[i], a);
      if i < |s| { assert Holds(s[i], a); }
    }
  }

  lemma SweepJoin(s: seq<Interval>, v4: bool, out: seq<Interval>, cur: Interval, grown: Interval, i: nat)
    requires Sweep(s, v4, out, cur, i) && i < |s|
    requires s[i].start.n <= cur.end.n + 1
    requires grown == if s[i].end.n > cur.end.n then cur.(end := s[i].end) else cur
    ensures Sweep(s, v4, out, grown, i + 1)
  {
    var next := s[i];
    var done, done' := out + [cur], out + [grown];
    assert s[..i + 1] == s[..i] + [next];
    assert done[|out|] == cur && Proper(cur) && Proper(next) && SameFamily(cur.start, next.start);
    forall a ensures Has(done', a) <==> Has(s[..i + 1], a) {
      assert Holds(grown, a) <==> Holds(cur, a) || Holds(next, a);
      HasAppend(out, cur, a);
      HasAppend(out, grown, a);
      HasAppend(s[..i], next, a);
    }
    assert Separated(done', v4) by {
      forall k, l | 0 <= k < l < |done'| ensures done'[k].end.n < done'[l].start.n {
        assert done[k].end.n < done[l].start.n;
      }
      forall k | 0 <= k < |done'| ensures Proper(done'[k]) && done'[k].start.V4? == v4 {
        assert Proper(done[k]);
      }
    }
    forall k | 0 <= k < |done'| - 1 && done'[k].end.n + 1 == done'[k + 1].start.n
      ensures IsMapped(done'[k].end) {
      assert done[k] == done'[k] && done[k + 1].start == done'[k + 1].start;
    }
  }

  lemma SweepSplit(s: seq<Interval>, v4: bool, out: seq<Interval>, cur: Interval, i: nat)
    requires Sweep(s, v4, out, cur, i) && i < |s|
    requires cur.end.n < s[i].start.n && (s[i].start.n == cur.end.n + 1 ==> IsMapped(cur.end))
    ensures Sweep(s, v4, out + [cur], s[i], i + 1)
  {
    var next := s[i];
    var done := out + [cur];
    var done' := done + [next];
    assert s[..i + 1] == s[..i] + [next];
    forall a ensures Has(done', a) <==> Has(s[..i + 1], a) {
      HasAppend(done, next, a);
      HasAppend(s[..i], next, a);
    }
    assert Separated(done', v4) by {
      forall k, l | 0 <= k < l < |done'| ensures done'[k].end.n < done'[l].start.n {
        if l == |done| {
          assert k < |done| - 1 ==> done[k].end.n < done[|done| - 1].start.n;
          assert Proper(done[|done| - 1]);
        } else {
          assert done[k].end.n < done[l].start.n;
        }
      }
    }
    forall k | 0 <= k < |done'| - 1 && done'[k].end.n + 1 == done'[k + 1].start.n
      ensures IsMapped(done'[k].end) {
      if k + 1 < |done| { assert done[k + 1] == done'[k + 1]; }
    }
    StartsInOrder(s, v4);
  }

  // ---- building a table ----

  /** The interval one prefix turns into. */
  function Block(p: Prefix): (iv: Interval)
    requires ValidPrefix(p)
    ensures Proper(iv)
  {
    Interval(Unmap(Masked(p).addr), Last(p))
  }

  /** Both lists of a table can be searched. */
  predicate Sound(t: Table) {
    Separated(t.v4, true) && Separated(t.v6, false)
  }

  predicate TableHas(t: Table, a: Addr) {
    Has(if a.V4? then t.v4 else t.v6, a)
  }

  predicate AllValid(prefixes: seq<Prefix>) {
    forall i :: 0 <= i < |prefixes| ==> ValidPrefix(prefixes[i])
  }

  predicate BlockHas(prefixes: seq<Prefix>, a: Addr)
    requires AllValid(prefixes)
  {
    exists i :: 0 <= i < |prefixes| && Holds(Block(prefixes[i]), a)
  }

  /** `Build`: the table holds exactly the addresses of the prefixes' blocks. */
  method Build(prefixes: seq<Prefix>) returns (t: Table)
    requires AllValid(prefixes)
    ensures Sound(t) && Gapped(t.v4) && Gapped(t.v6)
    ensures forall a :: TableHas(t, a) <==> BlockHas(prefixes, a)
  {
    var v4: seq<Interval>, v6: seq<Interval> := [], [];
    for i := 0 to |prefixes|
      invariant ProperList(v4, true) && ProperList(v6, false)
      invariant forall a: Addr :: TableHas(Table(v4, v6), a) <==> BlockHas(prefixes[..i], a)
    {
      var p := Masked(prefixes[i]);
      MaskIsMultiple(prefixes[i].addr, prefixes[i].bits);
      MaskAgain(prefixes[i]);
      var last := LastAddr(p);
      var iv := Interval(Unmap(p.addr), last);
      assert iv == Block(prefixes[i]);
      ghost var next := if iv.start.V4? then Table(v4 + [iv], v6) else Table(v4, v6 + [iv]);
      forall a: Addr ensures TableHas(next, a) <==> BlockHas(prefixes[..i + 1], a) {
        HasAppend(v4, iv, a);
        HasAppend(v6, iv, a);
        BlockHasAppend(prefixes, i, a);
      }
      if iv.start.V4? {
        v4 := v4 + [iv];
      } else {
        v6 := v6 + [iv];
      }
    }
    assert prefixes[..|prefixes|] == prefixes;
    var m4 := Merge(v4, true);
    var m6 := Merge(v6, false);
    t := Table(m4, m6);
  }

  lemma MaskAgain(p: Prefix)
    requires ValidPrefix(p)
    ensures Masked(Masked(p)) == Masked(p) && Last(Masked(p)) == Last(p)
  {
    MaskIsMultiple(p.addr, p.bits);
  }

  lemma BlockHasAppend(prefixes: seq<Prefix>, i: nat, a: Addr)
    requires AllValid(prefixes) && i < |prefixes|
    ensures BlockHas(prefixes[..i + 1], a) <==> BlockHas(prefixes[..i], a) || Holds(Block(prefixes[i]), a)
  {
    var s, t := prefixes[..i], prefixes[..i + 1];
    if BlockHas(s, a) {
      var k :| 0 <= k < |s| && Holds(Block(s[k]), a);
      assert t[k] == s[k];
    }
    if Holds(Block(prefixes[i]), a) { assert t[i] == prefixes[i]; }
    if BlockHas(t, a) {
      var k :| 0 <= k < |t| && Holds(Block(t[k]), a);
      if k < i { assert s[k] == t[k]; }
    }
  }

  // ---- exactness ----

  /** The prefix a line of a list stands for: an IPv4-mapped block is the IPv4 block inside it. */
  function Meaning(p: Prefix): (q: Prefix)
    requires ValidPrefix(p)
    ensures ValidPrefix(q)
  {
    var m := Masked(p);
    MappedIsLong(p.addr, p.bits);
    if IsMapped(m.addr) then Prefix(Unmap(m.addr), m.bits - 96) else m
  }

  ghost predicate Exact(p: Prefix)
    requires ValidPrefix(p)
  {
    forall a :: Holds(Block(p), a) <==> Covers(Meaning(p), a)
  }

  /** A prefix's block is the block it stands for, unless it is IPv4-mapped and shorter than 128. */
  lemma BlockIsExact(p: Prefix)
    requires ValidPrefix(p)
    ensures Exact(p) <==> !(IsMapped(Masked(p).addr) && p.bits < 128)
  {
    var m := Masked(p).addr;
    MaskAgain(p);
    MappedIsLong(p.addr, p.bits);
    if !IsMapped(m) {
      forall a ensures Holds(Block(p), a) <==> Covers(Meaning(p), a) { CoversIsRange(Meaning(p), a); }
    } else if p.bits == 128 {
      forall a ensures Holds(Block(p), a) <==> Covers(Meaning(p), a) {
        CoversIsRange(Meaning(p), a);
        assert Pow2(0) == 1;
      }
    } else {
      MappedBlockIsShort(p);
    }
  }

  lemma MappedBlockIsShort(p: Prefix)
    requires ValidPrefix(p) && IsMapped(Masked(p).addr) && p.bits < 128
    ensures !Exact(p)
  {
    var q := Meaning(p);
    var k := BlockSize(q.addr, q.bits);
    assert k == 2 * Pow2(127 - p.bits);
    BlockFits(q.addr, q.bits);
    Pow2Widths();
    MaskIsMultiple(p.addr, p.bits);
    var m := Masked(p).addr.n;
    MeaningIsMasked(p);
    var next := V4(q.addr.n + 1);
    CoversIsRange(q, next);
    assert Covers(q, next) && !Holds(Block(p), next);
  }

  lemma MeaningIsMasked(p: Prefix)
    requires ValidPrefix(p) && IsMapped(Masked(p).addr)
    ensures Masked(Meaning(p)) == Meaning(p)
  {
    var q := Meaning(p);
    var k := BlockSize(q.addr, q.bits);
    var m := Masked(p).addr.n;
    MappedIsLong(p.addr, p.bits);
    MaskIsMultiple(p.addr, p.bits);
    assert BlockSize(p.addr, p.bits) == k;
    var d := m / k;
    assert m == k * d;
    MappedBase(k, q.bits);
    var e := MAPPED_LO / k;
    assert q.addr.n == k * d - k * e;
    Distribute(k, d, e);
    DivUnique(q.addr.n, k, d - e, 0);
  }

  lemma MappedBase(k: nat, bits: nat)
    requires bits <= 32 && k == Pow2(32 - bits)
    ensures MAPPED_LO == k * (MAPPED_LO / k)
  {
    Pow2Add(32 - bits, bits);
    Pow2Widths();
    var c := Pow2(bits);
    MulAssoc(k, c, 0xffff);
    assert MAPPED_LO == k * (c * 0xffff);
    DivUnique(MAPPED_LO, k, c * 0xffff, 0);
  }

  // ---- lookup ----

  /** `sort.Search` over starts: the least index in `[i, j]` whose interval starts after `ip`. */
  function Search(s: seq<Interval>, ip: Addr, i: nat, j: nat): nat
    requires i <= j <= |s|
    decreases j - i
  {
    if i == j then i
    else
      var h := (i + j) / 2;
      if Compare(s[h].start, ip) > 0 then Search(s, ip, i, h) else Search(s, ip, h + 1, j)
  }

  /** Everything before `i` starts at or before the address, everything from `j` on after it. */
  predicate Splits(s: seq<Interval>, ip: Addr, i: nat, j: nat) {
    && i <= j <= |s|
    && (forall k :: 0 <= k < i ==> s[k].start.n <= ip.n)
    && (forall k :: j <= k < |s| ==> s[k].start.n > ip.n)
  }

  lemma SplitsAbove(s: seq<Interval>, v4: bool, ip: Addr, i: nat, j: nat, h: nat)
    requires Separated(s, v4) && Splits(s, ip, i, j) && i <= h < j && s[h].start.n > ip.n
    ensures Splits(s, ip, i, h)
  {
    forall k | h <= k < |s| ensures s[k].start.n > ip.n {
      if k > h { assert s[h].end.n < s[k].start.n; }
    }
  }

  lemma SplitsBelow(s: seq<Interval>, v4: bool, ip: Addr, i: nat, j: nat, h: nat)
    requires Separated(s, v4) && Splits(s, ip, i, j) && i <= h < j && s[h].start.n <= ip.n
    ensures Splits(s, ip, h + 1, j)
  {
    forall k | 0 <= k < h + 1 ensures s[k].start.n <= ip.n {
      if k < h { assert s[k].end.n < s[h].start.n; }
    }
  }

  lemma {:induction false} SearchSplits(s: seq<Interval>, v4: bool, ip: Addr, i: nat, j: nat)
    requires Separated(s, v4) && ip.V4? == v4 && Splits(s, ip, i, j)
    ensures var r := Search(s, ip, i, j); i <= r <= j && Splits(s, ip, r, r)
    decreases j - i
  {
    if i < j {
      var h := (i + j) / 2;
      if Compare(s[h].start, ip) > 0 {
        SplitsAbove(s, v4, ip, i, j, h);
        SearchSplits(s, v4, ip, i, h);
      } else {
        SplitsBelow(s, v4, ip, i, j, h);
        SearchSplits(s, v4, ip, h + 1, j);
      }
    }
  }

  function Locate(s: seq<Interval>, ip: Addr): Option<Interval> {
    var i := Search(s, ip, 0, |s|);
    SearchInRange(s, ip, 0, |s|);
    if i == 0 then None
    else if Compare(ip, s[i - 1].end) > 0 then None
    else Some(s[i - 1])
  }

  lemma {:induction false} SearchInRange(s: seq<Interval>, ip: Addr, i: nat, j: nat)
    requires i <= j <= |s|
    ensures i <= Search(s, ip, i, j) <= j
    decreases j - i
  {
    if i < j {
      var h := (i + j) / 2;
      SearchInRange(s, ip, i, h);
      SearchInRange(s, ip, h + 1, j);
    }
  }

  /** Binary search agrees with a linear scan, and what it returns is the one interval there is. */
  lemma LocateIsScan(s: seq<Interval>, v4: bool, ip: Addr)
    requires Separated(s, v4) && ip.V4? == v4
    ensures Locate(s, ip).Some? <==> Has(s, ip)
    ensures forall iv :: Locate(s, ip) == Some(iv) <==> iv in s && Holds(iv, ip)
  {
    forall k | 0 <= k < |s| && Holds(s[k], ip) ensures Locate(s, ip) == Some(s[k]) {
      HolderIsLocated(s, v4, ip, k);
    }
    LocatedHolds(s, v4, ip);
  }

  /** The interval that holds an address is the last one that starts at or before it. */
  lemma HolderIsLocated(s: seq<Interval>, v4: bool, ip: Addr, k: nat)
    requires Separated(s, v4) && ip.V4? == v4 && k < |s| && Holds(s[k], ip)
    ensures Locate(s, ip) == Some(s[k])
  {
    SearchSplits(s, v4, ip, 0, |s|);
    var r := Search(s, ip, 0, |s|);
    assert 0 < r <= |s| && s[r - 1].start.n <= ip.n;
    assert forall i :: 0 <= i < r - 1 ==> s[i].end.n < s[r - 1].start.n;
  }

  lemma LocatedHolds(s: seq<Interval>, v4: bool, ip: Addr)
    requires Separated(s, v4) && ip.V4? == v4
    ensures Locate(s, ip).Some? ==> Locate(s, ip).value in s && Holds(Locate(s, ip).value, ip)
  {
    SearchSplits(s, v4, ip, 0, |s|);
  }

  /** `Table.Locate`: the address is unmapped, then looked up in its own family's list. */
  function TableLocate(t: Table, ip: Addr): Option<Interval> {
    var u := Unmap(ip);
    Locate(if u.V4? then t.v4 else t.v6, u)
  }

  /** A lookup in a built table, end to end: the address is found exactly when some prefix's block
      holds its unmapped form, and the interval returned holds it and lies inside the blocks. */
  lemma LookupIsMembership(t: Table, prefixes: seq<Prefix>, ip: Addr)
    requires AllValid(prefixes) && Sound(t)
    requires forall a :: TableHas(t, a) <==> BlockHas(prefixes, a)
    ensures TableLocate(t, ip).Some? <==> BlockHas(prefixes, Unmap(ip))
    ensures forall iv :: TableLocate(t, ip) == Some(iv) ==>
              Holds(iv, Unmap(ip)) && forall a :: Holds(iv, a) ==> BlockHas(prefixes, a)
  {
    var u := Unmap(ip);
    var s := if u.V4? then t.v4 else t.v6;
    LocateIsScan(s, u.V4?, u);
    assert TableHas(t, u) <==> BlockHas(prefixes, u);
    forall iv, a | TableLocate(t, ip) == Some(iv) && Holds(iv, a) ensures BlockHas(prefixes, a) {
      HasMember(s, a);
      assert TableHas(t, a);
    }
  }

  /** For a list without short IPv4-mapped prefixes, being in a block is being covered. */
  lemma BlocksAreCidr(prefixes: seq<Prefix>, a: Addr)
    requires AllValid(prefixes)
    requires forall i :: 0 <= i < |prefixes| ==>
               !(IsMapped(Masked(prefixes[i]).addr) && prefixes[i].bits < 128)
    ensures BlockHas(prefixes, a) <==> exists i :: 0 <= i < |prefixes| && Covers(Meaning(prefixes[i]), a)
  {
    forall i | 0 <= i < |prefixes| ensures Holds(Block(prefixes[i]), a) <==> Covers(Meaning(prefixes[i]), a) {
      BlockIsExact(prefixes[i]);
    }
  }

  /** For a list without short IPv4-mapped prefixes the lookup is CIDR membership. */
  lemma LookupIsCidr(t: Table, prefixes: seq<Prefix>, ip: Addr)
    requires AllValid(prefixes) && Sound(t)
    requires forall a :: TableHas(t, a) <==> BlockHas(prefixes, a)
    requires forall i :: 0 <= i < |prefixes| ==>
               !(IsMapped(Masked(prefixes[i]).addr) && prefixes[i].bits < 128)
    ensures TableLocate(t, ip).Some? <==>
            exists i :: 0 <= i < |prefixes| && Covers(Meaning(prefixes[i]), Unmap(ip))
  {
    LookupIsMembership(t, prefixes, ip);
    BlocksAreCidr(prefixes, Unmap(ip));
  }

  // ---- a prefix from an interval ----

  /** The interval is the aligned block of `p`. */
  predicate IsBlockOf(iv: Interval, p: Prefix) {
    ValidPrefix(p) && IsMasked(p) && p.addr == iv.start && !IsMapped(iv.start) && iv.end == Last(p)
  }

  lemma BlockOfIsCidr(iv: Interval, p: Prefix)
    requires IsBlockOf(iv, p)
    ensures forall a :: Holds(iv, a) <==> Covers(p, a)
  {
    forall a ensures Holds(iv, a) <==> Covers(p, a) { CoversIsRange(p, a); }
  }

  lemma {:induction false} Pow2Strict(a: nat, b: nat)
    requires a < b
    ensures Pow2(a) < Pow2(b)
  {
    Pow2Monotone(a, b - 1);
  }

  lemma BlockPrefixUnique(iv: Interval, p: Prefix, q: Prefix)
    requires IsBlockOf(iv, p) && IsBlockOf(iv, q)
    ensures p == q
  {
    var w := BitLen(iv.start);
    if p.bits < q.bits { Pow2Strict(w - q.bits, w - p.bits); }
    if q.bits < p.bits { Pow2Strict(w - p.bits, w - q.bits); }
  }

  /** The prefix of an interval, where there is one. */
  ghost function PrefixOf(iv: Interval): Option<Prefix> {
    if exists p :: IsBlockOf(iv, p) then
      var p :| IsBlockOf(iv, p);
      Some(p)
    else None
  }

  lemma PrefixOfIs(iv: Interval, p: Prefix)
    requires IsBlockOf(iv, p)
    ensures PrefixOf(iv) == Some(p)
  {
    BlockPrefixUnique(iv, p, PrefixOf(iv).value);
  }

  /** `Interval.Prefix`: the longest aligned length whose block is the interval. */
  method IntervalPrefix(iv: Interval) returns (r: Option<Prefix>)
    ensures r == PrefixOf(iv)
    ensures r.Some? <==> exists p :: IsBlockOf(iv, p)
  {
    if iv.start.V4? != iv.end.V4? {
      return None;
    }
    var bits: int := BitLen(iv.start);
    while bits >= 0
      invariant -1 <= bits <= BitLen(iv.start)
      invariant forall p :: IsBlockOf(iv, p) ==> p.bits <= bits
    {
      var p := Prefix(iv.start, bits);
      if Masked(p).addr == iv.start {
        var last := LastAddr(p);
        if last == iv.end {
          assert !IsMapped(iv.start);
          PrefixOfIs(iv, p);
          return Some(p);
        }
      }
      bits := bits - 1;
    }
    return None;
  }

  // ---- where the list and the documentation part ----

  /** Two touching IPv6 networks on either side of the top of the mapped block stay apart. */
  lemma AdjacencyMissedAtMappedTop()
    ensures var a := Interval(V6(0), V6(MAPPED_HI));
            var b := Interval(V6(MAPPED_HI + 1), V6(2 * MAPPED_HI + 1));
            a.end.n + 1 == b.start.n && !OverlapsOrTouches(a, b)
  {
    MeetsWhen(Interval(V6(0), V6(MAPPED_HI)), Interval(V6(MAPPED_HI + 1), V6(2 * MAPPED_HI + 1)));
  }
}
