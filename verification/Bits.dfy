/** Arithmetic that the address and hash code is written in: powers of two, the bitwise operators
    on naturals, and big- and little-endian byte strings. */
module Bits {

  type Byte = x: int | 0 <= x < 256

  const TWO16 := 0x1_0000
  const TWO32 := 0x1_0000_0000
  const TWO63 := 0x8000_0000_0000_0000
  const TWO64 := 0x1_0000_0000_0000_0000
  const TWO128 := 0x1_0000_0000_0000_0000_0000_0000_0000_0000

  type u32 = x: int | 0 <= x < TWO32
  type u64 = x: int | 0 <= x < TWO64
  type i64 = x: int | -TWO63 <= x < TWO63
  type u128 = x: int | 0 <= x < TWO128

  datatype Option<+T> = None | Some(value: T)

  function Pow2(k: nat): (p: nat)
    ensures p >= 1
  {
    if k == 0 then 1 else 2 * Pow2(k - 1)
  }

  lemma {:induction false} Pow2Add(a: nat, b: nat)
    ensures Pow2(a + b) == Pow2(a) * Pow2(b)
  {
    if a > 0 {
      Pow2Add(a - 1, b);
      assert Pow2(a + b) == 2 * (Pow2(a - 1) * Pow2(b));
    }
  }

  lemma Pow2Square(a: nat, v: nat)
    requires Pow2(a) == v
    ensures Pow2(2 * a) == v * v
  {
    Pow2Add(a, a);
  }

  lemma Pow2At8()
    ensures Pow2(8) == 256
  {
  }

  lemma Pow2Widths()
    ensures Pow2(8) == 256
    ensures Pow2(32) == TWO32
    ensures Pow2(64) == TWO64
    ensures Pow2(128) == TWO128
  {
    Pow2Square(8, 256);
    Pow2Square(16, TWO16);
    Pow2Square(32, TWO32);
    Pow2Square(64, TWO64);
  }

  lemma {:induction false} Pow2Monotone(a: nat, b: nat)
    requires a <= b
    ensures Pow2(a) <= Pow2(b)
  {
    if a < b {
      Pow2Monotone(a, b - 1);
    }
  }

  // ---- bitwise operators ----

  function Xor(a: nat, b: nat): nat {
    if a == 0 && b == 0 then 0
    else (if a % 2 != b % 2 then 1 else 0) + 2 * Xor(a / 2, b / 2)
  }

  function Or(a: nat, b: nat): nat {
    if a == 0 && b == 0 then 0
    else (if a % 2 == 1 || b % 2 == 1 then 1 else 0) + 2 * Or(a / 2, b / 2)
  }

  lemma {:induction false} XorZero(a: nat)
    ensures Xor(a, 0) == a
    ensures Xor(0, a) == a
  {
    if a > 0 {
      XorZero(a / 2);
    }
  }

  lemma {:induction false} XorComm(a: nat, b: nat)
    ensures Xor(a, b) == Xor(b, a)
    decreases a + b
  {
    if a > 0 || b > 0 {
      XorComm(a / 2, b / 2);
    }
  }

  lemma {:induction false} XorAssoc(a: nat, b: nat, c: nat)
    ensures Xor(Xor(a, b), c) == Xor(a, Xor(b, c))
    decreases a + b + c
  {
    if a > 0 || b > 0 || c > 0 {
      XorAssoc(a / 2, b / 2, c / 2);
      XorStep(a, b);
      XorStep(b, c);
      XorStep(Xor(a, b), c);
      XorStep(a, Xor(b, c));
    }
  }

  lemma XorStep(a: nat, b: nat)
    ensures Xor(a, b) / 2 == Xor(a / 2, b / 2)
    ensures Xor(a, b) % 2 == (if a % 2 != b % 2 then 1 else 0)
    ensures Xor(a, b) == (if a % 2 != b % 2 then 1 else 0) + 2 * Xor(a / 2, b / 2)
  {
  }

  lemma {:induction false} XorSelf(a: nat)
    ensures Xor(a, a) == 0
  {
    if a > 0 {
      XorSelf(a / 2);
    }
  }

  /** XOR of a value twice restores what was there. */
  lemma XorCancel(a: nat, h: nat)
    ensures Xor(Xor(a, h), h) == a
  {
    XorAssoc(a, h, h);
    XorSelf(h);
    XorZero(a);
  }

  lemma {:induction false} XorBound(a: nat, b: nat, k: nat)
    requires a < Pow2(k) && b < Pow2(k)
    ensures Xor(a, b) < Pow2(k)
    decreases k
  {
    if k > 0 {
      XorBound(a / 2, b / 2, k - 1);
    }
  }

  function Xor64(a: u64, b: u64): (r: u64)
    ensures r == Xor(a, b)
  {
    Pow2Widths();
    XorBound(a, b, 64);
    Xor(a, b)
  }

  /** Setting the low `k` bits of a value whose low `k` bits are clear adds `2^k - 1`. */
  lemma {:induction false} OrMask(a: nat, k: nat)
    requires a % Pow2(k) == 0
    ensures Or(a, Pow2(k) - 1) == a + Pow2(k) - 1
    decreases k
  {
    if k == 0 {
      OrZero(a);
    } else {
      var h := Pow2(k - 1);
      assert Pow2(k) == 2 * h;
      var q := a / (2 * h);
      assert a == 2 * h * q + a % (2 * h);
      assert a == 2 * (h * q);
      assert a / 2 == h * q;
      MultipleMod(q, h);
      assert (a / 2) % h == 0;
      OrMask(a / 2, k - 1);
      assert (2 * h - 1) / 2 == h - 1 && (2 * h - 1) % 2 == 1;
    }
  }

  lemma {:induction false} OrZero(a: nat)
    ensures Or(a, 0) == a
  {
    if a > 0 {
      OrZero(a / 2);
    }
  }

  lemma {:induction false} MultipleMod(q: nat, h: nat)
    requires h > 0
    ensures (h * q) % h == 0
    ensures (h * q) / h == q
  {
    DivUnique(h * q, h, q, 0);
  }

  /** Euclid's division is the only way to write `n` as `d * q + r` with `0 <= r < d`. */
  lemma DivUnique(n: int, d: nat, q: int, r: int)
    requires d > 0 && 0 <= r < d && n == d * q + r
    ensures n / d == q && n % d == r
  {
    var q', r' := n / d, n % d;
    assert n == d * q' + r';
    assert d * (q - q') == r' - r;
    if q > q' {
      assert d * (q - q') >= d by { MulAtLeast(d, q - q'); }
    } else if q < q' {
      assert d * (q' - q) >= d by { MulAtLeast(d, q' - q); }
    }
  }

  lemma MulAtLeast(d: nat, k: int)
    requires k >= 1
    ensures d * k >= d
  {
  }

  // ---- byte strings ----

  /** The value of a big-endian byte string. */
  function FromBE(s: seq<Byte>): nat {
    if s == [] then 0 else FromBE(s[..|s| - 1]) * 256 + s[|s| - 1]
  }

  /** The low `k` bytes of `n`, most significant first. */
  function ToBE(n: nat, k: nat): (s: seq<Byte>)
    ensures |s| == k
  {
    if k == 0 then [] else ToBE(n / 256, k - 1) + [n % 256]
  }

  /** One more byte is eight more bits. */
  lemma ByteWide(k: nat)
    requires k > 0
    ensures Pow2(8 * k) == 256 * Pow2(8 * (k - 1))
  {
    Pow2At8();
    Pow2Add(8, 8 * (k - 1));
  }

  lemma {:induction false} BEBound(s: seq<Byte>)
    ensures FromBE(s) < Pow2(8 * |s|)
  {
    if s != [] {
      BEBound(s[..|s| - 1]);
      ByteWide(|s|);
    }
  }

  lemma BelowByte(n: nat, p: nat)
    requires n < 256 * p
    ensures n / 256 < p && n == n / 256 * 256 + n % 256
  {
  }

  lemma {:induction false} BERoundTrip(n: nat, k: nat)
    requires n < Pow2(8 * k)
    ensures FromBE(ToBE(n, k)) == n
  {
    if k > 0 {
      ByteWide(k);
      BelowByte(n, Pow2(8 * (k - 1)));
      BERoundTrip(n / 256, k - 1);
      assert ToBE(n, k)[..k - 1] == ToBE(n / 256, k - 1);
    }
  }

  lemma {:induction false} BEInverse(s: seq<Byte>)
    ensures ToBE(FromBE(s), |s|) == s
  {
    if s != [] {
      var front := s[..|s| - 1];
      BEInverse(front);
      LastByte(FromBE(front), s[|s| - 1]);
      assert s == front + [s[|s| - 1]];
    }
  }

  lemma LastByte(x: nat, b: Byte)
    ensures (x * 256 + b) / 256 == x && (x * 256 + b) % 256 == b
  {
  }

  lemma {:induction false} BEConcat(a: seq<Byte>, b: seq<Byte>)
    ensures FromBE(a + b) == FromBE(a) * Pow2(8 * |b|) + FromBE(b)
  {
    if b == [] {
      assert a + b == a;
    } else {
      var b' := b[..|b| - 1];
      BEConcat(a, b');
      assert (a + b)[..|a + b| - 1] == a + b';
      ByteWide(|b|);
      assert FromBE(a + b) == FromBE(a + b') * 256 + b[|b| - 1];
      ShiftByte(FromBE(a), Pow2(8 * |b'|), FromBE(b'));
    }
  }

  lemma ShiftByte(x: nat, k: nat, y: nat)
    ensures (x * k + y) * 256 == x * (k * 256) + y * 256
  {
  }

  /** The value of a little-endian byte string. */
  function FromLE(s: seq<Byte>): nat {
    if s == [] then 0 else s[0] + 256 * FromLE(s[1..])
  }

  function ToLE(n: nat, k: nat): (s: seq<Byte>)
    ensures |s| == k
  {
    if k == 0 then [] else [n % 256] + ToLE(n / 256, k - 1)
  }

  lemma {:induction false} LEBound(s: seq<Byte>)
    ensures FromLE(s) < Pow2(8 * |s|)
  {
    if s != [] {
      LEBound(s[1..]);
      ByteWide(|s|);
    }
  }

  lemma {:induction false} LERoundTrip(n: nat, k: nat)
    requires n < Pow2(8 * k)
    ensures FromLE(ToLE(n, k)) == n
  {
    if k > 0 {
      ByteWide(k);
      BelowByte(n, Pow2(8 * (k - 1)));
      LERoundTrip(n / 256, k - 1);
      assert ToLE(n, k)[1..] == ToLE(n / 256, k - 1);
    }
  }
}
