/** Powers of two, bytes, and the most-significant-first bit strings of numbers and addresses. */
module Bits {

  type byte = x: int | 0 <= x < 256

  function Pow2(n: nat): (r: nat)
    ensures r >= 1
  {
    if n == 0 then 1 else 2 * Pow2(n - 1)
  }

  lemma {:induction false} Pow2Add(m: nat, n: nat)
    ensures Pow2(m + n) == Pow2(m) * Pow2(n)
  {
    if m == 0 {
    } else {
      Pow2Add(m - 1, n);
      calc {
        Pow2(m + n);
        2 * (Pow2(m - 1) * Pow2(n));
        (2 * Pow2(m - 1)) * Pow2(n);
      }
    }
  }

  lemma Pow2Of8()
    ensures Pow2(0) == 1 && Pow2(1) == 2 && Pow2(2) == 4 && Pow2(3) == 8 && Pow2(4) == 16
    ensures Pow2(5) == 32 && Pow2(6) == 64 && Pow2(7) == 128 && Pow2(8) == 256
  {
  }

  /** The `n` low-order bits of `x`, most significant first. */
  function BitsOf(n: nat, x: nat): (r: seq<bool>)
    ensures |r| == n
  {
    if n == 0 then [] else BitsOf(n - 1, x / 2) + [x % 2 == 1]
  }

  lemma {:induction false} BitsInjective(n: nat, x: nat, y: nat)
    requires x < Pow2(n) && y < Pow2(n)
    requires BitsOf(n, x) == BitsOf(n, y)
    ensures x == y
  {
    if n > 0 {
      var bx, bz := BitsOf(n - 1, x / 2), BitsOf(n - 1, y / 2);
      assert (bx + [x % 2 == 1])[..n - 1] == bx && (bz + [y % 2 == 1])[..n - 1] == bz;
      assert (bx + [x % 2 == 1])[n - 1] == (bz + [y % 2 == 1])[n - 1];
      BitsInjective(n - 1, x / 2, y / 2);
    }
  }

  lemma BitsEqual(n: nat, x: nat, y: nat)
    requires x < Pow2(n) && y < Pow2(n)
    ensures BitsOf(n, x) == BitsOf(n, y) <==> x == y
  {
    if BitsOf(n, x) == BitsOf(n, y) {
      BitsInjective(n, x, y);
    }
  }

  /** The number a bit string spells. */
  function NumberOf(u: seq<bool>): (x: nat)
  {
    if u == [] then 0 else 2 * NumberOf(u[..|u| - 1]) + if u[|u| - 1] then 1 else 0
  }

  lemma {:induction false} BitsOfNumber(u: seq<bool>)
    ensures NumberOf(u) < Pow2(|u|) && BitsOf(|u|, NumberOf(u)) == u
  {
    if u != [] {
      BitsOfNumber(u[..|u| - 1]);
      assert u == u[..|u| - 1] + [u[|u| - 1]];
    }
  }

  /** `x` shifted right by `k` bits. */
  function Shr(x: nat, k: nat): (r: nat)
  {
    if k == 0 then x else Shr(x / 2, k - 1)
  }

  lemma {:induction false} ShrBound(n: nat, x: nat, k: nat)
    requires k <= n && x < Pow2(n)
    ensures Shr(x, k) < Pow2(n - k)
  {
    if k > 0 {
      ShrBound(n - 1, x / 2, k - 1);
    }
  }

  /** The leading `k` bits of an `n`-bit number are the bits of the number shifted right by `n - k`. */
  lemma {:induction false} LeadingBits(n: nat, x: nat, k: nat)
    requires k <= n
    ensures BitsOf(n, x)[..k] == BitsOf(k, Shr(x, n - k))
  {
    if k < n {
      LeadingBits(n - 1, x / 2, k);
      assert BitsOf(n, x)[..k] == BitsOf(n - 1, x / 2)[..k];
    }
  }

  /** Two `n`-bit numbers agree on their first `k` bits exactly when they agree shifted right by `n - k`. */
  lemma {:induction false} SameLeading(n: nat, x: nat, y: nat, k: nat)
    requires k <= n && x < Pow2(n) && y < Pow2(n)
    ensures BitsOf(n, x)[..k] == BitsOf(n, y)[..k] <==> Shr(x, n - k) == Shr(y, n - k)
  {
    LeadingBits(n, x, k);
    LeadingBits(n, y, k);
    ShrBound(n, x, n - k);
    ShrBound(n, y, n - k);
    BitsEqual(k, Shr(x, n - k), Shr(y, n - k));
  }

  /** Shifting a byte right is dividing it by a power of two. */
  lemma ShrByte(x: byte)
    ensures Shr(x, 0) == x && Shr(x, 1) == x / 2 && Shr(x, 2) == x / 4 && Shr(x, 3) == x / 8
    ensures Shr(x, 4) == x / 16 && Shr(x, 5) == x / 32 && Shr(x, 6) == x / 64
    ensures Shr(x, 7) == x / 128 && Shr(x, 8) == 0
  {
  }

  lemma {:induction false} ShrMore(x: nat, k: nat)
    ensures Shr(x, k + 1) == Shr(x, k) / 2
  {
    if k > 0 {
      ShrMore(x / 2, k - 1);
    }
  }

  lemma MulSign(d: int, k: int)
    requires d > 0
    ensures k >= 1 ==> d * k >= d
    ensures k <= -1 ==> d * k <= -d
  {
  }

  lemma DivUnique(x: int, d: int, q: int, r: int)
    requires d > 0 && 0 <= r < d && x == d * q + r
    ensures x / d == q && x % d == r
  {
    var q', r' := x / d, x % d;
    assert x == d * q' + r';
    assert d * (q - q') == r' - r;
    MulSign(d, q - q');
  }

  lemma Quotient(x: nat, d: nat) returns (q: nat)
    requires d > 0
    ensures x - x % d == d * q && d * q <= x < d * q + d
  {
    q := x / d;
  }

  lemma RoundDown(x: nat, d: nat) returns (s: nat)
    requires d > 0
    ensures s == x - x % d && s <= x && s % d == 0 && s / d == x / d
  {
    s := x - x % d;
    assert s == d * (x / d) + 0;
    DivUnique(s, d, x / d, 0);
  }

  lemma DivBelow(x: nat, d: nat, m: nat)
    requires d > 0 && x < d * m
    ensures x / d < m
  {
  }

  /** The bit string of an address given as bytes. */
  function AddressBits(a: seq<byte>): (r: seq<bool>)
    ensures |r| == 8 * |a|
  {
    if a == [] then [] else AddressBits(a[..|a| - 1]) + BitsOf(8, a[|a| - 1])
  }

  lemma AddressBitsStep(a: seq<byte>, l: nat)
    requires l < |a|
    ensures AddressBits(a[..l + 1]) == AddressBits(a[..l]) + BitsOf(8, a[l])
  {
    assert a[..l + 1][..l] == a[..l];
  }

  lemma AddressBitsAppend(x: seq<byte>, i: byte)
    ensures AddressBits(x + [i]) == AddressBits(x) + BitsOf(8, i)
  {
  }

  /** The bits of the leading bytes are the leading bits. */
  lemma {:induction false} AddressBitsPrefix(a: seq<byte>, l: nat)
    requires l <= |a|
    ensures AddressBits(a)[..8 * l] == AddressBits(a[..l])
  {
    if l == |a| {
      assert a[..l] == a;
      assert AddressBits(a)[..8 * l] == AddressBits(a);
    } else {
      var h := a[..|a| - 1];
      AddressBitsPrefix(h, l);
      assert h[..l] == a[..l];
      assert AddressBits(a)[..8 * l] == AddressBits(h)[..8 * l];
    }
  }

  lemma {:induction false} AddressBitsInjective(a: seq<byte>, b: seq<byte>)
    requires |a| == |b| && AddressBits(a) == AddressBits(b)
    ensures a == b
  {
    if a != [] {
      var n := |a| - 1;
      AddressBitsPrefix(a, n);
      AddressBitsPrefix(b, n);
      AddressBitsInjective(a[..n], b[..n]);
      assert AddressBits(a)[8 * n..] == BitsOf(8, a[n]);
      assert AddressBits(b)[8 * n..] == BitsOf(8, b[n]);
      Pow2Of8();
      BitsInjective(8, a[n], b[n]);
      assert a == a[..n] + [a[n]] && b == b[..n] + [b[n]];
    }
  }

  /** Agreement of two addresses on `8 * l + k` bits, byte by byte. */
  lemma {:induction false} LeadingAddressBits(a: seq<byte>, b: seq<byte>, l: nat, k: nat)
    requires |a| == |b| && l < |a| && k <= 8
    ensures AddressBits(a)[..8 * l + k] == AddressBits(b)[..8 * l + k]
       <==> a[..l] == b[..l] && BitsOf(8, a[l])[..k] == BitsOf(8, b[l])[..k]
  {
    SplitLeading(a, l, k);
    SplitLeading(b, l, k);
    var x, y := AddressBits(a[..l]), AddressBits(b[..l]);
    var u, v := BitsOf(8, a[l])[..k], BitsOf(8, b[l])[..k];
    if x + u == y + v {
      assert (x + u)[..8 * l] == x && (y + v)[..8 * l] == y;
      assert (x + u)[8 * l..] == u && (y + v)[8 * l..] == v;
      AddressBitsInjective(a[..l], b[..l]);
    }
  }

  lemma {:induction false} SplitLeading(a: seq<byte>, l: nat, k: nat)
    requires l < |a| && k <= 8
    ensures AddressBits(a)[..8 * l + k] == AddressBits(a[..l]) + BitsOf(8, a[l])[..k]
  {
    AddressBitsPrefix(a, l + 1);
    AddressBitsStep(a, l);
    var h := AddressBits(a)[..8 * (l + 1)];
    assert AddressBits(a)[..8 * l + k] == h[..8 * l + k];
  }
}
