/**
 * Masking of the prefix of a route request before it is added: bytes past the prefix length
 * are cleared, and the byte in which it ends is masked, except when that is the last byte.
 */
module RouteMask {
  import opened Bits
  import opened Routes
  import opened Mtrie
  import opened MtrieAdd
  import opened MtrieRoutes

  /** The mask applied to the byte in which the prefix ends, as the number of low-order values it clears. */
  function Cleared(plen: nat, v6: bool): nat
  {
    if v6 then 256 else Pow2(8 - plen % 8)
  }

  /** What becomes of a prefix. */
  function Masked(p: seq<byte>, plen: nat, v6: bool): (r: seq<byte>)
    requires p != [] && plen <= 8 * |p|
    ensures |r| == |p|
  {
    var b := plen / 8;
    if b >= |p| - 1 then p
    else p[..b] + [ClearLow(p[b], Cleared(plen, v6))] + seq(|p| - b - 1, _ => 0)
  }

  /** A byte with its low-order bits, those below the power of two `f`, cleared. */
  function ClearLow(x: byte, f: nat): (r: byte)
    requires f > 0
    ensures r <= x
  {
    LowPart(x, f);
    x - x % f
  }

  lemma LowPart(x: nat, f: nat)
    requires f > 0
    ensures 0 <= x % f <= x
  {
  }

  // ----- in place

  /** The byte of a 32-bit mask of leading ones that applies to byte `b`, after the shifts of the loop. */
  lemma MaskByte(a: nat, b: nat)
    requires b <= 8 <= a
    ensures (Pow2(a) - Pow2(b)) % 256 == (256 - Pow2(b)) % 256
  {
    Pow2Of8();
    Pow2Add(8, a - 8);
    assert Pow2(a) == 256 * Pow2(a - 8);
    assert Pow2(a) - Pow2(b) == 256 * (Pow2(a - 8) - 1) + (256 - Pow2(b));
    Multiples(256 - Pow2(b), Pow2(a - 8) - 1);
  }

  lemma Multiples(x: int, k: int)
    ensures (256 * k + x) % 256 == x % 256
  {
  }

  lemma MaskShift(a: nat, b: nat)
    requires 8 <= b <= a
    ensures (Pow2(a) - Pow2(b)) / 256 == Pow2(a - 8) - Pow2(b - 8)
  {
    Pow2Of8();
    Pow2Add(8, a - 8);
    Pow2Add(8, b - 8);
    DivUnique(Pow2(a) - Pow2(b), 256, Pow2(a - 8) - Pow2(b - 8), 0);
  }

  /** A byte under a mask of leading ones: the mask is 256 less a power of two. */
  function And(x: byte, mask: nat): byte
    requires mask < 256
  {
    ClearLow(x, 256 - mask)
  }

  /** A mask shifted right by `n` bytes. */
  function Shifted(mask: nat, n: nat): nat
  {
    if n == 0 then mask else Shifted(mask, n - 1) / 256
  }

  lemma {:induction false} ShiftedOnes(a: nat, b: nat, n: nat)
    requires 8 * n <= b <= a && Pow2(b) <= Pow2(a)
    ensures Shifted(Pow2(a) - Pow2(b), n) == Pow2(a - 8 * n) - Pow2(b - 8 * n)
  {
    if n > 0 {
      ShiftedOnes(a, b, n - 1);
      MaskShift(a - 8 * (n - 1), b - 8 * (n - 1));
    }
  }

  lemma {:induction false} ShiftedZero(n: nat)
    ensures Shifted(0, n) == 0
  {
    if n > 0 { ShiftedZero(n - 1); }
  }

  /** The mask as computed at first: for IPv4 leading ones, for IPv6 nothing. */
  function FirstMask(plen: nat, v6: bool): nat
    requires plen <= 32 || v6
  {
    if v6 then 0 else MoreOnes(32, 32 - plen); Pow2(32) - Pow2(32 - plen)
  }

  lemma {:induction false} MoreOnes(a: nat, b: nat)
    requires b <= a
    ensures Pow2(b) <= Pow2(a)
  {
    if b < a { MoreOnes(a - 1, b); }
  }

  lemma FinalOnes(b: nat, k: nat)
    requires b < 3 && k < 8
    ensures 256 - Shifted(FirstMask(8 * b + k, false), 3 - b) % 256 == Pow2(8 - k)
  {
    OnesAt(32, b, k);
  }

  lemma OnesAt(width: nat, b: nat, k: nat)
    requires width == 32 && b < 3 && k < 8
    ensures Pow2(width - (8 * b + k)) <= Pow2(width)
    ensures 256 - Shifted(Pow2(width) - Pow2(width - (8 * b + k)), 3 - b) % 256 == Pow2(8 - k)
  {
    OnesShifted(width, width - (8 * b + k), 3 - b, 8 * (b + 1), 8 - k);
  }

  lemma OnesShifted(a: nat, low: nat, n: nat, a': nat, low': nat)
    requires low <= a && low' <= 8 <= a' && a == a' + 8 * n && low == low' + 8 * n
    ensures Pow2(low) <= Pow2(a) && 256 - Shifted(Pow2(a) - Pow2(low), n) % 256 == Pow2(low')
  {
    MoreOnes(a, low);
    ShiftedOnes(a, low, n);
    LastByte(a', low');
  }

  lemma LastByte(a: nat, b: nat)
    requires b <= 8 <= a
    ensures 256 - (Pow2(a) - Pow2(b)) % 256 == Pow2(b)
  {
    MaskByte(a, b);
    AtMost256(b);
    Negated(Pow2(a) - Pow2(b), Pow2(b));
  }

  lemma Negated(x: int, p: nat)
    requires 1 <= p <= 256 && x % 256 == (256 - p) % 256
    ensures 256 - x % 256 == p
  {
  }

  lemma AtMost256(b: nat)
    requires b <= 8
    ensures Pow2(b) <= 256
  {
    Pow2Of8();
  }

  lemma FinalMask(plen: nat, v6: bool)
    requires plen / 8 < (if v6 then 15 else 3)
    ensures 256 - Shifted(FirstMask(plen, v6), (if v6 then 15 else 3) - plen / 8) % 256 == Cleared(plen, v6)
  {
    if v6 { ShiftedZero(15 - plen / 8); } else { FinalOnes(plen / 8, plen % 8); }
  }

  method ClearRest(p: array<byte>, b: nat, mask0: nat) returns (mask: nat)
    requires b < p.Length
    modifies p
    ensures p[..] == old(p[..])[..b + 1] + seq(p.Length - b - 1, _ => 0)
    ensures mask == Shifted(mask0, p.Length - 1 - b)
  {
    mask := mask0;
    for i := b + 1 to p.Length
      invariant p[..i] == old(p[..])[..b + 1] + seq(i - b - 1, _ => 0)
      invariant mask == Shifted(mask0, i - 1 - b)
    {
      p[i] := 0;
      mask := mask / 256;
    }
    assert p[..] == p[..p.Length];
  }

  /** Masks a prefix in place, shifting the mask along as the bytes are cleared. */
  method Mask(p: array<byte>, plen: nat, v6: bool)
    requires p.Length == (if v6 then 16 else 4) && plen <= 8 * p.Length && (plen > 0 || v6)
    modifies p
    ensures p[..] == Masked(old(p[..]), plen, v6)
  {
    var b := plen / 8;
    if b < p.Length - 1 {
      FinalMask(plen, v6);
      var mask := ClearRest(p, b, FirstMask(plen, v6));
      p[b] := And(p[b], mask % 256);
    }
  }

  // ----- when the prefix is masked right

  lemma ByteKept(x: byte, k: nat)
    requires k <= 8
    ensures BitsOf(8, ClearLow(x, Pow2(8 - k)))[..k] == BitsOf(8, x)[..k]
    ensures ClearLow(x, Pow2(8 - k)) % Pow2(8 - k) == 0
  {
    var s := RoundDown(x, Pow2(8 - k));
    SameLeading(8, s, x, k) by { Pow2Of8(); }
    ShrIsDiv(s, 8 - k);
    ShrIsDiv(x, 8 - k);
  }

  /** Where a prefix ends before the last byte, the bytes before are kept and the one in which it ends is masked. */
  lemma MaskedAt(p: seq<byte>, plen: nat, v6: bool)
    requires p != [] && plen / 8 < |p| - 1
    ensures var m, b := Masked(p, plen, v6), plen / 8; m[..b] == p[..b] && m[b] == ClearLow(p[b], Cleared(plen, v6))
  {
  }

  /** A prefix of whole bytes is kept. */
  lemma WholeBytes(p: seq<byte>, plen: nat, v6: bool)
    requires p != [] && plen % 8 == 0 && 8 <= plen && plen / 8 < |p| - 1
    ensures Matches(p, plen, Masked(p, plen, v6))
  {
    var m, b := Masked(p, plen, v6), plen / 8;
    MaskedAt(p, plen, v6);
    MatchesUnfold(p, b - 1, plen, m);
    assert m[b - 1] == m[..b][b - 1] == p[b - 1];
    assert m[..b - 1] == m[..b][..b - 1] == p[..b - 1];
  }

  /**
   * Masking an IPv4 prefix keeps the bits that count, and makes the prefix fit for the trie exactly when
   * it is not longer than 24 bits or was fit before: the last byte is left as it is.
   */
  lemma Ipv4Masked(p: seq<byte>, plen: nat)
    requires |p| == 4 && 1 <= plen <= 32
    ensures Matches(p, plen, Masked(p, plen, false))
    ensures Aligned(Masked(p, plen, false), plen) <==> plen <= 24 || Aligned(p, plen)
  {
    var b, k := plen / 8, plen % 8;
    if b >= 3 {
      MatchesUnfold(p, (plen - 1) / 8, plen, p);
    } else if k == 0 {
      WholeBytes(p, plen, false);
    } else {
      PartialByte(p, plen);
    }
  }

  lemma PartialByte(p: seq<byte>, plen: nat)
    requires |p| == 4 && plen / 8 < 3 && plen % 8 > 0
    ensures Matches(p, plen, Masked(p, plen, false)) && Aligned(Masked(p, plen, false), plen)
  {
    var b, k := plen / 8, plen % 8;
    MaskedAt(p, plen, false);
    ByteKept(p[b], k);
    MatchesUnfold(p, b, plen, Masked(p, plen, false));
  }

  /** The length is a multiple of eight, or the bits that count in the byte where the prefix ends are zero. */
  predicate NothingCleared(p: seq<byte>, plen: nat)
    requires plen <= 8 * |p|
  {
    plen % 8 == 0 || BitsOf(8, p[plen / 8])[..plen % 8] == BitsOf(8, 0)[..plen % 8]
  }

  /**
   * Masking an IPv6 prefix clears the whole byte in which it ends: the bits that count are kept exactly
   * when the length is a multiple of eight, or ends in the last byte, or those bits are zero anyway.
   */
  lemma Ipv6Masked(p: seq<byte>, plen: nat)
    requires |p| == 16 && plen <= 128
    ensures Matches(p, plen, Masked(p, plen, true)) <==> plen > 120 || NothingCleared(p, plen)
    ensures Aligned(Masked(p, plen, true), plen) <==> plen <= 120 || Aligned(p, plen)
  {
    var b, k := plen / 8, plen % 8;
    if b >= 15 {
      MatchesUnfold(p, (plen - 1) / 8, plen, p);
    } else if plen == 0 {
      assert AddressBits(p)[..0] == [];
    } else if k == 0 {
      WholeBytes(p, plen, true);
    } else {
      MaskedAt(p, plen, true);
      MatchesUnfold(p, b, plen, Masked(p, plen, true));
    }
  }

  // ----- a whole request

  /** A prefix that keeps its bits and is aligned after masking is added as the route that was asked for. */
  lemma MaskedAdded(e: Entry, R: RouteSet, p: seq<byte>, plen: nat, res: Result, v6: bool)
    requires p != [] && plen <= 8 * |p| && Represents(e, R, [], |p|)
    requires Matches(p, plen, Masked(p, plen, v6)) && Aligned(Masked(p, plen, v6), plen)
    ensures WellFormed(e, 0, |p|)
    ensures Represents(AddAt(e, Masked(p, plen, v6), 0, plen, res), R[AddressBits(p)[..plen] := res], [], |p|)
  {
    var m := Masked(p, plen, v6);
    RepresentsShape(e, R, [], 0, |p|);
    assert m[..0] == [] && AddressBits(m[..0]) == [];
    assert AddressBits(m)[..plen] == AddressBits(p)[..plen];
    AddRepresents(e, R, m, 0, plen, res);
  }

  /** IPv4 requests up to 24 bits, or with an aligned last byte, are added as asked for. */
  lemma Ipv4RequestAdded(e: Entry, R: RouteSet, p: seq<byte>, plen: nat, res: Result)
    requires |p| == 4 && 1 <= plen <= 32 && Represents(e, R, [], 4) && (plen <= 24 || Aligned(p, plen))
    ensures WellFormed(e, 0, 4)
    ensures Represents(AddAt(e, Masked(p, plen, false), 0, plen, res), R[AddressBits(p)[..plen] := res], [], 4)
  {
    Ipv4Masked(p, plen);
    MaskedAdded(e, R, p, plen, res, false);
  }

  /** IPv6 requests that end in the last byte, aligned, or lose no bit that counts are added as asked for. */
  lemma Ipv6RequestAdded(e: Entry, R: RouteSet, p: seq<byte>, plen: nat, res: Result)
    requires |p| == 16 && plen <= 128 && Represents(e, R, [], 16)
    requires if plen > 120 then Aligned(p, plen) else NothingCleared(p, plen)
    ensures WellFormed(e, 0, 16)
    ensures Represents(AddAt(e, Masked(p, plen, true), 0, plen, res), R[AddressBits(p)[..plen] := res], [], 16)
  {
    Ipv6Masked(p, plen);
    MaskedAdded(e, R, p, plen, res, true);
  }
}
