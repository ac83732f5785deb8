/**
 * One's-complement checksums. All shortcuts are compared with the plain sum of the 16-bit
 * words: the result is a 16-bit value congruent to it modulo 65535, no carry is lost.
 */
module Checksum {
  import opened Bits
  import opened Numbers
  import opened Words

  const M := 65535

  type word = x: int | 0 <= x < 65536

  /** Equal as one's-complement sums. */
  predicate Same(a: int, b: int)
  {
    (a - b) % M == 0
  }

  function Complement(x: word): word
  {
    M - x
  }

  lemma SameTrans(a: int, b: int, c: int)
    requires Same(a, b) && Same(b, c)
    ensures Same(a, c)
  {
    assert a - c == (a - b) + (b - c);
  }

  lemma SameAdd(a: int, b: int, x: int, y: int)
    requires Same(a, b) && Same(x, y)
    ensures Same(a + x, b + y)
  {
    assert (a + x) - (b + y) == (a - b) + (x - y);
  }

  /** Adding the high part of a number to its low 16 bits. */
  function Fold(x: nat): nat
  {
    x % 65536 + x / 65536
  }

  lemma FoldSame(x: nat)
    ensures Same(Fold(x), x)
  {
    assert x == 65536 * (x / 65536) + x % 65536;
    assert x - Fold(x) == M * (x / 65536);
    Multiple(x / 65536);
  }

  lemma Multiple(k: int)
    ensures (M * k) % M == 0 && (-(M * k)) % M == 0
  {
    DivUnique(M * k, M, k, 0);
    assert -(M * k) == M * -k;
    DivUnique(-(M * k), M, -k, 0);
  }

  /** The same on 32-bit words. */
  lemma Fold32Same(x: nat)
    ensures Same(x % WRAP + x / WRAP, x)
  {
    assert x == WRAP * (x / WRAP) + x % WRAP;
    assert WRAP - 1 == M * 65537;
    assert x - (x % WRAP + x / WRAP) == M * (65537 * (x / WRAP));
    Multiple(65537 * (x / WRAP));
  }

  lemma {:induction false} SumUpdate(ws: seq<word>, i: nat, x: word)
    requires i < |ws|
    ensures Sum(ws[i := x]) == Sum(ws) - ws[i] + x
  {
    var n := |ws| - 1;
    if i == n {
      assert ws[i := x][..n] == ws[..n];
    } else {
      assert ws[i := x][..n] == ws[..n][i := x];
      SumUpdate(ws[..n], i, x);
    }
  }

  lemma {:induction false} SumBound(ws: seq<word>)
    ensures Sum(ws) <= 65535 * |ws|
  {
    if ws != [] { SumBound(ws[..|ws| - 1]); }
  }

  // ----- IPv4 header

  /**
   * The checksum of a header of `n` words, its own word taken as zero: the complement of the
   * one's-complement sum, so that a header with the checksum put in sums to zero.
   */
  method HeaderChecksum(h: array<word>, n: nat) returns (answer: word)
    requires n <= 30 && n <= h.Length && 6 <= h.Length
    modifies h
    ensures h[..] == old(h[..])[5 := 0]
    ensures Same(Complement(answer), Sum(h[..n])) && (n > 5 ==> Same(Sum(h[..n][5 := answer]), 0))
  {
    h[5] := 0;
    ghost var ws := h[..n];
    var sum: nat := 0;
    for i := 0 to n
      invariant h[..] == old(h[..])[5 := 0] && sum == Sum(h[..i])
    {
      assert h[..i + 1][..i] == h[..i];
      sum := sum + h[i];
    }
    SumBound(h[..n]);
    FoldSame(sum);
    var s := Fold(sum);
    var t := s + s / 65536;
    FoldTwice(s);
    answer := Complement(t % 65536);
    SameTrans(t % 65536, s, sum);
    if n > 5 { SumUpdate(h[..n], 5, answer); }
    ChecksumCloses(answer, Sum(h[..n]));
  }

  /** Folding without masking: the carry goes into the low 16 bits when there are no others. */
  lemma FoldTwice(s: nat)
    requires s < 65536 + 65535
    ensures Same((s + s / 65536) % 65536, s)
  {
    if s >= 65536 {
      assert s / 65536 == 1;
      assert (s + 1) % 65536 == s + 1 - 65536;
      assert s - (s + 1 - 65536) == M * 1;
    } else {
      assert s / 65536 == 0;
    }
  }

  lemma ChecksumCloses(answer: word, sum: nat)
    requires Same(Complement(answer), sum)
    ensures Same(sum + answer, 0)
  {
    assert sum + answer == M * 1 - (Complement(answer) - sum);
  }

  // ----- pseudo headers

  /** The two 16-bit words of a 32-bit number. */
  function Halves(x: nat): seq<word>
    requires x < WRAP
  {
    [x / 65536, x % 65536]
  }

  /** A sum of 32-bit words and some 16-bit ones, folded twice. */
  function Folded(s: nat): (r: nat)
  {
    Fold(Fold(s % WRAP + s / WRAP))
  }

  /** The last fold loses no carry. */
  lemma FoldedSame(s: nat)
    requires s <= 8 * (WRAP - 1) + 2 * 65535
    ensures Folded(s) < 65536 && Same(Folded(s), s)
  {
    var a := s % WRAP + s / WRAP;
    Fold32Same(s);
    FoldSame(a);
    FoldSame(Fold(a));
    SameTrans(Folded(s), Fold(a), a);
    SameTrans(Folded(s), a, s);
    FoldedFits(s);
  }

  lemma FoldedFits(s: nat)
    requires s <= 8 * (WRAP - 1) + 2 * 65535
    ensures Folded(s) < 65536
  {
    var a := s % WRAP + s / WRAP;
    assert s / WRAP <= 8;
    if s / WRAP == 8 {
      assert s % WRAP <= 2 * 65535;
    }
    assert a <= WRAP + 6;
    if a >= WRAP {
      assert a / 65536 == 65536 && a % 65536 <= 6;
    } else {
      assert a / 65536 <= 65535;
    }
  }

  /** The IPv4 pseudo-header sum of addresses, length and protocol. */
  function PartialSum(saddr: nat, daddr: nat, length: word, proto: word): (r: nat)
    requires saddr < WRAP && daddr < WRAP
  {
    Folded(saddr + daddr + length + proto)
  }

  lemma SumPair(a: word, b: word)
    ensures Sum([a, b]) == a + b
  {
    assert [a, b][..1] == [a] && [a][..0] == [];
    assert Sum([a]) == Sum([a][..0]) + a;
  }

  lemma HalvesSame(x: nat)
    requires x < WRAP
    ensures Same(Sum(Halves(x)), x)
  {
    SumPair(x / 65536, x % 65536);
    FoldSame(x);
  }

  lemma {:induction false} SumAppend(a: seq<word>, b: seq<word>)
    ensures Sum(a + b) == Sum(a) + Sum(b)
  {
    if b == [] {
      assert a + b == a;
    } else {
      assert (a + b)[..|a + b| - 1] == a + b[..|b| - 1];
      SumAppend(a, b[..|b| - 1]);
    }
  }

  lemma SameFlip(a: int, b: int)
    requires Same(a, b)
    ensures Same(b, a)
  {
    var k := (a - b) / M;
    assert a - b == M * k;
    Multiple(k);
  }

  function AllHalves(ws: seq<nat>): seq<word>
    requires forall i {:trigger ws[i]} :: 0 <= i < |ws| ==> ws[i] < WRAP
  {
    if ws == [] then [] else AllHalves(ws[..|ws| - 1]) + Halves(ws[|ws| - 1])
  }

  function Sum32(ws: seq<nat>): nat
  {
    if ws == [] then 0 else Sum32(ws[..|ws| - 1]) + ws[|ws| - 1]
  }

  lemma {:induction false} AllHalvesSame(ws: seq<nat>)
    requires forall i {:trigger ws[i]} :: 0 <= i < |ws| ==> ws[i] < WRAP
    ensures Same(Sum32(ws), Sum(AllHalves(ws))) && Sum32(ws) <= |ws| * (WRAP - 1)
  {
    if ws != [] {
      var n := |ws| - 1;
      AllHalvesSame(ws[..n]);
      HalvesSame(ws[n]);
      SameFlip(Sum(Halves(ws[n])), ws[n]);
      SumAppend(AllHalves(ws[..n]), Halves(ws[n]));
      SameAdd(Sum32(ws[..n]), Sum(AllHalves(ws[..n])), ws[n], Sum(Halves(ws[n])));
    }
  }

  /** The IPv4 pseudo-header sum is a 16-bit value and the sum of the words of the pseudo header. */
  lemma PartialSumIsSum(saddr: nat, daddr: nat, length: word, proto: word)
    requires saddr < WRAP && daddr < WRAP
    ensures PartialSum(saddr, daddr, length, proto) < 65536
    ensures Same(PartialSum(saddr, daddr, length, proto), Sum(AllHalves([saddr, daddr]) + [length, proto]))
  {
    var s, addresses := saddr + daddr + length + proto, [saddr, daddr];
    FoldedSame(s);
    AllHalvesSame(addresses);
    assert addresses[..1] == [saddr] && [saddr][..0] == [];
    assert Sum32([saddr]) == saddr;
    SumAppend(AllHalves(addresses), [length, proto]);
    SumPair(length, proto);
    SameAdd(saddr + daddr, Sum(AllHalves(addresses)), length + proto, length + proto);
    SameTrans(Folded(s), s, Sum(AllHalves(addresses) + [length, proto]));
  }

  /** The IPv6 pseudo-header sum: both addresses as eight 32-bit words, payload length and next header. */
  method PartialSum6(addresses: seq<nat>, length: word, nextHeader: word) returns (r: nat)
    requires |addresses| == 8 && forall i {:trigger addresses[i]} :: 0 <= i < 8 ==> addresses[i] < WRAP
    ensures r < 65536 && Same(r, Sum(AllHalves(addresses) + [length, nextHeader]))
  {
    var s := 0;
    for i := 0 to 8
      invariant s == Sum32(addresses[..i])
    {
      assert addresses[..i + 1][..i] == addresses[..i];
      s := s + addresses[i];
    }
    assert addresses[..8] == addresses;
    AllHalvesSame(addresses);
    ghost var sum := s;
    s := s + length;
    s := s + nextHeader;
    r := Folded(s);
    FoldedSame(s);
    SumAppend(AllHalves(addresses), [length, nextHeader]);
    SumPair(length, nextHeader);
    SameAdd(sum, Sum(AllHalves(addresses)), length + nextHeader, length + nextHeader);
    SameTrans(r, s, Sum(AllHalves(addresses) + [length, nextHeader]));
  }

  // ----- update by a difference

  /** A 32-bit sum with end-around carry, folded to 16 bits. */
  function Carried(csum: word, inc: nat): (r: nat)
    requires inc < WRAP
  {
    var s := Add(csum, inc);
    var t := if s < inc then s + 1 else s;
    var u := Fold(t);
    if u >= 65536 then u % 65536 + 1 else u
  }

  lemma CarriedSame(csum: word, inc: nat)
    requires inc < WRAP
    ensures Carried(csum, inc) < 65536 && Same(Carried(csum, inc), csum + inc)
  {
    var s := Add(csum, inc);
    var t := if s < inc then s + 1 else s;
    assert Same(t, csum + inc) by {
      if csum + inc >= WRAP {
        assert WRAP - 1 == M * 65537;
        assert t - (csum + inc) == -(M * 65537);
        Multiple(65537);
      }
    }
    FoldSame(t);
    var u := Fold(t);
    assert t < WRAP && u <= 65535 + 65535;
    SameTrans(u, t, csum + inc);
    if u >= 65536 {
      assert u % 65536 == u - 65536;
      assert Same(u % 65536 + 1, u);
      SameTrans(u % 65536 + 1, u, csum + inc);
    }
  }

  /** The stored checksum after the sum it covers has grown by `inc`; a partial one is not stored complemented. */
  function Updated(stored: word, inc: nat, partial: bool): (r: word)
    requires inc < WRAP
    ensures if partial then Same(r, stored + inc) else Same(Complement(r), Complement(stored) + inc)
  {
    CarriedSame(if partial then stored else Complement(stored), inc);
    if partial then Carried(stored, inc) else Complement(Carried(Complement(stored), inc))
  }

  // ----- clamping the maximum segment size in a TCP header

  const EOL := 0
  const NOP := 1
  const MAXSEG := 2
  const MAXSEG_LENGTH := 4

  /** The offset of the segment size option that the walk over the options comes to, or the end of the header. */
  function FindMss(h: seq<byte>, off: nat, end: nat): (r: nat)
    requires end <= |h|
    ensures r != end ==> off <= r && r + MAXSEG_LENGTH <= end && h[r] == MAXSEG && h[r + 1] == MAXSEG_LENGTH
    decreases end - off
  {
    if off >= end then end
    else if h[off] == EOL then end
    else if h[off] == NOP then FindMss(h, off + 1, end)
    else if h[off] == MAXSEG then
      if off + MAXSEG_LENGTH > end || h[off + 1] != MAXSEG_LENGTH then end else off
    else if off + 1 == end then end
    else FindMss(h, off + (if h[off + 1] == 0 then 1 else h[off + 1]), end)
  }

  function Word(hi: byte, lo: byte): word
  {
    256 * hi + lo
  }

  /** The new checksum when the word `was` becomes `now`, two additions with end-around carry. */
  function Replaced(check: word, was: word, now: word): word
  {
    var c := Fold(Complement(check) + Complement(was));
    var d := Fold(c + now);
    Complement(d % 65536)
  }

  /** It keeps the sum of everything with the checksum. */
  lemma ReplacedSame(check: word, was: word, now: word)
    ensures Same(Replaced(check, was, now) + now, check + was)
  {
    var c := FoldedOnce(Complement(check) + Complement(was));
    var d := FoldedOnce(c + now);
    ReplacedIs(check, was, now, c, d);
    TwoFolds(check, was, now, c, d);
  }

  lemma ReplacedIs(check: word, was: word, now: word, c: word, d: word)
    requires c == Fold(Complement(check) + Complement(was)) && d == Fold(c + now)
    ensures Replaced(check, was, now) == Complement(d)
  {
  }

  /** One fold of the sum of two words is a word. */
  lemma FoldedOnce(x: nat) returns (r: word)
    requires x <= 2 * M
    ensures r == Fold(x) && Same(r, x)
  {
    FoldSame(x);
    FoldSmall(x);
    r := Fold(x);
  }

  lemma TwoFolds(check: word, was: word, now: word, c: word, d: word)
    requires Same(c, Complement(check) + Complement(was)) && Same(d, c + now)
    ensures Same(Complement(d) + now, check + was)
  {
    var x, y := (c - (Complement(check) + Complement(was))) / M, (d - (c + now)) / M;
    assert (Complement(d) + now) - (check + was) == M * (-1 - x - y);
    Multiple(-1 - x - y);
  }

  lemma FoldSmall(x: nat)
    requires x <= 2 * M
    ensures Fold(x) <= M
  {
    if x < 65536 {
      assert x / 65536 == 0;
    } else {
      assert x / 65536 == 1;
    }
  }

  /** The header after the clamp: the segment size the walk comes to, if there is one and it is above the limit. */
  function Adjusted(o: seq<byte>, end: nat, limit: word): seq<byte>
    requires end <= |o| && 20 <= |o|
  {
    var r := FindMss(o, 20, end);
    if r != end && Word(o[r + 2], o[r + 3]) > limit then Clamped(o, r, limit) else o
  }

  /** Walks the options and lowers a segment size above `limit`; the checksum is bytes 16 and 17. */
  method AdjustMss(h: array<byte>, end: nat, limit: word)
    requires end <= h.Length && 20 <= h.Length
    modifies h
    ensures h[..] == Adjusted(old(h[..]), end, limit)
  {
    var off := 20;
    while off < end
      invariant 20 <= off && h[..] == old(h[..]) && FindMss(h[..], off, end) == FindMss(h[..], 20, end)
      decreases end - off
    {
      if h[off] == EOL {
        return;
      } else if h[off] == NOP {
        off := off + 1;
      } else if h[off] == MAXSEG {
        if off + MAXSEG_LENGTH > end {
          return;
        }
        if h[off + 1] != MAXSEG_LENGTH {
          return;
        }
        Clamp(h, off, limit);
        return;
      } else {
        if off + 1 == end {
          return;
        }
        off := off + (if h[off + 1] != 0 then h[off + 1] else 1);
      }
    }
  }

  /** The header with a segment size and a checksum put in. */
  function Written(o: seq<byte>, r: nat, limit: word, check: word): seq<byte>
    requires 20 <= r && r + 4 <= |o|
  {
    o[r + 2 := limit / 256][r + 3 := limit % 256][16 := check / 256][17 := check % 256]
  }

  function Clamped(o: seq<byte>, r: nat, limit: word): seq<byte>
    requires 20 <= r && r + 4 <= |o|
  {
    Written(o, r, limit, Replaced(Word(o[16], o[17]), Word(o[r + 2], o[r + 3]), limit))
  }

  method Clamp(h: array<byte>, off: nat, limit: word)
    requires 20 <= off && off + 4 <= h.Length
    modifies h
    ensures var o := old(h[..]); h[..] == if Word(o[off + 2], o[off + 3]) > limit then Clamped(o, off, limit) else o
  {
    var mss := Word(h[off + 2], h[off + 3]);
    if mss > limit {
      h[off + 2] := limit / 256;
      h[off + 3] := limit % 256;
      var check := Replaced(Word(h[16], h[17]), mss, limit);
      h[16] := check / 256;
      h[17] := check % 256;
    }
  }

  // ----- when the clamp keeps the checksum right

  /** What a byte at position `i` counts in the sum of 16-bit words. */
  function Worth(i: nat, x: int): int
  {
    if i % 2 == 0 then 256 * x else x
  }

  /** The sum of the words of the first `n` bytes; a last odd byte is padded with zero. */
  function SumTo(h: seq<byte>, n: nat): int
    requires n <= |h|
  {
    if n == 0 then 0 else SumTo(h, n - 1) + Worth(n - 1, h[n - 1])
  }

  function ByteSum(h: seq<byte>): int
  {
    SumTo(h, |h|)
  }

  lemma {:induction false} SumToUpdate(h: seq<byte>, n: nat, i: nat, x: byte)
    requires i < |h| && n <= |h|
    ensures SumTo(h[i := x], n) == SumTo(h, n) + if i < n then Worth(i, x - h[i]) else 0
  {
    if n > 0 { SumToUpdate(h, n - 1, i, x); }
  }

  lemma ByteSumUpdate(h: seq<byte>, i: nat, x: byte)
    requires i < |h|
    ensures ByteSum(h[i := x]) == ByteSum(h) + Worth(i, x - h[i])
  {
    SumToUpdate(h, |h|, i, x);
  }

  lemma TwoBytes(h: seq<byte>, i: nat, hi: byte, lo: byte)
    requires i + 1 < |h|
    ensures ByteSum(h[i := hi][i + 1 := lo]) == ByteSum(h) + Worth(i, hi - h[i]) + Worth(i + 1, lo - h[i + 1])
  {
    ByteSumUpdate(h, i, hi);
    ByteSumUpdate(h[i := hi], i + 1, lo);
  }

  /** How the sum changes: by the bytes of the option, wherever they are, and by the checksum word. */
  lemma FourBytes(o: seq<byte>, r: nat, limit: word, check: word)
    requires 20 <= r && r + 4 <= |o|
    ensures ByteSum(Written(o, r, limit, check)) - ByteSum(o) ==
              Worth(r, limit / 256 - o[r + 2]) + Worth(r + 1, limit % 256 - o[r + 3]) + check - Word(o[16], o[17])
  {
    var b := o[r + 2 := limit / 256][r + 3 := limit % 256];
    TwoBytes(o, r + 2, limit / 256, limit % 256);
    TwoBytes(b, 16, check / 256, check % 256);
    assert b[16] == o[16] && b[17] == o[17];
    assert check == 256 * (check / 256) + check % 256;
  }

  /** The bytes by which the option changes. */
  predicate Balanced(o: seq<byte>, r: nat, limit: word)
    requires r + 4 <= |o|
  {
    ((limit % 256 - o[r + 3]) - (limit / 256 - o[r + 2])) % 257 == 0
  }

  lemma OddChange(hi: int, lo: int)
    ensures Same(hi + 256 * lo, 256 * hi + lo) <==> (lo - hi) % 257 == 0
  {
    var d := lo - hi;
    assert (hi + 256 * lo) - (256 * hi + lo) == 255 * d;
    if d % 257 == 0 {
      assert 255 * d == M * (d / 257);
      Multiple(d / 257);
    }
    if (255 * d) % M == 0 {
      var k := 255 * d / M;
      assert 255 * d == M * k;
      assert d == 257 * k;
      DivUnique(d, 257, k, 0);
    }
  }

  /** The sum is kept if the checksum word makes up for the new value, and the option counts as a word. */
  lemma ChangeIff(change: int, even: bool, hi: int, lo: int, e: int)
    requires Same(e, -(256 * hi + lo))
    requires change == (if even then 256 * hi + lo else hi + 256 * lo) + e
    ensures Same(change, 0) <==> even || (lo - hi) % 257 == 0
  {
    if even {
      assert change == e - -(256 * hi + lo);
    } else {
      OddChange(hi, lo);
      OddSum(change, e, hi + 256 * lo, 256 * hi + lo);
    }
  }

  /**
   * The clamp keeps the segment's sum, and so the validity of its checksum, exactly when the option
   * is at an even offset or its two bytes change by amounts that differ by a multiple of 257.
   */
  lemma ClampKeepsSumIff(o: seq<byte>, r: nat, limit: word)
    requires 20 <= r && r + 4 <= |o|
    ensures Same(ByteSum(Clamped(o, r, limit)), ByteSum(o)) <==> r % 2 == 0 || Balanced(o, r, limit)
  {
    var check, was := Word(o[16], o[17]), Word(o[r + 2], o[r + 3]);
    ClampChecked(o, r, limit, check, was, Replaced(check, was, limit));
  }

  lemma ClampChecked(o: seq<byte>, r: nat, limit: word, check: word, was: word, fixed: word)
    requires 20 <= r && r + 4 <= |o| && check == Word(o[16], o[17]) && was == Word(o[r + 2], o[r + 3])
    requires fixed == Replaced(check, was, limit)
    ensures Same(ByteSum(Written(o, r, limit, fixed)), ByteSum(o)) <==> r % 2 == 0 || Balanced(o, r, limit)
  {
    ReplacedSame(check, was, limit);
    ClampChange(o, r, limit, fixed);
  }

  lemma ClampChange(o: seq<byte>, r: nat, limit: word, check: word)
    requires 20 <= r && r + 4 <= |o|
    requires Same(check + limit, Word(o[16], o[17]) + Word(o[r + 2], o[r + 3]))
    ensures Same(ByteSum(Written(o, r, limit, check)), ByteSum(o)) <==> r % 2 == 0 || Balanced(o, r, limit)
  {
    var hi, lo := limit / 256 - o[r + 2], limit % 256 - o[r + 3];
    FourBytes(o, r, limit, check);
    var e := check - Word(o[16], o[17]);
    assert e - -(256 * hi + lo) == check + limit - (Word(o[16], o[17]) + Word(o[r + 2], o[r + 3]));
    ChangeIff(ByteSum(Written(o, r, limit, check)) - ByteSum(o), r % 2 == 0, hi, lo, e);
  }

  lemma OddSum(change: int, e: int, x: int, y: int)
    requires change == x + e && Same(e, -y)
    ensures Same(change, 0) <==> Same(x, y)
  {
    assert x - y == change - (e + y);
    assert (e - -y) % M == 0;
  }

  /** So the walk as a whole keeps it unless it clamps an option at an odd offset by an unbalanced change. */
  lemma AdjustKeepsSumIff(o: seq<byte>, end: nat, limit: word)
    requires end <= |o| && 20 <= |o|
    ensures var r := FindMss(o, 20, end);
      Same(ByteSum(Adjusted(o, end, limit)), ByteSum(o)) <==>
        r == end || Word(o[r + 2], o[r + 3]) <= limit || r % 2 == 0 || Balanced(o, r, limit)
  {
    var r := FindMss(o, 20, end);
    if r != end && Word(o[r + 2], o[r + 3]) > limit { ClampKeepsSumIff(o, r, limit); }
  }

  /** A segment size after one byte of padding: lowering 1500 to 1400 breaks the checksum. */
  lemma OddOffsetBreaks(o: seq<byte>)
    requires |o| == 28 && o[20] == NOP && o[21] == MAXSEG && o[22] == MAXSEG_LENGTH && Word(o[23], o[24]) == 1500
    ensures !Same(ByteSum(Adjusted(o, 28, 1400)), ByteSum(o))
  {
    assert FindMss(o, 20, 28) == 21;
    AdjustKeepsSumIff(o, 28, 1400);
  }
}
