/** What one add does: to the shape, to every lookup, and to the represented route set. */
module MtrieAdd {
  import opened Bits
  import opened Routes
  import opened Mtrie

  // ----- lookups, for every well-formed trie and every request, canonical or not

  lemma {:induction false} AddToTreeShape(e: Entry, plen: nat, res: Result, l: nat, n: nat)
    requires WellFormed(e, l, n) && plen <= 8 * l
    ensures WellFormed(AddToTree(e, plen, res), l, n)
    ensures AddToTree(e, plen, res).plen == if e.plen > plen then e.plen else plen
    decreases e
  {
    if e.plen <= plen && e.Bucket? {
      forall i | 0 <= i < 256
        ensures WellFormed(AddToTree(e.kids[i], plen, res), l + 1, n)
        ensures AddToTree(e.kids[i], plen, res).plen >= plen
      {
        AddToTreeShape(e.kids[i], plen, res, l + 1, n);
      }
    }
  }

  lemma {:induction false} LookupPlen(e: Entry, a: seq<byte>, l: nat)
    requires WellFormed(e, l, |a|)
    ensures e.plen <= Lookup(e, a, l).plen <= 8 * |a|
    decreases e
  {
    if e.Bucket? {
      LookupPlen(e.kids[a[l]], a, l + 1);
    }
  }

  lemma {:induction false} AddToTreeLookup(e: Entry, plen: nat, res: Result, a: seq<byte>, l: nat)
    requires WellFormed(e, l, |a|) && plen <= 8 * l
    ensures WellFormed(AddToTree(e, plen, res), l, |a|)
    ensures Lookup(AddToTree(e, plen, res), a, l)
         == if Lookup(e, a, l).plen <= plen then Answer(plen, res) else Lookup(e, a, l)
    decreases e
  {
    AddToTreeShape(e, plen, res, l, |a|);
    LookupPlen(e, a, l);
    if e.plen <= plen && e.Bucket? {
      AddToTreeLookup(e.kids[a[l]], plen, res, a, l + 1);
    }
  }

  /** The addresses an add reaches, by the raw bytes of its prefix. */
  ghost predicate Reached(p: seq<byte>, l: nat, plen: nat, a: seq<byte>)
    requires l < |p| && plen <= 8 * |p| && |a| == |p|
    decreases |p| - l
  {
    if plen > 8 * (l + 1) then a[l] == p[l] && Reached(p, l + 1, plen, a)
    else InRun(a[l], p[l], RunLength(l, plen))
  }

  lemma ChildrenShape(e: Entry, l: nat, n: nat)
    requires WellFormed(e, l, n) && l < n
    ensures |Children(e)| == 256
    ensures forall i :: 0 <= i < 256 ==> WellFormed(Children(e)[i], l + 1, n) && e.plen <= Children(e)[i].plen
  {
  }

  lemma ChildrenLookup(e: Entry, a: seq<byte>, l: nat)
    requires WellFormed(e, l, |a|) && l < |a|
    ensures |Children(e)| == 256 && WellFormed(Children(e)[a[l]], l + 1, |a|)
    ensures Lookup(Children(e)[a[l]], a, l + 1) == Lookup(e, a, l)
  {
  }

  lemma {:induction false} AddShape(e: Entry, p: seq<byte>, l: nat, plen: nat, res: Result)
    requires l < |p| && plen <= 8 * |p| && WellFormed(e, l, |p|)
    requires e.plen <= plen
    ensures WellFormed(AddAt(e, p, l, plen, res), l, |p|)
    ensures AddAt(e, p, l, plen, res).plen == e.plen
    decreases |p| - l
  {
    ChildrenShape(e, l, |p|);
    var kids := Children(e);
    if plen > 8 * (l + 1) {
      AddShape(kids[p[l]], p, l + 1, plen, res);
    } else {
      forall i | 0 <= i < 256
        ensures WellFormed(AddToTree(kids[i], plen, res), l + 1, |p|)
        ensures AddToTree(kids[i], plen, res).plen >= e.plen
      {
        AddToTreeShape(kids[i], plen, res, l + 1, |p|);
      }
    }
  }

  /**
   * An add changes the answer exactly for the addresses it reaches whose present answer comes from
   * no longer prefix, however many buckets it splits on the way.
   */
  lemma {:induction false} AddLookup(e: Entry, p: seq<byte>, l: nat, plen: nat, res: Result, a: seq<byte>)
    requires l < |p| && plen <= 8 * |p| && |a| == |p| && WellFormed(e, l, |p|)
    requires e.plen <= plen
    ensures WellFormed(AddAt(e, p, l, plen, res), l, |p|)
    ensures Lookup(AddAt(e, p, l, plen, res), a, l)
         == if Reached(p, l, plen, a) && Lookup(e, a, l).plen <= plen then Answer(plen, res) else Lookup(e, a, l)
    decreases |p| - l
  {
    AddShape(e, p, l, plen, res);
    ChildrenShape(e, l, |p|);
    ChildrenLookup(e, a, l);
    var kids := Children(e);
    if plen > 8 * (l + 1) {
      if a[l] == p[l] {
        AddLookup(kids[p[l]], p, l + 1, plen, res, a);
      }
    } else {
      AddToTreeLookup(kids[a[l]], plen, res, a, l + 1);
    }
  }

  // ----- when the addresses reached are those of the prefix

  /** The last, partial byte of the prefix has no bit set past the prefix length. */
  predicate Aligned(p: seq<byte>, plen: nat)
    requires plen <= 8 * |p|
  {
    plen % 8 == 0 || p[plen / 8] % Pow2(8 - plen % 8) == 0
  }

  ghost predicate Matches(p: seq<byte>, plen: nat, a: seq<byte>)
    requires plen <= 8 * |p| && |a| == |p|
  {
    AddressBits(p)[..plen] <= AddressBits(a)
  }

  lemma BlockBounds(i: int, d: int, q: int, m: int)
    requires d > 0 && 0 <= i < d * m && 0 <= q < m
    ensures d * q + d <= d * m
    ensures i / d == q <==> d * q <= i < d * q + d
  {
    assert d * m - d * q - d == d * (m - q - 1) >= 0;
    if d * q <= i < d * q + d {
      DivUnique(i, d, q, i - d * q);
    }
  }

  /** An aligned run does not wrap: it is the block of numbers with the same quotient. */
  lemma AlignedRun(i: byte, idx: byte, d: nat, m: nat)
    requires d > 0 && d * m == 256 && idx % d == 0
    ensures InRun(i, idx, d) <==> idx <= i < idx + d
    ensures i / d == idx / d <==> idx <= i < idx + d
  {
    var q := idx / d;
    assert idx == d * q;
    assert q < m by { DivBelow(idx, d, m); }
    BlockBounds(i, d, q, m);
    assert i < idx ==> (i - idx) % 256 == i - idx + 256;
    assert i >= idx ==> (i - idx) % 256 == i - idx;
  }

  lemma ShrIsDiv(x: byte, k: nat)
    requires k <= 8
    ensures Shr(x, k) == x / Pow2(k)
  {
    ShrByte(x);
    Pow2Of8();
  }

  /** The bytes in an aligned run are those that agree with its first one on the leading `k` bits. */
  lemma RunIsBlock(i: byte, idx: byte, k: nat)
    requires 0 < k <= 8 && idx % Pow2(8 - k) == 0
    ensures InRun(i, idx, Pow2(8 - k)) <==> BitsOf(8, i)[..k] == BitsOf(8, idx)[..k]
    ensures InRun(i, idx, Pow2(8 - k)) <==> idx <= i < idx + Pow2(8 - k)
  {
    assert Pow2(8 - k) * Pow2(k) == 256 by {
      Pow2Add(8 - k, k);
      Pow2Of8();
    }
    SameLeading(8, i, idx, k) by { Pow2Of8(); }
    ShrIsDiv(i, 8 - k);
    ShrIsDiv(idx, 8 - k);
    AlignedRun(i, idx, Pow2(8 - k), Pow2(k));
  }

  lemma {:induction false} ReachedUnfold(p: seq<byte>, j: nat, l: nat, plen: nat, a: seq<byte>)
    requires j <= l < |p| && plen <= 8 * |p| && |a| == |p| && 8 * l < plen <= 8 * (l + 1)
    ensures Reached(p, j, plen, a) <==> a[j..l] == p[j..l] && InRun(a[l], p[l], Pow2(8 * (l + 1) - plen))
    decreases l - j
  {
    if j < l {
      ReachedUnfold(p, j + 1, l, plen, a);
      assert a[j..l] == [a[j]] + a[j + 1..l];
      assert p[j..l] == [p[j]] + p[j + 1..l];
    }
  }

  lemma {:induction false} MatchesUnfold(p: seq<byte>, l: nat, plen: nat, a: seq<byte>)
    requires l < |p| && |a| == |p| && 8 * l < plen <= 8 * (l + 1)
    ensures Matches(p, plen, a)
       <==> a[..l] == p[..l] && BitsOf(8, a[l])[..plen - 8 * l] == BitsOf(8, p[l])[..plen - 8 * l]
  {
    LeadingAddressBits(a, p, l, plen - 8 * l);
    var b, q := AddressBits(a), AddressBits(p)[..plen];
    assert q <= b <==> b[..plen] == q;
  }

  /** In the bucket where an aligned prefix ends, its byte starts a run. */
  lemma AlignedByte(p: seq<byte>, plen: nat, l: nat, k: nat)
    requires plen <= 8 * |p| && Aligned(p, plen) && plen == 8 * l + k && 0 < k <= 8
    ensures p[l] % Pow2(8 - k) == 0
  {
  }

  /** With an aligned prefix an add reaches exactly the addresses under the prefix. */
  lemma {:induction false} ReachedWhenAligned(p: seq<byte>, plen: nat, a: seq<byte>)
    requires |p| > 0 && plen <= 8 * |p| && |a| == |p| && Aligned(p, plen)
    ensures Reached(p, 0, plen, a) <==> Matches(p, plen, a)
  {
    if plen > 0 {
      var l := (plen - 1) / 8;
      var k := plen - 8 * l;
      ReachedUnfold(p, 0, l, plen, a);
      MatchesUnfold(p, l, plen, a);
      assert a[0..l] == a[..l] && p[0..l] == p[..l];
      AlignedByte(p, plen, l, k);
      RunIsBlock(a[l], p[l], k);
    }
  }

  /** The first byte of the aligned run that an unaligned add starts in the middle of. */
  lemma UnalignedStart(idx: byte, k: nat)
    requires 0 < k < 8 && idx % Pow2(8 - k) != 0
    ensures var s := idx - idx % Pow2(8 - k);
            0 <= s < 256 && BitsOf(8, s)[..k] == BitsOf(8, idx)[..k] && !InRun(s, idx, Pow2(8 - k))
  {
    var s := RoundDown(idx, Pow2(8 - k));
    assert BitsOf(8, s)[..k] == BitsOf(8, idx)[..k] by {
      SameLeading(8, s, idx, k) by { Pow2Of8(); }
      ShrIsDiv(s, 8 - k);
      ShrIsDiv(idx, 8 - k);
    }
    NotInRun(idx, idx % Pow2(8 - k), Pow2(8 - k)) by { Pow2Of8(); }
  }

  lemma NotInRun(idx: byte, r: nat, d: nat)
    requires 0 < r < d <= 128 && r <= idx
    ensures !InRun(idx - r, idx, d)
  {
  }

  /** An add reaches exactly the addresses under its prefix if and only if the prefix is aligned. */
  lemma {:induction false} ReachedIffAligned(p: seq<byte>, plen: nat)
    requires |p| > 0 && plen <= 8 * |p|
    ensures Aligned(p, plen)
       <==> forall a: seq<byte> | |a| == |p| :: Reached(p, 0, plen, a) <==> Matches(p, plen, a)
  {
    if Aligned(p, plen) {
      forall a: seq<byte> | |a| == |p| ensures Reached(p, 0, plen, a) <==> Matches(p, plen, a) {
        ReachedWhenAligned(p, plen, a);
      }
    } else {
      var l, k := plen / 8, plen % 8;
      UnalignedStart(p[l], k);
      var a := p[l := p[l] - p[l] % Pow2(8 - k)];
      ReachedUnfold(p, 0, l, plen, a);
      MatchesUnfold(p, l, plen, a);
      assert a[..l] == p[..l];
      assert Matches(p, plen, a) && !Reached(p, 0, plen, a);
    }
  }
}
