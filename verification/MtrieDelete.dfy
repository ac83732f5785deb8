/**
 * What one delete does. It is right for every lookup exactly when no bucket it visits ends
 * up filled by equal routes longer than the bucket's own prefix, and, for the default
 * route, when the root is not a leaf holding another result.
 */
module MtrieDelete {
  import opened Bits
  import opened Routes
  import opened Mtrie
  import opened MtrieAdd
  import opened MtrieRoutes

  ghost function Target(d: DeleteReq): Prefix
    requires ValidDelete(d)
  {
    AddressBits(d.p)[..d.plen]
  }

  /** The table without the route for `p`; the default route is never absent, it falls back to `res`. */
  ghost function Without(R: RouteSet, p: Prefix, res: Result): RouteSet
  {
    if p == [] then R[[] := res] else map q | q in R && q != p :: R[q]
  }

  /** The request carries the next-best cover of the prefix it deletes. */
  ghost predicate CarriesNextBest(d: DeleteReq, R: RouteSet)
  {
    ValidDelete(d) && Best(Without(R, Target(d), d.newRes), Target(d)) == Answer(d.newLen, d.newRes)
  }

  // ----- when a delete is safe

  /** A collapse keeps the length of the replaced bucket, so the entries must have that length. */
  predicate CollapseSafe(plen: nat, kids: seq<Entry>)
    requires |kids| == 256
  {
    Uniform(kids) ==> kids[0].plen == plen
  }

  ghost predicate DeleteSafe(e: Entry, d: DeleteReq, l: nat)
    requires l <= |d.p| && ValidDelete(d) && Shaped(e, l, |d.p|)
    decreases e, 1
  {
    if e.Leaf? then d.plen == 0 ==> e.res == d.newRes
    else KidsSafe(e, d, l) && CollapseSafe(e.plen, DeleteKids(e, d, l))
  }

  ghost predicate KidsSafe(e: Entry, d: DeleteReq, l: nat)
    requires l < |d.p| && ValidDelete(d) && Shaped(e, l, |d.p|) && e.Bucket?
    decreases e, 0
  {
    if d.plen > 8 * (l + 1) then DeleteSafe(e.kids[d.p[l]], d, l + 1)
    else forall i :: 0 <= i < 256 && InDeleteRun(d, l, i) ==> EntrySafe(e.kids[i], d, l + 1)
  }

  ghost predicate EntrySafe(e: Entry, d: DeleteReq, l: nat)
    requires l <= |d.p| && ValidDelete(d) && Shaped(e, l, |d.p|)
    decreases e, 1
  {
    e.plen == d.plen && e.Bucket? ==> KidsSafe(e, d, l) && CollapseSafe(d.newLen, DeleteKids(e, d, l))
  }

  // ----- the best covers before and after

  lemma WithoutAgrees(R: RouteSet, p: Prefix, res: Result)
    ensures AgreeExcept(R, Without(R, p, res), p)
    ensures p in Without(R, p, res) ==> p == [] && Without(R, p, res)[p] == res
    ensures p !in R ==> Without(R, p, res) == R
  {
  }

  /** The best cover of a block inside the deleted prefix, by what set the block's entry. */
  lemma BestInside(R: RouteSet, p: Prefix, res: Result, b: Prefix)
    requires p <= b
    ensures var S := Without(R, p, res);
            if BestLen(R, b) != |p| then Best(S, b) == Best(R, b) else Best(S, b) == Best(S, p)
  {
    var S := Without(R, p, res);
    WithoutAgrees(R, p, res);
    if BestLen(R, b) > |p| {
      BestFrame(R, S, p, b);
    } else if BestLen(R, b) < |p| {
      BestLenLongest(R, b);
      assert b[..|p|] == p;
    } else {
      BestLenLongest(R, b);
      forall q | q in S && p <= q && q <= b ensures q == p {
        assert b[..|q|] == q;
      }
      BestExtend(S, p, b);
    }
  }

  /** The best cover of a block around the deleted prefix keeps its length. */
  lemma BestAround(R: RouteSet, p: Prefix, res: Result, b: Prefix)
    requires b <= p && (|b| < |p| || p == [])
    ensures BestLen(Without(R, p, res), b) == BestLen(R, b)
    ensures p != [] ==> Best(Without(R, p, res), b) == Best(R, b)
  {
  }

  /** In the bucket where the prefix ends, the aligned run of a delete is the run of an aligned add. */
  lemma DeleteRunCovers(d: DeleteReq, l: nat, i: byte)
    requires l < |d.p| && ValidDelete(d) && d.plen <= 8 * (l + 1) && (8 * l < d.plen || (l == 0 && d.plen == 0))
    ensures var b := AddressBits(d.p[..l]) + BitsOf(8, i);
            if InDeleteRun(d, l, i) then Target(d) <= b else !(Target(d) <= b) && !(b <= Target(d))
  {
    if d.plen > 0 {
      var k := d.plen - 8 * l;
      assert InDeleteRun(d, l, i) <==> BitsOf(8, i)[..k] == BitsOf(8, d.p[l])[..k] by {
        Pow2Of8();
        SameLeading(8, i, d.p[l], k);
      }
      SplitLeading(d.p, l, k);
      CoversByte(AddressBits(d.p[..l]), BitsOf(8, i), BitsOf(8, d.p[l])[..k]);
    }
  }

  /** Clearing the low bits of the index gives the first entry of that run; its length is the usual one. */
  lemma DeleteRunBounds(d: DeleteReq, l: nat, f: nat, q: nat)
    requires l < |d.p| && 8 * l < d.plen <= 8 * (l + 1)
    requires f == Pow2(8 * (l + 1) - d.plen) && f * q <= d.p[l] < f * q + f
    ensures f * q + f <= 256
    ensures forall i :: 0 <= i < 256 ==> (InDeleteRun(d, l, i) <==> f * q <= i < f * q + f)
  {
    var k := 8 * (l + 1) - d.plen;
    var m := Pow2(8 - k);
    assert f * m == 256 by {
      Pow2Add(k, 8 - k);
      Pow2Of8();
    }
    DivUnique(d.p[l], f, q, d.p[l] - f * q);
    DivBelow(d.p[l], f, m);
    ShrIsDiv(d.p[l], k);
    forall i | 0 <= i < 256 ensures InDeleteRun(d, l, i) <==> f * q <= i < f * q + f {
      ShrIsDiv(i, k);
      BlockBounds(i, f, q, m);
    }
    BlockBounds(0, f, q, m);
  }

  /** A route strictly inside a block shows in the block of some next byte. */
  lemma {:induction false} DeeperShows(S: RouteSet, b: Prefix, q: Prefix) returns (i: byte)
    requires q in S && b <= q && |q| > |b|
    ensures b + BitsOf(8, i) <= q || BestLen(S, b + BitsOf(8, i)) > |b|
  {
    var u := q[|b|..];
    var v := if |u| >= 8 then u[..8] else u + seq(8 - |u|, _ => false);
    BitsOfNumber(v);
    Pow2Of8();
    i := NumberOf(v);
    var c := b + BitsOf(8, i);
    BestLenLongest(S, c);
    assert c == b + v;
    assert q == b + u;
    if |u| >= 8 {
      assert q[..|c|] == c;
    } else {
      assert c[..|q|] == q;
    }
  }

  /** A bucket filled with one leaf set by a cover of the whole block has no route inside its block. */
  lemma UniformHasNothingInside(S: RouteSet, b: Prefix, kids: seq<Entry>, n: nat)
    requires |kids| == 256 && Uniform(kids) && kids[0].plen <= |b|
    requires forall i :: 0 <= i < 256 ==> Represents(kids[i], S, b + BitsOf(8, i), n)
    ensures forall q :: q in S && b <= q ==> q == b
  {
    forall q | q in S && b <= q ensures q == b {
      if |q| > |b| {
        var _ := DeeperShows(S, b, q);
      }
    }
  }

  /** A safe collapse stands for the table when all entries did. */
  lemma {:induction false} CollapseRepresents(S: RouteSet, b: Prefix, plen: nat, kids: seq<Entry>, d: DeleteReq, n: nat)
    requires |b| < 8 * n && |kids| == 256 && CollapseSafe(plen, kids) && plen == BestLen(S, b)
    requires ValidDelete(d) && Best(S, Target(d)) == Answer(d.newLen, d.newRes)
    requires b <= Target(d) || (Target(d) <= b && Best(S, b) == Best(S, Target(d)))
    requires forall i :: 0 <= i < 256 ==> Represents(kids[i], S, b + BitsOf(8, i), n)
    ensures Represents(Collapse(plen, kids, d), S, b, n)
  {
    if Uniform(kids) {
      UniformHasNothingInside(S, b, kids, n);
      if b <= Target(d) {
        BestExtend(S, b, Target(d));
      }
    }
  }

  // ----- entries inside the deleted prefix

  lemma {:induction false} EntryRepresents(e: Entry, d: DeleteReq, R: RouteSet, b: Prefix, l: nat)
    requires CarriesNextBest(d, R) && Target(d) <= b && |b| == 8 * l && l <= |d.p|
    requires Represents(e, R, b, |d.p|) && WellFormed(e, l, |d.p|) && EntrySafe(e, d, l)
    ensures Represents(DeleteEntry(e, d, l), Without(R, Target(d), d.newRes), b, |d.p|)
    decreases e
  {
    var p, n := Target(d), |d.p|;
    var S := Without(R, p, d.newRes);
    WithoutAgrees(R, p, d.newRes);
    BestInside(R, p, d.newRes, b);
    if e.plen > |p| {
      RepresentsFrame(e, R, S, p, b, n);
    } else if e.plen < |p| {
      BestLenLongest(R, b);
      assert b[..|p|] == p;
    } else if e.Bucket? {
      var kids := DeleteKids(e, d, l);
      forall i | 0 <= i < 256 ensures Represents(kids[i], S, b + BitsOf(8, i), n) {
        InsideKidRepresents(e, d, R, b, l, i);
      }
      CollapseRepresents(S, b, d.newLen, kids, d, n);
    }
  }

  lemma InsideKid(e: Entry, d: DeleteReq, l: nat, i: byte)
    requires l < |d.p| && ValidDelete(d) && WellFormed(e, l, |d.p|) && e.Bucket? && d.plen <= 8 * l
    ensures WellFormed(e.kids[i], l + 1, |d.p|)
    ensures DeleteKids(e, d, l)[i] == DeleteEntry(e.kids[i], d, l + 1)
  {
  }

  lemma CoveredKid(e: Entry, R: RouteSet, p: Prefix, b: Prefix, l: nat, n: nat, i: byte)
    requires p <= b && |b| == 8 * l && e.Bucket? && Represents(e, R, b, n)
    ensures p <= b + BitsOf(8, i) && |b + BitsOf(8, i)| == 8 * (l + 1) && Represents(e.kids[i], R, b + BitsOf(8, i), n)
  {
  }

  lemma InsideKidSafe(e: Entry, d: DeleteReq, l: nat, i: byte)
    requires l < |d.p| && ValidDelete(d) && WellFormed(e, l, |d.p|) && e.Bucket? && d.plen <= 8 * l
    requires KidsSafe(e, d, l)
    ensures EntrySafe(e.kids[i], d, l + 1)
  {
  }

  lemma {:induction false} InsideKidRepresents(e: Entry, d: DeleteReq, R: RouteSet, b: Prefix, l: nat, i: byte)
    requires CarriesNextBest(d, R) && Target(d) <= b && |b| == 8 * l && l < |d.p|
    requires e.Bucket? && Represents(e, R, b, |d.p|) && WellFormed(e, l, |d.p|) && KidsSafe(e, d, l)
    ensures Represents(DeleteKids(e, d, l)[i], Without(R, Target(d), d.newRes), b + BitsOf(8, i), |d.p|)
    decreases e, 0
  {
    var k, c := e.kids[i], b + BitsOf(8, i);
    CoveredKid(e, R, Target(d), b, l, |d.p|, i);
    InsideKidSafe(e, d, l, i);
    assert DeleteKids(e, d, l)[i] == DeleteEntry(k, d, l + 1) by { InsideKid(e, d, l, i); }
    EntryRepresents(k, d, R, c, l + 1);
  }

  // ----- entries around the deleted prefix

  lemma {:induction false} DeleteRepresents(e: Entry, d: DeleteReq, R: RouteSet, l: nat)
    requires CarriesNextBest(d, R) && l <= |d.p| && (8 * l < d.plen || (l == 0 && d.plen == 0 && |d.p| > 0))
    requires Represents(e, R, AddressBits(d.p[..l]), |d.p|) && WellFormed(e, l, |d.p|) && DeleteSafe(e, d, l)
    ensures Represents(DeleteAt(e, d, l), Without(R, Target(d), d.newRes), AddressBits(d.p[..l]), |d.p|)
    decreases e, 1
  {
    var b, p, n := AddressBits(d.p[..l]), Target(d), |d.p|;
    var S := Without(R, p, d.newRes);
    WithoutAgrees(R, p, d.newRes);
    AddressBitsPrefix(d.p, l);
    assert b <= p;
    if e.Leaf? {
      if d.plen > 0 {
        assert p !in R;
      } else {
        assert b == [] && BestLen(S, []) == 0;
      }
    } else {
      var kids := DeleteKids(e, d, l);
      BestAround(R, p, d.newRes, b);
      forall i | 0 <= i < 256 ensures Represents(kids[i], S, b + BitsOf(8, i), n) {
        DeleteKidRepresents(e, d, R, l, i);
      }
      CollapseRepresents(S, b, e.plen, kids, d, n);
    }
  }

  lemma {:induction false} DeleteKidRepresents(e: Entry, d: DeleteReq, R: RouteSet, l: nat, i: byte)
    requires CarriesNextBest(d, R) && l < |d.p| && (8 * l < d.plen || (l == 0 && d.plen == 0))
    requires e.Bucket? && Represents(e, R, AddressBits(d.p[..l]), |d.p|)
    requires WellFormed(e, l, |d.p|) && KidsSafe(e, d, l)
    ensures Represents(DeleteKids(e, d, l)[i], Without(R, Target(d), d.newRes),
                       AddressBits(d.p[..l]) + BitsOf(8, i), |d.p|)
    decreases e, 0
  {
    if d.plen <= 8 * (l + 1) {
      LastKidRepresents(e, d, R, l, i);
    } else if i == d.p[l] {
      AddressBitsStep(d.p, l);
      DeleteRepresents(e.kids[i], d, R, l + 1);
    } else {
      AddOffPath(d.p, d.plen, l, i);
      WithoutAgrees(R, Target(d), d.newRes);
      RepresentsFrame(e.kids[i], R, Without(R, Target(d), d.newRes), Target(d),
                      AddressBits(d.p[..l]) + BitsOf(8, i), |d.p|);
    }
  }

  lemma {:induction false} LastKidRepresents(e: Entry, d: DeleteReq, R: RouteSet, l: nat, i: byte)
    requires CarriesNextBest(d, R) && l < |d.p| && (8 * l < d.plen || (l == 0 && d.plen == 0))
    requires e.Bucket? && Represents(e, R, AddressBits(d.p[..l]), |d.p|)
    requires WellFormed(e, l, |d.p|) && KidsSafe(e, d, l) && d.plen <= 8 * (l + 1)
    ensures Represents(DeleteKids(e, d, l)[i], Without(R, Target(d), d.newRes),
                       AddressBits(d.p[..l]) + BitsOf(8, i), |d.p|)
  {
    var p := Target(d);
    var c := AddressBits(d.p[..l]) + BitsOf(8, i);
    DeleteRunCovers(d, l, i);
    if InDeleteRun(d, l, i) {
      EntryRepresents(e.kids[i], d, R, c, l + 1);
    } else {
      WithoutAgrees(R, p, d.newRes);
      RepresentsFrame(e.kids[i], R, Without(R, p, d.newRes), p, c, |d.p|);
    }
  }
}
