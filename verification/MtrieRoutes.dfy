/** The route set a trie stands for, what lookups say about it, and that an add adds one route to it. */
module MtrieRoutes {
  import opened Bits
  import opened Routes
  import opened Mtrie
  import opened MtrieAdd

  /**
   * The entry for the block of addresses that start with `b` stands for the routes `R`:
   * its length is that of the longest route covering the whole block; a leaf also has that
   * route's result and no route lies strictly inside its block.
   */
  ghost predicate Represents(e: Entry, R: RouteSet, b: Prefix, n: nat)
    decreases e
  {
    && |b| <= 8 * n
    && e.plen == BestLen(R, b)
    && match e
       case Leaf(plen, res) => res == R[b[..plen]] && forall q :: q in R && b <= q ==> q == b
       case Bucket(_, kids) =>
         && |b| < 8 * n
         && |kids| == 256
         && forall i {:trigger Represents(kids[i], R, b + BitsOf(8, i), n)} :: 0 <= i < 256 ==>
           Represents(kids[i], R, b + BitsOf(8, i), n)
  }

  lemma {:induction false} RepresentsShape(e: Entry, R: RouteSet, b: Prefix, l: nat, n: nat)
    requires Represents(e, R, b, n) && |b| == 8 * l
    ensures WellFormed(e, l, n)
    decreases e
  {
    if e.Bucket? {
      forall i | 0 <= i < 256 ensures WellFormed(e.kids[i], l + 1, n) && e.plen <= e.kids[i].plen {
        RepresentsShape(e.kids[i], R, b + BitsOf(8, i), l + 1, n);
        BestMonotone(R, b, b + BitsOf(8, i));
      }
    }
  }

  /** A lookup in a trie that stands for `R` is longest match in `R`. */
  lemma {:induction false} LookupIsBest(e: Entry, R: RouteSet, a: seq<byte>, l: nat)
    requires l <= |a| && Represents(e, R, AddressBits(a[..l]), |a|)
    ensures WellFormed(e, l, |a|)
    ensures Lookup(e, a, l) == Best(R, AddressBits(a))
    decreases e
  {
    var b := AddressBits(a[..l]);
    RepresentsShape(e, R, b, l, |a|);
    if e.Leaf? {
      AddressBitsPrefix(a, l);
      BestExtend(R, b, AddressBits(a));
    } else {
      AddressBitsStep(a, l);
      LookupIsBest(e.kids[a[l]], R, a, l + 1);
    }
  }

  // ----- changes elsewhere

  /** A route change outside the block, or one hidden by a longer cover of it, does not concern the entry. */
  lemma {:induction false} RepresentsFrame(e: Entry, R: RouteSet, S: RouteSet, p: Prefix, b: Prefix, n: nat)
    requires Represents(e, R, b, n) && AgreeExcept(R, S, p)
    requires (!(p <= b) && !(b <= p)) || (p <= b && BestLen(R, b) > |p|)
    ensures Represents(e, S, b, n)
    decreases e
  {
    BestFrame(R, S, p, b);
    if e.Bucket? {
      forall i | 0 <= i < 256 ensures Represents(e.kids[i], S, b + BitsOf(8, i), n) {
        var c := b + BitsOf(8, i);
        BestMonotone(R, b, c);
        FrameStep(p, b, c);
        RepresentsFrame(e.kids[i], R, S, p, c, n);
      }
    }
  }

  lemma FrameStep(p: Prefix, b: Prefix, c: Prefix)
    requires b <= c
    ensures p <= b ==> p <= c
    ensures !(p <= b) && !(b <= p) ==> !(p <= c) && !(c <= p)
  {
  }

  // ----- add

  lemma {:induction false} AddToTreeRepresents(e: Entry, R: RouteSet, p: Prefix, res: Result, b: Prefix, n: nat)
    requires Represents(e, R, b, n) && p <= b
    ensures Represents(AddToTree(e, |p|, res), R[p := res], b, n)
    decreases e
  {
    var S := R[p := res];
    assert AgreeExcept(R, S, p);
    if e.plen > |p| {
      RepresentsFrame(e, R, S, p, b, n);
    } else {
      BestAfterAdd(R, S, p, b);
      if e.Bucket? {
        forall i | 0 <= i < 256
          ensures Represents(AddToTree(e.kids[i], |p|, res), S, b + BitsOf(8, i), n)
        {
          FrameStep(p, b, b + BitsOf(8, i));
          AddToTreeRepresents(e.kids[i], R, p, res, b + BitsOf(8, i), n);
        }
      }
    }
  }

  /** Splitting a leaf keeps what it stands for. */
  lemma ChildrenRepresent(e: Entry, R: RouteSet, b: Prefix, n: nat, i: byte)
    requires Represents(e, R, b, n) && |b| + 8 <= 8 * n
    ensures |Children(e)| == 256 && Represents(Children(e)[i], R, b + BitsOf(8, i), n)
  {
    if e.Leaf? {
      var c := b + BitsOf(8, i);
      BestExtend(R, b, c);
      forall q | q in R ensures c <= q ==> b <= q {
        if c <= q {
          FrameStep(b, c, q);
        }
      }
    }
  }

  lemma SameLengthPrefixes(c: Prefix, d: Prefix, p: Prefix)
    requires |c| == |d| && d <= p && (c <= p || p <= c)
    ensures c == d
  {
  }

  /** Two different bytes give incomparable extensions of the same bit string. */
  lemma SiblingsDiffer(b: Prefix, i: byte, j: byte, p: Prefix)
    requires i != j && b + BitsOf(8, j) <= p
    ensures !(p <= b + BitsOf(8, i)) && !(b + BitsOf(8, i) <= p)
  {
    var c, d := b + BitsOf(8, i), b + BitsOf(8, j);
    PlusInjective(b, BitsOf(8, i), BitsOf(8, j));
    BitsEqual(8, i, j) by { Pow2Of8(); }
    if c <= p || p <= c {
      SameLengthPrefixes(c, d, p);
    }
  }

  lemma RunOfByte(p: seq<byte>, plen: nat, l: nat, i: byte)
    requires l < |p| && 8 * l < plen <= 8 * (l + 1) && Aligned(p, plen)
    ensures var k := plen - 8 * l;
            InRun(i, p[l], RunLength(l, plen)) <==> BitsOf(8, i)[..k] == BitsOf(8, p[l])[..k]
  {
    AlignedByte(p, plen, l, plen - 8 * l);
    RunIsBlock(i, p[l], plen - 8 * l);
  }

  /** In the bucket where a prefix ends, the entries of its run are those whose blocks it covers. */
  lemma {:induction false} RunCovers(p: seq<byte>, plen: nat, l: nat, i: byte)
    requires l < |p| && plen <= 8 * (l + 1) && (8 * l < plen || (l == 0 && plen == 0)) && Aligned(p, plen)
    ensures var b := AddressBits(p[..l]) + BitsOf(8, i);
            var q := AddressBits(p)[..plen];
            if InRun(i, p[l], RunLength(l, plen)) then q <= b else !(q <= b) && !(b <= q)
  {
    if plen > 0 {
      var k := plen - 8 * l;
      RunOfByte(p, plen, l, i);
      SplitLeading(p, l, k);
      CoversByte(AddressBits(p[..l]), BitsOf(8, i), BitsOf(8, p[l])[..k]);
    }
  }

  lemma CoversByte(x: Prefix, u: Prefix, v: Prefix)
    requires |v| <= |u|
    ensures x + v <= x + u <==> u[..|v|] == v
    ensures x + u <= x + v ==> x + v <= x + u
  {
    assert (x + u)[..|x + v|] == x + u[..|v|];
    PlusInjective(x, u[..|v|], v);
  }

  lemma PlusInjective(x: Prefix, u: Prefix, v: Prefix)
    ensures x + u == x + v <==> u == v
  {
    if x + u == x + v {
      assert (x + u)[|x|..] == u && (x + v)[|x|..] == v;
    }
  }

  /** Adding an aligned route to a trie that stands for `R` gives one that stands for `R` with that route. */
  lemma {:induction false} AddRepresents(e: Entry, R: RouteSet, p: seq<byte>, l: nat, plen: nat, res: Result)
    requires l < |p| && plen <= 8 * |p| && Aligned(p, plen) && (8 * l < plen || (l == 0 && plen == 0))
    requires Represents(e, R, AddressBits(p[..l]), |p|) && WellFormed(e, l, |p|)
    ensures Represents(AddAt(e, p, l, plen, res), R[AddressBits(p)[..plen] := res], AddressBits(p[..l]), |p|)
    decreases |p| - l
  {
    var b, q := AddressBits(p[..l]), AddressBits(p)[..plen];
    var S := R[q := res];
    assert AgreeExcept(R, S, q);
    var r := AddAt(e, p, l, plen, res);
    assert BestLen(S, b) == BestLen(R, b) by { AddKeepsOwnLength(R, S, q, b); }
    forall i | 0 <= i < 256 ensures Represents(r.kids[i], S, b + BitsOf(8, i), |p|) {
      ChildrenRepresent(e, R, b, |p|, i);
      AddKid(e, R, p, l, plen, res, i);
    }
  }

  lemma AddKeepsOwnLength(R: RouteSet, S: RouteSet, q: Prefix, b: Prefix)
    requires AgreeExcept(R, S, q) && q in S && (|q| > |b| || b == [])
    ensures BestLen(S, b) == BestLen(R, b)
  {
  }

  lemma {:induction false} AddKid(e: Entry, R: RouteSet, p: seq<byte>, l: nat, plen: nat, res: Result, i: byte)
    requires l < |p| && plen <= 8 * |p| && Aligned(p, plen) && (8 * l < plen || (l == 0 && plen == 0))
    requires WellFormed(e, l, |p|) && |Children(e)| == 256
    requires Represents(Children(e)[i], R, AddressBits(p[..l]) + BitsOf(8, i), |p|)
    ensures Represents(AddAt(e, p, l, plen, res).kids[i], R[AddressBits(p)[..plen] := res],
                       AddressBits(p[..l]) + BitsOf(8, i), |p|)
    decreases |p| - l, 0
  {
    var q := AddressBits(p)[..plen];
    if plen <= 8 * (l + 1) {
      AddLastKid(e, R, p, l, plen, res, i);
    } else if i == p[l] {
      AddressBitsStep(p, l);
      ChildrenShape(e, l, |p|);
      AddRepresents(Children(e)[i], R, p, l + 1, plen, res);
    } else {
      AddOffPath(p, plen, l, i);
      assert AgreeExcept(R, R[q := res], q);
      RepresentsFrame(Children(e)[i], R, R[q := res], q, AddressBits(p[..l]) + BitsOf(8, i), |p|);
    }
  }

  lemma {:induction false} AddOffPath(p: seq<byte>, plen: nat, l: nat, i: byte)
    requires l < |p| && 8 * (l + 1) < plen <= 8 * |p| && i != p[l]
    ensures var c, q := AddressBits(p[..l]) + BitsOf(8, i), AddressBits(p)[..plen];
            !(q <= c) && !(c <= q)
  {
    AddressBitsStep(p, l);
    AddressBitsPrefix(p, l + 1);
    assert AddressBits(p[..l]) + BitsOf(8, p[l]) <= AddressBits(p)[..plen];
    SiblingsDiffer(AddressBits(p[..l]), i, p[l], AddressBits(p)[..plen]);
  }

  lemma {:induction false} AddLastKid(e: Entry, R: RouteSet, p: seq<byte>, l: nat, plen: nat, res: Result, i: byte)
    requires l < |p| && plen <= 8 * (l + 1) && Aligned(p, plen) && (8 * l < plen || (l == 0 && plen == 0))
    requires WellFormed(e, l, |p|) && |Children(e)| == 256
    requires Represents(Children(e)[i], R, AddressBits(p[..l]) + BitsOf(8, i), |p|)
    ensures Represents(AddAt(e, p, l, plen, res).kids[i], R[AddressBits(p)[..plen] := res],
                       AddressBits(p[..l]) + BitsOf(8, i), |p|)
  {
    var c, q := AddressBits(p[..l]) + BitsOf(8, i), AddressBits(p)[..plen];
    RunCovers(p, plen, l, i);
    if InRun(i, p[l], RunLength(l, plen)) {
      AddToTreeRepresents(Children(e)[i], R, q, res, c, |p|);
    } else {
      assert AgreeExcept(R, R[q := res], q);
      RepresentsFrame(Children(e)[i], R, R[q := res], q, c, |p|);
    }
  }
}
