/**
 * When a delete is right, told from the trie and the routes before it: no bucket that it goes through
 * is left with leaves of one and the same answer that is longer than the bucket's own block.
 */
module MtrieTiles {
  import opened Bits
  import opened Routes
  import opened Mtrie
  import opened MtrieAdd
  import opened MtrieRoutes
  import opened MtrieDelete
  import opened MtrieExact

  // ----- the condition

  ghost predicate AllAnswer(S: RouteSet, x: seq<byte>, n: nat, r: Answer)
  {
    forall a: seq<byte> | |a| == n && x <= a :: Best(S, AddressBits(a)) == r
  }

  /** All addresses that start with the bytes `x` have one and the same answer. */
  ghost predicate OneAnswer(S: RouteSet, x: seq<byte>, n: nat)
  {
    exists r: Answer :: AllAnswer(S, x, n, r)
  }

  /** And that answer is longer than `x`. */
  ghost predicate Tiled(S: RouteSet, x: seq<byte>, n: nat)
  {
    exists r: Answer :: AllAnswer(S, x, n, r) && r.plen > 8 * |x|
  }

  /** The delete goes into this entry of a bucket it is in. */
  ghost predicate Visits(e: Entry, d: DeleteReq, l: nat, i: byte)
    requires l < |d.p| && e.Bucket? && |e.kids| == 256
  {
    if d.plen > 8 * (l + 1) then i == d.p[l] else InDeleteRun(d, l, i) && e.kids[i].plen == d.plen
  }

  /**
   * The delete leaves a leaf where it goes: there is one, or all entries below are leaves or are left as
   * such, and the remaining routes `S` give all addresses below one answer.
   */
  ghost predicate Flattens(e: Entry, d: DeleteReq, S: RouteSet, x: seq<byte>)
    requires ValidDelete(d) && Shaped(e, |x|, |d.p|)
    decreases e, 1
  {
    e.Leaf? || (KidsFlatten(e, d, S, x) && OneAnswer(S, x, |d.p|))
  }

  ghost predicate KidsFlatten(e: Entry, d: DeleteReq, S: RouteSet, x: seq<byte>)
    requires ValidDelete(d) && Shaped(e, |x|, |d.p|) && e.Bucket?
    decreases e, 0, 1
  {
    forall i: byte :: KidFlattens(e, d, S, x, i)
  }

  ghost predicate KidFlattens(e: Entry, d: DeleteReq, S: RouteSet, x: seq<byte>, i: byte)
    requires ValidDelete(d) && Shaped(e, |x|, |d.p|) && e.Bucket?
    decreases e, 0, 0
  {
    if Visits(e, d, |x|, i) then Flattens(e.kids[i], d, S, x + [i]) else e.kids[i].Leaf?
  }

  predicate AllLeaves(kids: seq<Entry>)
    requires |kids| == 256
  {
    forall i: byte {:trigger kids[i]} :: kids[i].Leaf?
  }

  /** All entries of a bucket stand for the remaining routes. */
  ghost predicate KidsRepresent(kids: seq<Entry>, S: RouteSet, x: seq<byte>, n: nat)
    requires |kids| == 256
  {
    forall i: byte :: Represents(kids[i], S, AddressBits(x) + BitsOf(8, i), n)
  }

  /** No bucket that the delete goes through is flattened although longer routes tile its block. */
  ghost predicate Untiled(e: Entry, d: DeleteReq, S: RouteSet, x: seq<byte>)
    requires ValidDelete(d) && Shaped(e, |x|, |d.p|)
    decreases e
  {
    e.Leaf? ||
    ( && (forall i: byte {:trigger e.kids[i]} :: Visits(e, d, |x|, i) ==> Untiled(e.kids[i], d, S, x + [i]))
      && !(KidsFlatten(e, d, S, x) && Tiled(S, x, |d.p|)))
  }

  /** The whole condition: a root that is a leaf is not touched, so it must be right for the default route. */
  ghost predicate Deletable(e: Entry, d: DeleteReq, R: RouteSet)
    requires ValidDelete(d) && Shaped(e, 0, |d.p|)
  {
    if e.Leaf? then d.plen == 0 ==> e.res == d.newRes else Untiled(e, d, Without(R, Target(d), d.newRes), [])
  }

  // ----- leaves that stand for the remaining routes

  lemma AnswerBelow(k: Entry, S: RouteSet, x: seq<byte>, i: byte, a: seq<byte>)
    requires k.Leaf? && |x| < |a| && x + [i] <= a && Represents(k, S, AddressBits(x) + BitsOf(8, i), |a|)
    ensures Best(S, AddressBits(a)) == Answer(k.plen, k.res)
  {
    AddressBitsAppend(x, i);
    assert a[..|x| + 1] == x + [i];
    LookupIsBest(k, S, a, |x| + 1);
  }

  lemma OneAnswerUniform(S: RouteSet, kids: seq<Entry>, x: seq<byte>, n: nat)
    requires |x| < n && |kids| == 256 && AllLeaves(kids)
    requires KidsRepresent(kids, S, x, n)
    ensures Uniform(kids) <==> OneAnswer(S, x, n)
    ensures forall r: Answer :: AllAnswer(S, x, n, r) ==> r == Answer(kids[0].plen, kids[0].res)
  {
    forall r: Answer, i: byte | AllAnswer(S, x, n, r) ensures r == Answer(kids[i].plen, kids[i].res) {
      var a := x + [i] + seq(n - |x| - 1, _ => 0);
      AnswerBelow(kids[i], S, x, i, a);
      assert x <= a;
    }
    if Uniform(kids) {
      var r := Answer(kids[0].plen, kids[0].res);
      forall a: seq<byte> | |a| == n && x <= a ensures Best(S, AddressBits(a)) == r {
        assert x + [a[|x|]] <= a;
        AnswerBelow(kids[a[|x|]], S, x, a[|x|], a);
      }
      assert AllAnswer(S, x, n, r);
    }
  }

  lemma UniformLeaves(kids: seq<Entry>)
    requires |kids| == 256 && Uniform(kids)
    ensures AllLeaves(kids)
  {
  }

  /** A bucket's entries after the delete are uniform exactly if they are leaves and there is one answer. */
  lemma UniformIff(S: RouteSet, kids: seq<Entry>, x: seq<byte>, n: nat)
    requires |x| < n && |kids| == 256
    requires KidsRepresent(kids, S, x, n)
    ensures Uniform(kids) <==> AllLeaves(kids) && OneAnswer(S, x, n)
  {
    if Uniform(kids) { UniformLeaves(kids); }
    if AllLeaves(kids) { OneAnswerUniform(S, kids, x, n); }
  }

  /** A collapse is wrong exactly if the entries are leaves and longer routes tile the block. */
  lemma CollapseIff(S: RouteSet, plen: nat, kids: seq<Entry>, x: seq<byte>, n: nat)
    requires |x| < n && |kids| == 256 && plen == BestLen(S, AddressBits(x))
    requires KidsRepresent(kids, S, x, n)
    ensures !CollapseSafe(plen, kids) <==> AllLeaves(kids) && Tiled(S, x, n)
  {
    UniformIff(S, kids, x, n);
    if AllLeaves(kids) {
      OneAnswerUniform(S, kids, x, n);
      assert Represents(kids[0], S, AddressBits(x) + BitsOf(8, 0), n);
      BestMonotone(S, AddressBits(x), AddressBits(x) + BitsOf(8, 0));
    }
  }

  // ----- entries inside the deleted prefix

  lemma InsideVisits(e: Entry, d: DeleteReq, l: nat, i: byte)
    requires l < |d.p| && ValidDelete(d) && WellFormed(e, l, |d.p|) && e.Bucket? && d.plen <= 8 * l
    ensures Visits(e, d, l, i) <==> e.kids[i].plen == d.plen
    ensures DeleteKids(e, d, l)[i] == DeleteEntry(e.kids[i], d, l + 1)
  {
  }

  lemma {:induction false} EntryFlattens(e: Entry, d: DeleteReq, R: RouteSet, x: seq<byte>)
    requires CarriesNextBest(d, R) && |x| <= |d.p| && Target(d) <= AddressBits(x) && e.plen == d.plen
    requires Represents(e, R, AddressBits(x), |d.p|) && WellFormed(e, |x|, |d.p|) && EntrySafe(e, d, |x|)
    ensures DeleteEntry(e, d, |x|).Leaf? <==> Flattens(e, d, Without(R, Target(d), d.newRes), x)
    decreases e, 2
  {
    if e.Bucket? {
      var S, kids := Without(R, Target(d), d.newRes), DeleteKids(e, d, |x|);
      InsideKidsFlatten(e, d, R, x);
      UniformIff(S, kids, x, |d.p|);
    }
  }

  lemma {:induction false} InsideKidFlattens(e: Entry, d: DeleteReq, R: RouteSet, x: seq<byte>, i: byte)
    requires CarriesNextBest(d, R) && |x| < |d.p| && Target(d) <= AddressBits(x) && e.Bucket?
    requires Represents(e, R, AddressBits(x), |d.p|) && WellFormed(e, |x|, |d.p|) && KidsSafe(e, d, |x|)
    ensures var S := Without(R, Target(d), d.newRes);
            DeleteKids(e, d, |x|)[i].Leaf? <==> KidFlattens(e, d, S, x, i)
    decreases e, 0
  {
    var k := e.kids[i];
    var S := Without(R, Target(d), d.newRes);
    assert Visits(e, d, |x|, i) <==> k.plen == d.plen by { InsideVisits(e, d, |x|, i); }
    assert DeleteKids(e, d, |x|)[i] == DeleteEntry(k, d, |x| + 1) by { InsideVisits(e, d, |x|, i); }
    if k.plen == d.plen {
      assert DeleteEntry(k, d, |x| + 1).Leaf? <==> Flattens(k, d, S, x + [i]) by {
        AddressBitsAppend(x, i);
        CoveredKid(e, R, Target(d), AddressBits(x), |x|, |d.p|, i);
        InsideKidSafe(e, d, |x|, i);
        EntryFlattens(k, d, R, x + [i]);
      }
    }
  }

  lemma {:induction false} InsideKidsFlatten(e: Entry, d: DeleteReq, R: RouteSet, x: seq<byte>)
    requires CarriesNextBest(d, R) && |x| < |d.p| && Target(d) <= AddressBits(x) && e.Bucket?
    requires Represents(e, R, AddressBits(x), |d.p|) && WellFormed(e, |x|, |d.p|) && KidsSafe(e, d, |x|)
    ensures var S, kids := Without(R, Target(d), d.newRes), DeleteKids(e, d, |x|);
            (KidsFlatten(e, d, S, x) <==> AllLeaves(kids)) && KidsRepresent(kids, S, x, |d.p|)
    decreases e, 1
  {
    var S, kids := Without(R, Target(d), d.newRes), DeleteKids(e, d, |x|);
    forall i: byte ensures kids[i].Leaf? <==> KidFlattens(e, d, S, x, i) {
      InsideKidFlattens(e, d, R, x, i);
    }
    forall i: byte ensures Represents(kids[i], S, AddressBits(x) + BitsOf(8, i), |d.p|) {
      InsideKidRepresents(e, d, R, AddressBits(x), |x|, i);
    }
  }

  lemma {:induction false} EntryUntiledIff(e: Entry, d: DeleteReq, R: RouteSet, x: seq<byte>)
    requires CarriesNextBest(d, R) && |x| <= |d.p| && Target(d) <= AddressBits(x) && e.plen == d.plen
    requires Represents(e, R, AddressBits(x), |d.p|) && WellFormed(e, |x|, |d.p|)
    ensures EntrySafe(e, d, |x|) <==> Untiled(e, d, Without(R, Target(d), d.newRes), x)
    decreases e, 1
  {
    if e.Bucket? {
      var S := Without(R, Target(d), d.newRes);
      forall i: byte
        ensures EntrySafe(e.kids[i], d, |x| + 1) <==> (Visits(e, d, |x|, i) ==> Untiled(e.kids[i], d, S, x + [i]))
      {
        InsideVisits(e, d, |x|, i);
        if e.kids[i].plen == d.plen {
          AddressBitsAppend(x, i);
          CoveredKid(e, R, Target(d), AddressBits(x), |x|, |d.p|, i);
          EntryUntiledIff(e.kids[i], d, R, x + [i]);
        }
      }
      InsideKidsSafe(e, d, |x|);
      if KidsSafe(e, d, |x|) {
        InsideKidsFlatten(e, d, R, x);
        BestInside(R, Target(d), d.newRes, AddressBits(x));
        CollapseIff(S, d.newLen, DeleteKids(e, d, |x|), x, |d.p|);
      }
    }
  }

  lemma InsideKidsSafe(e: Entry, d: DeleteReq, l: nat)
    requires l < |d.p| && ValidDelete(d) && WellFormed(e, l, |d.p|) && e.Bucket? && d.plen <= 8 * l
    ensures KidsSafe(e, d, l) <==> forall i: byte {:trigger e.kids[i]} :: EntrySafe(e.kids[i], d, l + 1)
  {
    forall i: byte ensures InDeleteRun(d, l, i) { }
  }

  // ----- entries around the deleted prefix

  /** Where the delete goes below the root: down the path of the prefix, or into entries that it covers. */
  lemma AroundKid(e: Entry, d: DeleteReq, R: RouteSet, l: nat, i: byte)
    requires CarriesNextBest(d, R) && l < |d.p| && (8 * l < d.plen || (l == 0 && d.plen == 0)) && e.Bucket?
    requires Represents(e, R, AddressBits(d.p[..l]), |d.p|) && WellFormed(e, l, |d.p|)
    ensures var x := d.p[..l];
            && AddressBits(x + [i]) == AddressBits(x) + BitsOf(8, i)
            && Represents(e.kids[i], R, AddressBits(x + [i]), |d.p|) && WellFormed(e.kids[i], l + 1, |d.p|)
            && (d.plen > 8 * (l + 1) && i == d.p[l] ==> x + [i] == d.p[..l + 1])
            && (d.plen <= 8 * (l + 1) && InDeleteRun(d, l, i) ==> Target(d) <= AddressBits(x + [i]))
  {
    AddressBitsAppend(d.p[..l], i);
    if d.plen <= 8 * (l + 1) { DeleteRunCovers(d, l, i); }
  }

  lemma {:induction false} DeleteFlattens(e: Entry, d: DeleteReq, R: RouteSet, l: nat)
    requires CarriesNextBest(d, R) && l <= |d.p| && (8 * l < d.plen || (l == 0 && d.plen == 0 && |d.p| > 0))
    requires Represents(e, R, AddressBits(d.p[..l]), |d.p|) && WellFormed(e, l, |d.p|) && DeleteSafe(e, d, l)
    ensures DeleteAt(e, d, l).Leaf? <==> Flattens(e, d, Without(R, Target(d), d.newRes), d.p[..l])
    decreases e, 2
  {
    if e.Bucket? {
      AroundKidsFlatten(e, d, R, l);
      UniformIff(Without(R, Target(d), d.newRes), DeleteKids(e, d, l), d.p[..l], |d.p|);
    }
  }

  lemma {:induction false} AroundKidFlattens(e: Entry, d: DeleteReq, R: RouteSet, l: nat, i: byte)
    requires CarriesNextBest(d, R) && l < |d.p| && (8 * l < d.plen || (l == 0 && d.plen == 0)) && e.Bucket?
    requires Represents(e, R, AddressBits(d.p[..l]), |d.p|) && WellFormed(e, l, |d.p|) && KidsSafe(e, d, l)
    ensures var S, x := Without(R, Target(d), d.newRes), d.p[..l];
            DeleteKids(e, d, l)[i].Leaf? <==> KidFlattens(e, d, S, x, i)
    decreases e, 0
  {
    AroundKid(e, d, R, l, i);
    if Visits(e, d, l, i) {
      if d.plen > 8 * (l + 1) {
        DeleteFlattens(e.kids[i], d, R, l + 1);
      } else {
        EntryFlattens(e.kids[i], d, R, d.p[..l] + [i]);
      }
    }
  }

  lemma {:induction false} AroundKidsFlatten(e: Entry, d: DeleteReq, R: RouteSet, l: nat)
    requires CarriesNextBest(d, R) && l < |d.p| && (8 * l < d.plen || (l == 0 && d.plen == 0)) && e.Bucket?
    requires Represents(e, R, AddressBits(d.p[..l]), |d.p|) && WellFormed(e, l, |d.p|) && KidsSafe(e, d, l)
    ensures var S, x, kids := Without(R, Target(d), d.newRes), d.p[..l], DeleteKids(e, d, l);
            (KidsFlatten(e, d, S, x) <==> AllLeaves(kids)) && KidsRepresent(kids, S, x, |d.p|)
    decreases e, 1
  {
    var S, x, kids := Without(R, Target(d), d.newRes), d.p[..l], DeleteKids(e, d, l);
    forall i: byte ensures kids[i].Leaf? <==> KidFlattens(e, d, S, x, i) {
      AroundKidFlattens(e, d, R, l, i);
    }
    forall i: byte ensures Represents(kids[i], S, AddressBits(x) + BitsOf(8, i), |d.p|) {
      DeleteKidRepresents(e, d, R, l, i);
    }
  }

  lemma {:induction false} DeleteUntiledIff(e: Entry, d: DeleteReq, R: RouteSet, l: nat)
    requires CarriesNextBest(d, R) && l <= |d.p| && (8 * l < d.plen || (l == 0 && d.plen == 0 && |d.p| > 0))
    requires Represents(e, R, AddressBits(d.p[..l]), |d.p|) && WellFormed(e, l, |d.p|)
    requires d.plen > 0 || e.Bucket?
    ensures DeleteSafe(e, d, l) <==> Untiled(e, d, Without(R, Target(d), d.newRes), d.p[..l])
    decreases e, 1
  {
    if e.Bucket? {
      AroundKidsUntiled(e, d, R, l);
      if KidsSafe(e, d, l) {
        AroundKidsFlatten(e, d, R, l);
        DeleteShape(e, d, R, l);
        CollapseIff(Without(R, Target(d), d.newRes), e.plen, DeleteKids(e, d, l), d.p[..l], |d.p|);
      }
    }
  }

  lemma {:induction false} AroundKidsUntiled(e: Entry, d: DeleteReq, R: RouteSet, l: nat)
    requires CarriesNextBest(d, R) && l < |d.p| && (8 * l < d.plen || (l == 0 && d.plen == 0)) && e.Bucket?
    requires Represents(e, R, AddressBits(d.p[..l]), |d.p|) && WellFormed(e, l, |d.p|)
    ensures var S, x := Without(R, Target(d), d.newRes), d.p[..l];
            KidsSafe(e, d, l) <==>
              forall i: byte {:trigger e.kids[i]} :: Visits(e, d, l, i) ==> Untiled(e.kids[i], d, S, x + [i])
    decreases e, 0
  {
    var S, x := Without(R, Target(d), d.newRes), d.p[..l];
    if d.plen > 8 * (l + 1) {
      AroundKid(e, d, R, l, d.p[l]);
      DeleteUntiledIff(e.kids[d.p[l]], d, R, l + 1);
    } else {
      forall i: byte | InDeleteRun(d, l, i)
        ensures EntrySafe(e.kids[i], d, l + 1) <==> (Visits(e, d, l, i) ==> Untiled(e.kids[i], d, S, x + [i]))
      {
        AroundKid(e, d, R, l, i);
        if e.kids[i].plen == d.plen { EntryUntiledIff(e.kids[i], d, R, x + [i]); }
      }
    }
  }

  // ----- the main theorem on one delete

  /**
   * A delete leaves every lookup at longest match in the remaining routes if and only if no bucket that
   * it goes through is flattened although longer routes tile its block, and a root leaf needs no change.
   */
  lemma DeleteCorrectIff(e: Entry, d: DeleteReq, R: RouteSet)
    requires |d.p| > 0 && CarriesNextBest(d, R) && Represents(e, R, [], |d.p|) && WellFormed(e, 0, |d.p|)
    ensures WellFormed(DeleteAt(e, d, 0), 0, |d.p|)
    ensures Deletable(e, d, R)
       <==> forall a: seq<byte> | |a| == |d.p| ::
              Lookup(DeleteAt(e, d, 0), a, 0) == Best(Without(R, Target(d), d.newRes), AddressBits(a))
    ensures Deletable(e, d, R) ==> Represents(DeleteAt(e, d, 0), Without(R, Target(d), d.newRes), [], |d.p|)
  {
    SafeCorrectIff(e, d, R);
    if e.Bucket? {
      assert d.p[..0] == [];
      DeleteUntiledIff(e, d, R, 0);
    }
  }

  lemma {:induction false} NoTilesUntiled(e: Entry, d: DeleteReq, S: RouteSet, x: seq<byte>)
    requires ValidDelete(d) && Shaped(e, |x|, |d.p|) && forall y: seq<byte> :: !Tiled(S, y, |d.p|)
    ensures Untiled(e, d, S, x)
    decreases e
  {
    if e.Bucket? {
      forall i: byte | Visits(e, d, |x|, i) ensures Untiled(e.kids[i], d, S, x + [i]) {
        NoTilesUntiled(e.kids[i], d, S, x + [i]);
      }
    }
  }

  /** A condition on the routes alone: if no block is tiled by longer routes, every delete in a bucket is right. */
  lemma DeletableUntiled(e: Entry, d: DeleteReq, R: RouteSet)
    requires ValidDelete(d) && Shaped(e, 0, |d.p|) && (d.plen == 0 ==> e.Bucket?)
    requires forall y: seq<byte> :: !Tiled(Without(R, Target(d), d.newRes), y, |d.p|)
    ensures Deletable(e, d, R)
  {
    NoTilesUntiled(e, d, Without(R, Target(d), d.newRes), []);
  }
}
