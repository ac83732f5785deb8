/** A delete keeps the shape of the trie, and is right if and only if each of its collapses is. */
module MtrieExact {
  import opened Bits
  import opened Routes
  import opened Mtrie
  import opened MtrieAdd
  import opened MtrieRoutes
  import opened MtrieDelete

  // ----- shape: the length of the entry itself always comes out right

  lemma CollapseShape(S: RouteSet, b: Prefix, plen: nat, kids: seq<Entry>, d: DeleteReq, l: nat, n: nat)
    requires |b| == 8 * l && l < n && |kids| == 256 && plen == BestLen(S, b)
    requires forall i :: 0 <= i < 256 ==>
               WellFormed(kids[i], l + 1, n) && kids[i].plen == BestLen(S, b + BitsOf(8, i))
    ensures WellFormed(Collapse(plen, kids, d), l, n)
    ensures forall i :: 0 <= i < 256 ==> plen <= kids[i].plen
  {
    forall i | 0 <= i < 256 ensures plen <= kids[i].plen {
      BestMonotone(S, b, b + BitsOf(8, i));
    }
  }

  lemma {:induction false} EntryShape(e: Entry, d: DeleteReq, R: RouteSet, b: Prefix, l: nat)
    requires CarriesNextBest(d, R) && Target(d) <= b && |b| == 8 * l && l <= |d.p|
    requires Represents(e, R, b, |d.p|) && WellFormed(e, l, |d.p|)
    ensures WellFormed(DeleteEntry(e, d, l), l, |d.p|)
    ensures DeleteEntry(e, d, l).plen == BestLen(Without(R, Target(d), d.newRes), b)
    decreases e
  {
    var p, n := Target(d), |d.p|;
    var S := Without(R, p, d.newRes);
    BestInside(R, p, d.newRes, b);
    if e.plen == |p| && e.Bucket? {
      var kids := DeleteKids(e, d, l);
      forall i | 0 <= i < 256
        ensures WellFormed(kids[i], l + 1, n) && kids[i].plen == BestLen(S, b + BitsOf(8, i))
      {
        InsideKidShape(e, d, R, b, l, i);
      }
      CollapseShape(S, b, d.newLen, kids, d, l, n);
    }
  }

  lemma {:induction false} InsideKidShape(e: Entry, d: DeleteReq, R: RouteSet, b: Prefix, l: nat, i: byte)
    requires CarriesNextBest(d, R) && Target(d) <= b && |b| == 8 * l && l < |d.p|
    requires e.Bucket? && Represents(e, R, b, |d.p|) && WellFormed(e, l, |d.p|)
    ensures WellFormed(DeleteKids(e, d, l)[i], l + 1, |d.p|)
    ensures DeleteKids(e, d, l)[i].plen == BestLen(Without(R, Target(d), d.newRes), b + BitsOf(8, i))
    decreases e, 0
  {
    var k, c := e.kids[i], b + BitsOf(8, i);
    CoveredKid(e, R, Target(d), b, l, |d.p|, i);
    assert DeleteKids(e, d, l)[i] == DeleteEntry(k, d, l + 1) by { InsideKid(e, d, l, i); }
    EntryShape(k, d, R, c, l + 1);
  }

  lemma {:induction false} DeleteShape(e: Entry, d: DeleteReq, R: RouteSet, l: nat)
    requires CarriesNextBest(d, R) && l <= |d.p| && (8 * l < d.plen || (l == 0 && d.plen == 0 && |d.p| > 0))
    requires Represents(e, R, AddressBits(d.p[..l]), |d.p|) && WellFormed(e, l, |d.p|)
    ensures WellFormed(DeleteAt(e, d, l), l, |d.p|)
    ensures DeleteAt(e, d, l).plen == BestLen(Without(R, Target(d), d.newRes), AddressBits(d.p[..l]))
    decreases e, 1
  {
    var b, p, n := AddressBits(d.p[..l]), Target(d), |d.p|;
    var S := Without(R, p, d.newRes);
    AddressBitsPrefix(d.p, l);
    BestAround(R, p, d.newRes, b);
    if e.Bucket? {
      var kids := DeleteKids(e, d, l);
      forall i | 0 <= i < 256
        ensures WellFormed(kids[i], l + 1, n) && kids[i].plen == BestLen(S, b + BitsOf(8, i))
      {
        KidShape(e, d, R, l, i);
      }
      CollapseShape(S, b, e.plen, kids, d, l, n);
    }
  }

  lemma {:induction false} KidShape(e: Entry, d: DeleteReq, R: RouteSet, l: nat, i: byte)
    requires CarriesNextBest(d, R) && l < |d.p| && (8 * l < d.plen || (l == 0 && d.plen == 0))
    requires e.Bucket? && Represents(e, R, AddressBits(d.p[..l]), |d.p|) && WellFormed(e, l, |d.p|)
    ensures WellFormed(DeleteKids(e, d, l)[i], l + 1, |d.p|)
    ensures DeleteKids(e, d, l)[i].plen
         == BestLen(Without(R, Target(d), d.newRes), AddressBits(d.p[..l]) + BitsOf(8, i))
    decreases e, 0
  {
    assert Represents(e.kids[i], R, AddressBits(d.p[..l]) + BitsOf(8, i), |d.p|);
    if d.plen <= 8 * (l + 1) {
      LastKidShape(e, d, R, l, i);
    } else {
      AddressBitsStep(d.p, l);
      if i == d.p[l] {
        DeleteShape(e.kids[i], d, R, l + 1);
      } else {
        AddOffPath(d.p, d.plen, l, i);
        WithoutAgrees(R, Target(d), d.newRes);
        BestFrame(R, Without(R, Target(d), d.newRes), Target(d), AddressBits(d.p[..l]) + BitsOf(8, i));
      }
    }
  }

  lemma {:induction false} LastKidShape(e: Entry, d: DeleteReq, R: RouteSet, l: nat, i: byte)
    requires CarriesNextBest(d, R) && l < |d.p| && (8 * l < d.plen || (l == 0 && d.plen == 0))
    requires e.Bucket? && Represents(e, R, AddressBits(d.p[..l]), |d.p|) && WellFormed(e, l, |d.p|)
    requires d.plen <= 8 * (l + 1)
    ensures WellFormed(DeleteKids(e, d, l)[i], l + 1, |d.p|)
    ensures DeleteKids(e, d, l)[i].plen
         == BestLen(Without(R, Target(d), d.newRes), AddressBits(d.p[..l]) + BitsOf(8, i))
  {
    var p := Target(d);
    var c := AddressBits(d.p[..l]) + BitsOf(8, i);
    assert Represents(e.kids[i], R, c, |d.p|);
    DeleteRunCovers(d, l, i);
    if InDeleteRun(d, l, i) {
      EntryShape(e.kids[i], d, R, c, l + 1);
    } else {
      WithoutAgrees(R, p, d.newRes);
      BestFrame(R, Without(R, p, d.newRes), p, c);
    }
  }

  // ----- an unsafe delete answers some address with too short a prefix

  lemma WrongPassesUp(plen: nat, kids: seq<Entry>, d: DeleteReq, a: seq<byte>, l: nat, best: nat)
    requires l < |a| && |kids| == 256 && WellFormed(Collapse(plen, kids, d), l, |a|)
    requires WellFormed(kids[a[l]], l + 1, |a|) && plen <= kids[a[l]].plen
    requires Lookup(kids[a[l]], a, l + 1).plen < best
    ensures Lookup(Collapse(plen, kids, d), a, l).plen < best
  {
  }

  lemma {:induction false} UniformIsWrong(S: RouteSet, plen: nat, kids: seq<Entry>, a: seq<byte>, l: nat)
    requires l < |a| && |kids| == 256 && Uniform(kids) && kids[0].plen != plen
    requires plen == BestLen(S, AddressBits(a[..l]))
    requires Represents(kids[a[l]], S, AddressBits(a[..l]) + BitsOf(8, a[l]), |a|)
    ensures plen < BestLen(S, AddressBits(a))
  {
    AddressBitsStep(a, l);
    LookupIsBest(kids[a[l]], S, a, l + 1);
    AddressBitsPrefix(a, l);
    assert AddressBits(a[..l]) <= AddressBits(a);
    BestMonotone(S, AddressBits(a[..l]), AddressBits(a));
  }

  lemma {:induction false} EntryWrong(e: Entry, d: DeleteReq, R: RouteSet, x: seq<byte>) returns (a: seq<byte>)
    requires CarriesNextBest(d, R) && |x| <= |d.p| && Target(d) <= AddressBits(x)
    requires Represents(e, R, AddressBits(x), |d.p|) && WellFormed(e, |x|, |d.p|) && !EntrySafe(e, d, |x|)
    ensures |a| == |d.p| && a[..|x|] == x
    ensures WellFormed(DeleteEntry(e, d, |x|), |x|, |a|)
    ensures Lookup(DeleteEntry(e, d, |x|), a, |x|).plen
          < BestLen(Without(R, Target(d), d.newRes), AddressBits(a))
    decreases e
  {
    var l := |x|;
    EntryShape(e, d, R, AddressBits(x), l);
    if !KidsSafe(e, d, l) {
      var i :| 0 <= i < 256 && InDeleteRun(d, l, i) && !EntrySafe(e.kids[i], d, l + 1);
      AddressBitsAppend(x, i);
      FrameStep(Target(d), AddressBits(x), AddressBits(x + [i]));
      a := EntryWrong(e.kids[i], d, R, x + [i]);
      EntryWrongUp(e, d, R, x, i, a);
    } else {
      a := x + seq(|d.p| - l, _ => 0);
      EntryUniformWrong(e, d, R, x, a);
    }
  }

  lemma {:induction false} EntryWrongUp(e: Entry, d: DeleteReq, R: RouteSet, x: seq<byte>, i: byte, a: seq<byte>)
    requires CarriesNextBest(d, R) && |x| < |d.p| && Target(d) <= AddressBits(x)
    requires Represents(e, R, AddressBits(x), |d.p|) && WellFormed(e, |x|, |d.p|) && e.Bucket? && e.plen == d.plen
    requires |a| == |d.p| && a[..|x| + 1] == x + [i]
    requires InDeleteRun(d, |x|, i) && WellFormed(DeleteEntry(e.kids[i], d, |x| + 1), |x| + 1, |a|)
    requires WellFormed(DeleteEntry(e, d, |x|), |x|, |a|)
    requires Lookup(DeleteEntry(e.kids[i], d, |x| + 1), a, |x| + 1).plen
           < BestLen(Without(R, Target(d), d.newRes), AddressBits(a))
    ensures a[..|x|] == x
    ensures Lookup(DeleteEntry(e, d, |x|), a, |x|).plen
          < BestLen(Without(R, Target(d), d.newRes), AddressBits(a))
  {
    var l, b := |x|, AddressBits(x);
    var S := Without(R, Target(d), d.newRes);
    var kids := DeleteKids(e, d, l);
    SplitLast(a, x, i);
    EntryShape(e, d, R, b, l);
    FrameStep(Target(d), b, b + BitsOf(8, i));
    EntryShape(e.kids[i], d, R, b + BitsOf(8, i), l + 1);
    BestMonotone(S, b, b + BitsOf(8, i));
    WrongPassesUp(d.newLen, kids, d, a, l, BestLen(S, AddressBits(a)));
  }

  lemma {:induction false} EntryUniformWrong(e: Entry, d: DeleteReq, R: RouteSet, x: seq<byte>, a: seq<byte>)
    requires CarriesNextBest(d, R) && |x| < |d.p| && Target(d) <= AddressBits(x) && |a| == |d.p| && x <= a
    requires Represents(e, R, AddressBits(x), |d.p|) && WellFormed(e, |x|, |d.p|) && e.Bucket? && e.plen == d.plen
    requires KidsSafe(e, d, |x|) && !CollapseSafe(d.newLen, DeleteKids(e, d, |x|))
    requires WellFormed(DeleteEntry(e, d, |x|), |x|, |a|)
    ensures Lookup(DeleteEntry(e, d, |x|), a, |x|).plen
          < BestLen(Without(R, Target(d), d.newRes), AddressBits(a))
  {
    var l, b := |x|, AddressBits(x);
    var S := Without(R, Target(d), d.newRes);
    assert a[..l] == x;
    EntryShape(e, d, R, b, l);
    FrameStep(Target(d), b, b + BitsOf(8, a[l]));
    assert InDeleteRun(d, l, a[l]);
    EntryRepresents(e.kids[a[l]], d, R, b + BitsOf(8, a[l]), l + 1);
    UniformIsWrong(S, d.newLen, DeleteKids(e, d, l), a, l);
  }

  lemma {:induction false} DeleteWrong(e: Entry, d: DeleteReq, R: RouteSet, l: nat) returns (a: seq<byte>)
    requires CarriesNextBest(d, R) && l < |d.p| && (8 * l < d.plen || (l == 0 && d.plen == 0))
    requires Represents(e, R, AddressBits(d.p[..l]), |d.p|) && WellFormed(e, l, |d.p|)
    requires e.Bucket? && !DeleteSafe(e, d, l)
    ensures |a| == |d.p| && a[..l] == d.p[..l]
    ensures WellFormed(DeleteAt(e, d, l), l, |a|)
    ensures Lookup(DeleteAt(e, d, l), a, l).plen < BestLen(Without(R, Target(d), d.newRes), AddressBits(a))
    decreases e
  {
    DeleteShape(e, d, R, l);
    if KidsSafe(e, d, l) {
      a := d.p;
      DeleteUniformWrong(e, d, R, l);
    } else {
      a := UnsafeKid(e, d, R, l);
      DeleteWrongUp(e, d, R, l, a);
    }
  }

  lemma {:induction false} UnsafeKid(e: Entry, d: DeleteReq, R: RouteSet, l: nat) returns (a: seq<byte>)
    requires CarriesNextBest(d, R) && l < |d.p| && (8 * l < d.plen || (l == 0 && d.plen == 0))
    requires Represents(e, R, AddressBits(d.p[..l]), |d.p|) && WellFormed(e, l, |d.p|)
    requires e.Bucket? && !KidsSafe(e, d, l)
    ensures |a| == |d.p| && a[..l] == d.p[..l]
    ensures WellFormed(DeleteKids(e, d, l)[a[l]], l + 1, |a|)
    ensures Lookup(DeleteKids(e, d, l)[a[l]], a, l + 1).plen
          < BestLen(Without(R, Target(d), d.newRes), AddressBits(a))
    decreases e, 0
  {
    if d.plen > 8 * (l + 1) {
      AddressBitsStep(d.p, l);
      a := DeleteWrong(e.kids[d.p[l]], d, R, l + 1);
      SameByte(a, d.p, l);
    } else {
      a := UnsafeLastKid(e, d, R, l);
    }
  }

  lemma SameByte(a: seq<byte>, p: seq<byte>, l: nat)
    requires l < |a| == |p| && a[..l + 1] == p[..l + 1]
    ensures a[l] == p[l] && a[..l] == p[..l]
  {
  }

  lemma SplitLast(a: seq<byte>, x: seq<byte>, i: byte)
    requires |x| < |a| && a[..|x| + 1] == x + [i]
    ensures a[|x|] == i && a[..|x|] == x
  {
  }

  lemma {:induction false} UnsafeLastKid(e: Entry, d: DeleteReq, R: RouteSet, l: nat) returns (a: seq<byte>)
    requires CarriesNextBest(d, R) && l < |d.p| && (8 * l < d.plen || (l == 0 && d.plen == 0))
    requires Represents(e, R, AddressBits(d.p[..l]), |d.p|) && WellFormed(e, l, |d.p|)
    requires e.Bucket? && d.plen <= 8 * (l + 1) && !KidsSafe(e, d, l)
    ensures |a| == |d.p| && a[..l] == d.p[..l]
    ensures WellFormed(DeleteKids(e, d, l)[a[l]], l + 1, |a|)
    ensures Lookup(DeleteKids(e, d, l)[a[l]], a, l + 1).plen
          < BestLen(Without(R, Target(d), d.newRes), AddressBits(a))
  {
    var x := d.p[..l];
    var i :| 0 <= i < 256 && InDeleteRun(d, l, i) && !EntrySafe(e.kids[i], d, l + 1);
    DeleteRunCovers(d, l, i);
    AddressBitsAppend(x, i);
    a := EntryWrong(e.kids[i], d, R, x + [i]);
    SplitLast(a, x, i);
  }

  lemma {:induction false} DeleteWrongUp(e: Entry, d: DeleteReq, R: RouteSet, l: nat, a: seq<byte>)
    requires CarriesNextBest(d, R) && l < |d.p| && (8 * l < d.plen || (l == 0 && d.plen == 0))
    requires Represents(e, R, AddressBits(d.p[..l]), |d.p|) && WellFormed(e, l, |d.p|) && e.Bucket?
    requires |a| == |d.p| && WellFormed(DeleteKids(e, d, l)[a[l]], l + 1, |a|)
    requires WellFormed(DeleteAt(e, d, l), l, |a|)
    requires Lookup(DeleteKids(e, d, l)[a[l]], a, l + 1).plen
           < BestLen(Without(R, Target(d), d.newRes), AddressBits(a))
    ensures Lookup(DeleteAt(e, d, l), a, l).plen < BestLen(Without(R, Target(d), d.newRes), AddressBits(a))
  {
    var b := AddressBits(d.p[..l]);
    var S := Without(R, Target(d), d.newRes);
    DeleteShape(e, d, R, l);
    KidShape(e, d, R, l, a[l]);
    BestMonotone(S, b, b + BitsOf(8, a[l]));
    WrongPassesUp(e.plen, DeleteKids(e, d, l), d, a, l, BestLen(S, AddressBits(a)));
  }

  lemma {:induction false} DeleteUniformWrong(e: Entry, d: DeleteReq, R: RouteSet, l: nat)
    requires CarriesNextBest(d, R) && l < |d.p| && (8 * l < d.plen || (l == 0 && d.plen == 0))
    requires Represents(e, R, AddressBits(d.p[..l]), |d.p|) && WellFormed(e, l, |d.p|)
    requires e.Bucket? && KidsSafe(e, d, l) && !CollapseSafe(e.plen, DeleteKids(e, d, l))
    requires WellFormed(DeleteAt(e, d, l), l, |d.p|)
    ensures Lookup(DeleteAt(e, d, l), d.p, l).plen < BestLen(Without(R, Target(d), d.newRes), AddressBits(d.p))
  {
    var S := Without(R, Target(d), d.newRes);
    DeleteShape(e, d, R, l);
    DeleteKidRepresents(e, d, R, l, d.p[l]);
    UniformIsWrong(S, e.plen, DeleteKids(e, d, l), d.p, l);
  }

  // ----- the main theorem on one delete

  lemma {:induction false} RootLeafDelete(e: Entry, d: DeleteReq, R: RouteSet, a: seq<byte>)
    requires e.Leaf? && |d.p| > 0 && d.plen == 0 && CarriesNextBest(d, R) && Represents(e, R, [], |d.p|)
    requires |a| == |d.p|
    ensures Best(Without(R, [], d.newRes), AddressBits(a)) == Answer(0, d.newRes)
  {
  }

  /** A delete leaves every lookup at longest match in the remaining routes if and only if it is safe. */
  lemma {:induction false} SafeCorrectIff(e: Entry, d: DeleteReq, R: RouteSet)
    requires |d.p| > 0 && CarriesNextBest(d, R) && Represents(e, R, [], |d.p|) && WellFormed(e, 0, |d.p|)
    ensures WellFormed(DeleteAt(e, d, 0), 0, |d.p|)
    ensures DeleteSafe(e, d, 0)
       <==> forall a: seq<byte> | |a| == |d.p| ::
              Lookup(DeleteAt(e, d, 0), a, 0) == Best(Without(R, Target(d), d.newRes), AddressBits(a))
    ensures DeleteSafe(e, d, 0) ==> Represents(DeleteAt(e, d, 0), Without(R, Target(d), d.newRes), [], |d.p|)
  {
    var S := Without(R, Target(d), d.newRes);
    assert d.p[..0] == [];
    DeleteShape(e, d, R, 0);
    if DeleteSafe(e, d, 0) {
      DeleteRepresents(e, d, R, 0);
      forall a: seq<byte> | |a| == |d.p|
        ensures Lookup(DeleteAt(e, d, 0), a, 0) == Best(S, AddressBits(a))
      {
        assert a[..0] == [];
        LookupIsBest(DeleteAt(e, d, 0), S, a, 0);
      }
    } else if e.Leaf? {
      RootLeafDelete(e, d, R, d.p);
      assert Lookup(DeleteAt(e, d, 0), d.p, 0) != Best(S, AddressBits(d.p));
    } else {
      var a := DeleteWrong(e, d, R, 0);
      assert Lookup(DeleteAt(e, d, 0), a, 0) != Best(S, AddressBits(a));
    }
  }
}
