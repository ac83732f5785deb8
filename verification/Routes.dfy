/**
 * The abstract routing table: a finite set of prefixes, each a bit string, with the
 * forwarding result of its route. The default route (the empty prefix) is always present.
 * Longest match is taken literally: the longest leading part of the address that is a route.
 */
module Routes {

  /** What a lookup hands back besides the prefix length: nexthop, label flags, label and bridge index. */
  datatype Result = Result(nh: nat, labelFlags: int, tag: int, bridgeIndex: int)

  type Prefix = seq<bool>

  type RouteSet = m: map<Prefix, Result> | [] in m witness map[[] := Result(0, 0, 0, 0)]

  datatype Answer = Answer(plen: nat, res: Result)

  /** The length of the longest route that is a leading part of `b`. */
  function BestLen(R: RouteSet, b: Prefix): (k: nat)
    ensures k <= |b| && b[..k] in R
    decreases |b|
  {
    if b in R then
      assert b[..|b|] == b;
      |b|
    else
      var c := b[..|b| - 1];
      var k := BestLen(R, c);
      assert b[..k] == c[..k];
      k
  }

  lemma {:induction false} BestLenLongest(R: RouteSet, b: Prefix)
    ensures forall j :: BestLen(R, b) < j <= |b| ==> b[..j] !in R
    decreases |b|
  {
    assert b[..|b|] == b;
    if b !in R {
      var c := b[..|b| - 1];
      BestLenLongest(R, c);
      assert forall j :: 0 <= j < |b| ==> b[..j] == c[..j];
    }
  }

  function Best(R: RouteSet, b: Prefix): Answer
  {
    var k := BestLen(R, b);
    Answer(k, R[b[..k]])
  }

  lemma BestLenUnique(R: RouteSet, b: Prefix, k: nat)
    requires k <= |b| && b[..k] in R
    requires forall j :: k < j <= |b| ==> b[..j] !in R
    ensures BestLen(R, b) == k
  {
    BestLenLongest(R, b);
    var m := BestLen(R, b);
    assert b[..m] in R && b[..k] in R;
  }

  /** The two tables differ at most in the route for `p`. */
  ghost predicate AgreeExcept(R: RouteSet, S: RouteSet, p: Prefix)
  {
    && (forall q :: q in R && q != p ==> q in S && S[q] == R[q])
    && (forall q :: q in S && q != p ==> q in R)
  }

  /** A change at a prefix that does not cover `b`, or that a longer cover beats, leaves the best cover alone. */
  lemma BestFrame(R: RouteSet, S: RouteSet, p: Prefix, b: Prefix)
    requires AgreeExcept(R, S, p)
    requires !(p <= b) || BestLen(R, b) > |p|
    ensures Best(S, b) == Best(R, b)
  {
  }

  /** A route for a cover of `b` takes over exactly when no longer cover exists. */
  lemma BestAfterAdd(R: RouteSet, S: RouteSet, p: Prefix, b: Prefix)
    requires AgreeExcept(R, S, p) && p in S && p <= b
    ensures Best(S, b) == if BestLen(R, b) <= |p| then Answer(|p|, S[p]) else Best(R, b)
  {
    if BestLen(R, b) <= |p| {
      BestLenLongest(R, b);
      assert b[..|p|] == p;
      forall j | |p| < j <= |b| ensures b[..j] !in S {
        assert b[..j] != p;
      }
      BestLenUnique(S, b, |p|);
    } else {
      BestFrame(R, S, p, b);
    }
  }

  /** Extending `b` past every route that extends it keeps the best cover. */
  lemma BestExtend(R: RouteSet, b: Prefix, c: Prefix)
    requires b <= c
    requires forall q :: q in R && b <= q && q <= c ==> q == b
    ensures Best(R, c) == Best(R, b)
  {
    var k := BestLen(R, b);
    BestLenLongest(R, b);
    assert c[..k] == b[..k];
    forall j | k < j <= |c| ensures c[..j] !in R {
      if j <= |b| {
        assert c[..j] == b[..j];
      } else {
        assert b <= c[..j] && c[..j] <= c && c[..j] != b;
      }
    }
    BestLenUnique(R, c, k);
  }

  /** Covers only get longer along an extension, and the longer ones lie past the shorter string. */
  lemma BestMonotone(R: RouteSet, b: Prefix, c: Prefix)
    requires b <= c
    ensures BestLen(R, c) >= BestLen(R, b)
    ensures BestLen(R, c) == BestLen(R, b) || BestLen(R, c) > |b|
    ensures BestLen(R, c) == BestLen(R, b) ==> Best(R, c) == Best(R, b)
  {
    var k, m := BestLen(R, b), BestLen(R, c);
    BestLenLongest(R, b);
    BestLenLongest(R, c);
    assert c[..k] == b[..k];
    if m <= |b| {
      assert c[..m] == b[..m];
    }
  }
}
