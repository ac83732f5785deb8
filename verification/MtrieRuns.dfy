/** Longest match over every run of aligned adds and safe deletes, starting from a fresh table. */
module MtrieRuns {
  import opened Bits
  import opened Routes
  import opened Mtrie
  import opened MtrieAdd
  import opened MtrieRoutes
  import opened MtrieDelete
  import opened MtrieTiles

  /** A fresh table: one root leaf of length zero that discards. */
  function FreshRoot(discard: Result): Entry
  {
    Leaf(0, discard)
  }

  datatype Op =
    | AddRoute(p: seq<byte>, plen: nat, res: Result)
    | DeleteRoute(d: DeleteReq)

  datatype State = State(root: Entry, routes: RouteSet)

  /** One aligned add or safe delete on a table with `n` levels, and the same request on the abstract routes. */
  ghost predicate Step(s: State, op: Op, t: State, n: nat)
  {
    && n > 0
    && WellFormed(s.root, 0, n)
    && match op
       case AddRoute(p, plen, res) =>
         && |p| == n && plen <= 8 * n && Aligned(p, plen)
         && t.root == AddAt(s.root, p, 0, plen, res)
         && t.routes == s.routes[AddressBits(p)[..plen] := res]
       case DeleteRoute(d) =>
         && |d.p| == n && CarriesNextBest(d, s.routes) && Deletable(s.root, d, s.routes)
         && t.root == DeleteAt(s.root, d, 0)
         && t.routes == Without(s.routes, Target(d), d.newRes)
  }

  ghost predicate Run(states: seq<State>, ops: seq<Op>, discard: Result, n: nat)
  {
    && |states| == |ops| + 1
    && states[0] == State(FreshRoot(discard), map[[] := discard])
    && forall i :: 0 <= i < |ops| ==> Step(states[i], ops[i], states[i + 1], n)
  }

  lemma StepRepresents(s: State, op: Op, t: State, n: nat)
    requires Step(s, op, t, n) && Represents(s.root, s.routes, [], n)
    ensures Represents(t.root, t.routes, [], n)
  {
    match op
    case AddRoute(p, plen, res) =>
      assert p[..0] == [];
      AddRepresents(s.root, s.routes, p, 0, plen, res);
    case DeleteRoute(d) =>
      DeleteCorrectIff(s.root, d, s.routes);
  }

  lemma {:induction false} RunRepresents(states: seq<State>, ops: seq<Op>, discard: Result, n: nat, i: nat)
    requires n > 0 && Run(states, ops, discard, n) && i <= |ops|
    ensures Represents(states[i].root, states[i].routes, [], n)
  {
    if i > 0 {
      RunRepresents(states, ops, discard, n, i - 1);
      StepRepresents(states[i - 1], ops[i - 1], states[i], n);
    }
  }

  /** In every state of every run, a full-length lookup is longest match in the routes of that state. */
  lemma LookupIsLongestMatch(states: seq<State>, ops: seq<Op>, discard: Result, i: nat, a: seq<byte>)
    requires |a| > 0 && Run(states, ops, discard, |a|) && i <= |ops|
    ensures WellFormed(states[i].root, 0, |a|)
    ensures Lookup(states[i].root, a, 0) == Best(states[i].routes, AddressBits(a))
  {
    RunRepresents(states, ops, discard, |a|, i);
    assert a[..0] == [];
    LookupIsBest(states[i].root, states[i].routes, a, 0);
  }

  // ----- requests that break the table

  /** Deleting a default route whose bucket has collapsed into the root is silently ignored. */
  lemma DefaultDeleteLost(route: Result, discard: Result, n: nat)
    requires n > 0 && route != discard
    ensures var root, R := Leaf(0, route), map[[] := route];
            var d := DeleteReq(seq(n, _ => 0), 0, 0, discard);
            && Represents(root, R, [], n) && CarriesNextBest(d, R) && !Deletable(root, d, R)
            && DeleteAt(root, d, 0) == root
  {
  }

  /** Two half-length default routes with the same result. */
  ghost function HalvesTable(half: Result, discard: Result): RouteSet
  {
    map[[] := discard, [false] := half, [true] := half]
  }

  lemma HalvesBest(half: Result, discard: Result, b: Prefix)
    ensures Best(HalvesTable(half, discard), b) == if b == [] then Answer(0, discard) else Answer(1, half)
  {
    var R := HalvesTable(half, discard);
    if b == [] {
      BestLenUnique(R, b, 0);
    } else {
      if b[0] {
        assert b[..1] == [true];
      } else {
        assert b[..1] == [false];
      }
      BestLenUnique(R, b, 1);
    }
  }

  function HalvesTrie(half: Result): Entry
  {
    Bucket(0, seq(256, _ => Leaf(1, half)))
  }

  lemma HalvesRepresent(half: Result, discard: Result, n: nat)
    requires n > 0
    ensures Represents(HalvesTrie(half), HalvesTable(half, discard), [], n) && WellFormed(HalvesTrie(half), 0, n)
  {
    var root, R := HalvesTrie(half), HalvesTable(half, discard);
    HalvesBest(half, discard, []);
    forall i | 0 <= i < 256 ensures Represents(root.kids[i], R, [] + BitsOf(8, i), n) {
      HalvesBest(half, discard, [] + BitsOf(8, i));
    }
    RepresentsShape(root, R, [], 0, n);
  }

  /** The request for the /8 of an address, naming the /1 that covers it as the route to take over. */
  function HalvesDelete(half: Result, a: seq<byte>): DeleteReq
  {
    DeleteReq(a, 8, 1, half)
  }

  lemma {:induction false} HalvesCarry(half: Result, discard: Result, a: seq<byte>)
    requires |a| > 0
    ensures var d, R := HalvesDelete(half, a), HalvesTable(half, discard);
            CarriesNextBest(d, R) && Without(R, Target(d), half) == R
  {
    var d, R := HalvesDelete(half, a), HalvesTable(half, discard);
    WithoutAgrees(R, Target(d), half);
    HalvesBest(half, discard, Target(d));
  }

  /**
   * With 0/1 and 128/1 installed with one result, deleting any /8 that is not there collapses the
   * root bucket, and every address is then answered with length 0 instead of 1.
   */
  lemma {:induction false} TiledDeleteLost(half: Result, discard: Result, a: seq<byte>)
    requires |a| > 0
    ensures var d, R := HalvesDelete(half, a), HalvesTable(half, discard);
            && Represents(HalvesTrie(half), R, [], |a|) && WellFormed(HalvesTrie(half), 0, |a|)
            && CarriesNextBest(d, R) && !Deletable(HalvesTrie(half), d, R)
            && DeleteAt(HalvesTrie(half), d, 0) == Leaf(0, half)
            && Best(Without(R, Target(d), half), AddressBits(a)) == Answer(1, half)
  {
    var d, root := HalvesDelete(half, a), HalvesTrie(half);
    HalvesRepresent(half, discard, |a|);
    HalvesCarry(half, discard, a);
    HalvesBest(half, discard, AddressBits(a));
    var kids := DeleteKids(root, d, 0);
    forall i | 0 <= i < 256 ensures kids[i] == Leaf(1, half) {
      assert root.kids[i] == Leaf(1, half) && d.plen == 8;
      assert DeleteEntry(root.kids[i], d, 0 + 1) == root.kids[i];
    }
    assert Uniform(kids);
    DeleteCorrectIff(root, d, HalvesTable(half, discard));
    assert Lookup(DeleteAt(root, d, 0), a, 0) == Answer(0, half);
  }
}
