/**
 * Tries and nexthops together: every leaf of every trie, and of every bucket that waits to be freed,
 * holds one reference to the nexthop it names. Whole adds and deletes of routes, with the splits and
 * collapses they cause, and the freeing of buckets keep all counts right.
 */
module NexthopTrie {
  import opened Bits
  import opened Numbers
  import opened Routes
  import opened Mtrie
  import opened MtrieAdd
  import N = Nexthops

  // ----- the nexthops that leaves name

  ghost function LeafBag(e: Entry): multiset<nat>
    decreases e
  {
    match e
    case Leaf(_, res) => multiset{res.nh}
    case Bucket(_, kids) => SeqBag(kids)
  }

  ghost function SeqBag(s: seq<Entry>): multiset<nat>
    decreases s
  {
    if s == [] then multiset{} else LeafBag(s[0]) + SeqBag(s[1..])
  }

  lemma {:induction false} SeqBagConcat(a: seq<Entry>, b: seq<Entry>)
    ensures SeqBag(a + b) == SeqBag(a) + SeqBag(b)
  {
    if a == [] {
      assert a + b == b;
    } else {
      assert (a + b)[1..] == a[1..] + b;
      SeqBagConcat(a[1..], b);
    }
  }

  lemma SeqBagOne(e: Entry)
    ensures SeqBag([e]) == LeafBag(e)
  {
    assert [e][1..] == [];
  }

  /** The leaves of all entries but one. */
  ghost function Others(s: seq<Entry>, i: nat): multiset<nat>
    requires i < |s|
  {
    SeqBag(s[..i]) + SeqBag(s[i + 1..])
  }

  lemma SeqBagAt(s: seq<Entry>, i: nat, e: Entry)
    requires i < |s|
    ensures SeqBag(s[i := e]) == Others(s, i) + LeafBag(e)
  {
    assert s[i := e] == s[..i] + ([e] + s[i + 1..]);
    SeqBagConcat(s[..i], [e] + s[i + 1..]);
    SeqBagConcat([e], s[i + 1..]);
    SeqBagOne(e);
  }

  lemma SeqBagThere(s: seq<Entry>, i: nat)
    requires i < |s|
    ensures SeqBag(s) == Others(s, i) + LeafBag(s[i])
  {
    assert s[i := s[i]] == s;
    SeqBagAt(s, i, s[i]);
  }

  lemma {:induction false} SeqBagCopies(s: seq<Entry>, plen: nat, res: Result)
    requires forall i :: 0 <= i < |s| ==> s[i] == Leaf(plen, res)
    ensures SeqBag(s) == N.Copies(res.nh, |s|)
  {
    if s != [] { SeqBagCopies(s[1..], plen, res); }
  }

  // ----- adding, where split leaves are set anew

  /** A split sets every new entry to the parent's nexthop, or to the discard nexthop if that one is gone. */
  function Split(o: N.Order, slots: map<N.Id, N.Nh>, e: Entry): (kids: seq<Entry>)
    requires N.DISCARD in slots
  {
    match e
    case Leaf(plen, res) => seq(256, _ => Leaf(plen, res.(nh := N.Stored(o, slots, res.nh))))
    case Bucket(_, kids) => kids
  }

  function AddIn(o: N.Order, slots: map<N.Id, N.Nh>, e: Entry, p: seq<byte>, l: nat, plen: nat, res: Result): Entry
    requires N.DISCARD in slots && l < |p| && plen <= 8 * |p| && Shaped(e, l, |p|)
    decreases |p| - l
  {
    var kids := Split(o, slots, e);
    if plen > 8 * (l + 1) then
      Bucket(e.plen, kids[p[l] := AddIn(o, slots, kids[p[l]], p, l + 1, plen, res)])
    else
      Bucket(e.plen, Pushed(kids, p[l], RunLength(l, plen), plen, res))
  }

  function Pushed(kids: seq<Entry>, idx: int, fin: nat, plen: nat, res: Result): seq<Entry>
    requires |kids| == 256
  {
    seq(256, i requires 0 <= i < 256 => if InRun(i, idx, fin) then AddToTree(kids[i], plen, res) else kids[i])
  }

  /** The leaf an add splits, if it splits one, names a nexthop still in its place, or is all overwritten. */
  ghost predicate SplitsLive(o: N.Order, slots: map<N.Id, N.Nh>, e: Entry, p: seq<byte>, l: nat, plen: nat)
    requires l < |p| && Shaped(e, l, |p|)
    decreases |p| - l
  {
    match e
    case Leaf(was, res) => N.InPlace(o, slots, res.nh) || was <= plen <= 8 * l
    case Bucket(_, kids) => plen > 8 * (l + 1) && l + 1 < |p| ==> SplitsLive(o, slots, kids[p[l]], p, l + 1, plen)
  }

  /** Then, and only then, the add is the one that leads to longest match. */
  lemma {:induction false} AddInIsAddIff(o: N.Order, slots: map<N.Id, N.Nh>, e: Entry, p: seq<byte>, l: nat,
                                         plen: nat, res: Result)
    requires N.SlotsOk(o, slots) && N.DISCARD in slots && l < |p| && plen <= 8 * |p| && Shaped(e, l, |p|)
    ensures AddIn(o, slots, e, p, l, plen, res) == AddAt(e, p, l, plen, res) <==> SplitsLive(o, slots, e, p, l, plen)
    decreases |p| - l
  {
    var x, y := AddIn(o, slots, e, p, l, plen, res), AddAt(e, p, l, plen, res);
    if e.Bucket? {
      if plen > 8 * (l + 1) {
        AddInIsAddIff(o, slots, e.kids[p[l]], p, l + 1, plen, res);
        assert x.kids[p[l]] == AddIn(o, slots, e.kids[p[l]], p, l + 1, plen, res);
      }
    } else if N.InPlace(o, slots, e.res.nh) {
      assert Split(o, slots, e) == Children(e);
      if plen > 8 * (l + 1) { AddInIsAddIff(o, slots, e, p, l + 1, plen, res); }
    } else {
      SplitDiffers(o, slots, e, p, l, plen, res);
    }
  }

  lemma SplitDiffers(o: N.Order, slots: map<N.Id, N.Nh>, e: Entry, p: seq<byte>, l: nat, plen: nat, res: Result)
    requires N.SlotsOk(o, slots) && N.DISCARD in slots && l < |p| && plen <= 8 * |p|
    requires e.Leaf? && !N.InPlace(o, slots, e.res.nh)
    ensures AddIn(o, slots, e, p, l, plen, res) == AddAt(e, p, l, plen, res) <==> e.plen <= plen <= 8 * l
  {
    var x, y := AddIn(o, slots, e, p, l, plen, res), AddAt(e, p, l, plen, res);
    assert forall i: byte :: Split(o, slots, e)[i] != Children(e)[i];
    if plen > 8 * (l + 1) {
      var j := if p[l] == 0 then 1 else 0;
      assert x.kids[j] == Split(o, slots, e)[j] && y.kids[j] == Children(e)[j];
    } else if plen > 8 * l {
      var j := Outside(p[l], l, plen);
      assert x.kids[j] == Split(o, slots, e)[j] && y.kids[j] == Children(e)[j];
    } else if e.plen > plen {
      var kids, from := Split(o, slots, e), Children(e);
      assert AddToTree(kids[0], plen, res) == kids[0] && AddToTree(from[0], plen, res) == from[0];
      assert x.kids[0] == kids[0] && y.kids[0] == from[0];
    } else {
      forall i | 0 <= i < 256 ensures x.kids[i] == y.kids[i] {
        assert InRun(i, p[l], 256) && Children(e)[i] == e;
        assert x.kids[i] == Leaf(plen, res);
        assert y.kids[i] == AddToTree(e, plen, res) == Leaf(plen, res);
      }
      assert x.kids == y.kids;
    }
  }

  /** A route longer than its bucket's own block leaves some entry of the bucket alone. */
  lemma Outside(idx: byte, l: nat, plen: nat) returns (j: byte)
    requires 8 * l < plen <= 8 * (l + 1)
    ensures !InRun(j, idx, RunLength(l, plen))
  {
    Pow2Of8();
    var fin := RunLength(l, plen);
    assert 1 <= fin <= 128;
    j := if idx + fin < 256 then idx + fin else idx + fin - 256;
    assert (j - idx) % 256 == fin;
  }
  // ----- shapes

  lemma {:induction false} PushShaped(e: Entry, plen: nat, res: Result, l: nat, n: nat)
    requires Shaped(e, l, n)
    ensures Shaped(AddToTree(e, plen, res), l, n)
    decreases e
  {
    if e.plen <= plen && e.Bucket? {
      forall i | 0 <= i < 256 ensures Shaped(AddToTree(e.kids[i], plen, res), l + 1, n) {
        PushShaped(e.kids[i], plen, res, l + 1, n);
      }
    }
  }

  lemma {:induction false} AddInShaped(o: N.Order, slots: map<N.Id, N.Nh>, e: Entry, p: seq<byte>, l: nat, plen: nat,
                                       res: Result)
    requires N.DISCARD in slots && l < |p| && plen <= 8 * |p| && Shaped(e, l, |p|)
    ensures Shaped(AddIn(o, slots, e, p, l, plen, res), l, |p|)
    decreases |p| - l
  {
    var kids := Split(o, slots, e);
    if plen > 8 * (l + 1) {
      AddInShaped(o, slots, kids[p[l]], p, l + 1, plen, res);
    } else {
      forall i | 0 <= i < 256 ensures Shaped(AddToTree(kids[i], plen, res), l + 1, |p|) {
        PushShaped(kids[i], plen, res, l + 1, |p|);
      }
    }
  }

  lemma {:induction false} DeleteShaped(e: Entry, d: DeleteReq, l: nat)
    requires l <= |d.p| && ValidDelete(d) && Shaped(e, l, |d.p|)
    ensures Shaped(DeleteAt(e, d, l), l, |d.p|) && Shaped(DeleteEntry(e, d, l), l, |d.p|)
    decreases e, 1
  {
    if e.Bucket? {
      var kids := DeleteKids(e, d, l);
      forall i: byte ensures Shaped(kids[i], l + 1, |d.p|) { KidShaped(e, d, l, i); }
    }
  }

  lemma {:induction false} KidShaped(e: Entry, d: DeleteReq, l: nat, i: byte)
    requires l < |d.p| && ValidDelete(d) && Shaped(e, l, |d.p|) && e.Bucket?
    ensures Shaped(DeleteKids(e, d, l)[i], l + 1, |d.p|)
    decreases e, 0
  {
    assert Shaped(e.kids[i], l + 1, |d.p|);
    DeleteShaped(e.kids[i], d, l + 1);
  }

  // ----- what lookups return after an add

  /** The leaf of address `a` is split by an add. */
  ghost predicate SplitFor(e: Entry, p: seq<byte>, l: nat, plen: nat, a: seq<byte>)
    requires l < |p| == |a| && Shaped(e, l, |p|)
    decreases |p| - l
  {
    e.Leaf? || (plen > 8 * (l + 1) && a[l] == p[l] && l + 1 < |p| && SplitFor(e.kids[p[l]], p, l + 1, plen, a))
  }

  function Settled(o: N.Order, slots: map<N.Id, N.Nh>, answer: Answer): Answer
    requires N.DISCARD in slots
  {
    Answer(answer.plen, answer.res.(nh := N.Stored(o, slots, answer.res.nh)))
  }

  lemma SettledTwice(o: N.Order, slots: map<N.Id, N.Nh>, answer: Answer)
    requires N.DISCARD in slots && N.SlotsOk(o, slots)
    ensures Settled(o, slots, Settled(o, slots, answer)) == Settled(o, slots, answer)
  {
  }

  lemma SplitShape(o: N.Order, slots: map<N.Id, N.Nh>, e: Entry, l: nat, n: nat, i: byte)
    requires N.DISCARD in slots && WellFormed(e, l, n) && l < n
    ensures var kids := Split(o, slots, e); |kids| == 256 && WellFormed(kids[i], l + 1, n) && e.plen <= kids[i].plen
  {
    if e.Bucket? { assert Shaped(e.kids[i], l + 1, n); }
  }

  lemma SplitLookup(o: N.Order, slots: map<N.Id, N.Nh>, e: Entry, a: seq<byte>, l: nat)
    requires N.DISCARD in slots && WellFormed(e, l, |a|) && l < |a|
    ensures var kids := Split(o, slots, e);
            && |kids| == 256 && Shaped(kids[a[l]], l + 1, |a|)
            && Lookup(kids[a[l]], a, l + 1) == if e.Leaf? then Settled(o, slots, Lookup(e, a, l)) else Lookup(e, a, l)
  {
    SplitShape(o, slots, e, l, |a|, a[l]);
  }

  /**
   * An add changes the answer for the addresses it reaches whose answer comes from no longer prefix; where it splits
   * a leaf it may change the nexthop of other answers to the discard nexthop, and nothing else of them.
   */
  lemma {:induction false} AddInLookup(o: N.Order, slots: map<N.Id, N.Nh>, e: Entry, p: seq<byte>, l: nat, plen: nat,
                                       res: Result, a: seq<byte>)
    requires N.SlotsOk(o, slots) && N.DISCARD in slots && l < |p| && plen <= 8 * |p| && |a| == |p|
    requires WellFormed(e, l, |p|) && e.plen <= plen
    ensures Shaped(AddIn(o, slots, e, p, l, plen, res), l, |p|)
    ensures Lookup(AddIn(o, slots, e, p, l, plen, res), a, l) ==
      if Reached(p, l, plen, a) && Lookup(e, a, l).plen <= plen then Answer(plen, res)
      else if SplitFor(e, p, l, plen, a) then Settled(o, slots, Lookup(e, a, l))
      else Lookup(e, a, l)
    decreases |p| - l
  {
    AddInShaped(o, slots, e, p, l, plen, res);
    SplitShape(o, slots, e, l, |p|, a[l]);
    SplitLookup(o, slots, e, a, l);
    var kid := Split(o, slots, e)[a[l]];
    if plen > 8 * (l + 1) {
      if a[l] == p[l] {
        AddInLookup(o, slots, kid, p, l + 1, plen, res, a);
        if e.Leaf? { SettledTwice(o, slots, Lookup(e, a, l)); }
      }
    } else if InRun(a[l], p[l], RunLength(l, plen)) {
      AddToTreeLookup(kid, plen, res, a, l + 1);
    }
  }

  // ----- the router

  /** A place in the table of tries. */
  datatype Root = NoTrie | Trie(entry: Entry)

  ghost function RootBag(r: Root): multiset<nat>
  {
    if r.Trie? then LeafBag(r.entry) else multiset{}
  }

  ghost function RootsBag(s: seq<Root>): multiset<nat>
  {
    if s == [] then multiset{} else RootBag(s[0]) + RootsBag(s[1..])
  }

  ghost function OtherRoots(s: seq<Root>, v: nat): multiset<nat>
    requires v < |s|
  {
    RootsBag(s[..v]) + RootsBag(s[v + 1..])
  }

  lemma {:induction false} RootsBagConcat(a: seq<Root>, b: seq<Root>)
    ensures RootsBag(a + b) == RootsBag(a) + RootsBag(b)
  {
    if a == [] {
      assert a + b == b;
    } else {
      assert (a + b)[1..] == a[1..] + b;
      RootsBagConcat(a[1..], b);
    }
  }

  lemma RootsBagAt(s: seq<Root>, v: nat, r: Root)
    requires v < |s|
    ensures RootsBag(s[v := r]) == OtherRoots(s, v) + RootBag(r)
  {
    assert s[v := r] == s[..v] + ([r] + s[v + 1..]);
    RootsBagConcat(s[..v], [r] + s[v + 1..]);
    RootsBagConcat([r], s[v + 1..]);
    assert [r][1..] == [];
  }

  lemma RootsBagThere(s: seq<Root>, v: nat)
    requires v < |s|
    ensures RootsBag(s) == OtherRoots(s, v) + RootBag(s[v])
  {
    assert s[v := s[v]] == s;
    RootsBagAt(s, v, s[v]);
  }

  lemma {:induction false} NoRoots(s: seq<Root>)
    requires forall v :: 0 <= v < |s| ==> s[v] == NoTrie
    ensures RootsBag(s) == multiset{}
  {
    if s != [] { NoRoots(s[1..]); }
  }

  ghost predicate RootsOk(roots: seq<Root>, levels: seq<nat>)
  {
    && |levels| == |roots|
    && forall v {:trigger roots[v]} :: 0 <= v < |roots| && roots[v].Trie? ==> Shaped(roots[v].entry, 0, levels[v])
  }

  /** What the bridge table says about the hardware address of a request. */
  datatype Mac = NoMac | Known(index: int) | Unknown

  datatype Reply = Done | NoEntry | Invalid

  const NO_LABEL := 0xFFFFF
  const NO_INDEX := -1

  function BridgeIndex(mac: Mac): int
  {
    if mac.Known? then mac.index else NO_INDEX
  }

  /** The lowest flag says that the label counts; then it is cut to 20 bits. */
  function Label(flags: int, tag: int): int
  {
    if flags % 2 == 0 then NO_LABEL else tag % 0x100000
  }

  /** The result a request asks for. */
  function Wanted(n: nat, flags: int, tag: int, mac: Mac): Result
  {
    Result(n, flags, Label(flags, tag), BridgeIndex(mac))
  }

  /** A trie that is not there yet starts as one leaf that discards. */
  function RootEntry(r: Root, slots: map<N.Id, N.Nh>): Entry
    requires N.DISCARD in slots
  {
    if r.Trie? then r.entry else Leaf(0, Result(slots[N.DISCARD], 0, NO_LABEL, NO_INDEX))
  }

  /** Without a label a route may not lead to a tunnel. */
  function NoTunnel(flags: int, tunnels: set<nat>): set<nat>
  {
    if flags % 2 == 0 then tunnels else {}
  }

  /** What a request to add or to delete answers. */
  function Replies(slots: map<N.Id, N.Nh>, id: nat, barred: set<nat>, mac: Mac): Reply
  {
    if id !in slots then NoEntry
    else if slots[id] in barred then Invalid
    else if mac.Unknown? then NoEntry
    else Done
  }

  /** The reference a request takes and never drops, if there is one. */
  ghost function Lost(slots: map<N.Id, N.Nh>, id: nat, barred: set<nat>, mac: Mac): multiset<nat>
  {
    if id in slots && slots[id] !in barred && mac.Unknown? then multiset{slots[id]} else multiset{}
  }

  /**
   * After a request has added its route, an address under the prefix that no longer route covers is answered with
   * what was asked for: the nexthop, the flags, the label if the flags say it counts and the value of no label if
   * not, and the index of the hardware address if there is one.
   */
  lemma RequestAnswered(o: N.Order, slots: map<N.Id, N.Nh>, e: Entry, p: seq<byte>, plen: nat, id: nat, flags: int,
                        tag: int, mac: Mac, a: seq<byte>)
    requires N.SlotsOk(o, slots) && N.DISCARD in slots && id in slots && !mac.Unknown?
    requires 0 < |p| == |a| && plen <= 8 * |p| && WellFormed(e, 0, |p|) && e.plen <= plen
    requires Aligned(p, plen) && Matches(p, plen, a) && Lookup(e, a, 0).plen <= plen
    ensures var r := AddIn(o, slots, e, p, 0, plen, Wanted(slots[id], flags, tag, mac));
            && Shaped(r, 0, |a|)
            && var res := Lookup(r, a, 0).res;
               && Lookup(r, a, 0).plen == plen && res.nh == slots[id] && res.labelFlags == flags
               && res.tag == (if flags % 2 == 1 then tag % 0x100000 else 0xFFFFF)
               && res.bridgeIndex == if mac.Known? then mac.index else -1
  {
    ReachedWhenAligned(p, plen, a);
    AddInLookup(o, slots, e, p, 0, plen, Wanted(slots[id], flags, tag, mac), a);
  }

  class Router {
    const t: N.Table
    const levels: seq<nat>        // how many bytes the addresses of each trie have
    var roots: seq<Root>
    var limbo: seq<Entry>         // entries no trie leads to any more, to be freed after a grace period
    ghost var leaked: multiset<nat>   // references that nobody will drop

    ghost predicate Counts(owed: multiset<nat>)
      reads this, t
    {
      N.Counted(t.o, t.s, t.leaves, leaked + owed) && N.DISCARD in t.s.slots
    }

    /** The references that leaves hold are those of the leaves in tries and in buckets that wait. */
    ghost predicate Valid()
      reads this, t
    {
      Counts(multiset{}) && t.leaves == RootsBag(roots) + SeqBag(limbo) && RootsOk(roots, levels)
    }

    constructor (t: N.Table, levels: seq<nat>)
      requires N.Counted(t.o, t.s, t.leaves, multiset{}) && N.DISCARD in t.s.slots && t.leaves == multiset{}
      ensures Valid() && this.t == t && this.levels == levels && limbo == [] && leaked == multiset{}
      ensures roots == seq(|levels|, _ => NoTrie)
    {
      this.t, this.levels := t, levels;
      roots, limbo, leaked := seq(|levels|, _ => NoTrie), [], multiset{};
      new;
      NoRoots(roots);
      assert leaked + multiset{} == leaked;
    }

    // ----- pushing a route down

    method Push(e: Entry, plen: nat, res: Result, ghost rest: multiset<nat>, ghost owed: multiset<nat>)
      returns (r: Entry)
      requires Counts(owed) && N.InPlace(t.o, t.s.slots, res.nh) && t.leaves == rest + LeafBag(e)
      modifies t`s, t`leaves
      ensures Counts(owed) && t.s.slots == old(t.s.slots) && t.leaves == rest + LeafBag(r)
      ensures r == AddToTree(e, plen, res)
      decreases e
    {
      if e.plen > plen {
        return e;
      }
      match e
      case Leaf(_, was) => r := PushLeaf(was, plen, res, rest, owed);
      case Bucket(_, kids) =>
        var pushed := PushAll(kids, plen, res, rest, owed);
        PushedIs(e, pushed, plen, res);
        r := Bucket(plen, pushed);
    }

    /** A leaf gets another length and result. */
    method PushLeaf(was: Result, plen: nat, res: Result, ghost rest: multiset<nat>, ghost owed: multiset<nat>)
      returns (r: Entry)
      requires Counts(owed) && N.InPlace(t.o, t.s.slots, res.nh) && t.leaves == rest + multiset{was.nh}
      modifies t`s, t`leaves
      ensures Counts(owed) && t.s.slots == old(t.s.slots) && t.leaves == rest + LeafBag(r)
      ensures r == Leaf(plen, res)
    {
      var stored := t.SetLeaf(was.nh, res.nh, leaked + owed);
      assert rest + multiset{was.nh} - multiset{was.nh} == rest;
      r := Leaf(plen, res);
    }

    method PushAll(kids: seq<Entry>, plen: nat, res: Result, ghost rest: multiset<nat>, ghost owed: multiset<nat>)
      returns (r: seq<Entry>)
      requires Counts(owed) && N.InPlace(t.o, t.s.slots, res.nh) && t.leaves == rest + SeqBag(kids)
      modifies t`s, t`leaves
      ensures Counts(owed) && t.s.slots == old(t.s.slots) && t.leaves == rest + SeqBag(r)
      ensures AllPushed(kids, r, plen, res)
      decreases kids, 1
    {
      r := [];
      ghost var all := seq(|kids|, i requires 0 <= i < |kids| => AddToTree(kids[i], plen, res));
      Ends(rest, kids, all);
      for i := 0 to |kids|
        invariant Counts(owed) && t.s.slots == old(t.s.slots)
        invariant t.leaves == Parts(rest, r, kids[i..])
        invariant r == all[..i]
      {
        OneMore(all, i);
        r := PushNext(kids, i, r, true, plen, res, rest, owed);
      }
    }

    method PushNext(kids: seq<Entry>, i: nat, done: seq<Entry>, there: bool, plen: nat, res: Result,
                    ghost rest: multiset<nat>, ghost owed: multiset<nat>) returns (r: seq<Entry>)
      requires i < |kids| && Counts(owed) && N.InPlace(t.o, t.s.slots, res.nh)
      requires t.leaves == Parts(rest, done, kids[i..])
      modifies t`s, t`leaves
      ensures Counts(owed) && t.s.slots == old(t.s.slots) && t.leaves == Parts(rest, r, kids[i + 1..])
      ensures r == done + [if there then AddToTree(kids[i], plen, res) else kids[i]]
      decreases kids, 0
    {
      ghost var others := Turn(kids, i, done, rest);
      var x := kids[i];
      if there {
        x := Push(kids[i], plen, res, others, owed);
      }
      r := done + [x];
    }

    method PushRun(kids: seq<Entry>, idx: byte, fin: nat, plen: nat, res: Result, ghost rest: multiset<nat>,
                   ghost owed: multiset<nat>) returns (r: seq<Entry>)
      requires Counts(owed) && N.InPlace(t.o, t.s.slots, res.nh) && t.leaves == rest + SeqBag(kids) && |kids| == 256
      modifies t`s, t`leaves
      ensures Counts(owed) && t.s.slots == old(t.s.slots) && t.leaves == rest + SeqBag(r)
      ensures r == Pushed(kids, idx, fin, plen, res)
    {
      r := [];
      ghost var all := Pushed(kids, idx, fin, plen, res);
      Ends(rest, kids, all);
      for i := 0 to 256
        invariant Counts(owed) && t.s.slots == old(t.s.slots)
        invariant t.leaves == Parts(rest, r, kids[i..])
        invariant r == all[..i]
      {
        OneMore(all, i);
        r := PushNext(kids, i, r, InRun(i, idx, fin), plen, res, rest, owed);
      }
    }

    // ----- adding

    method SplitEntry(e: Entry, ghost rest: multiset<nat>, ghost owed: multiset<nat>) returns (kids: seq<Entry>)
      requires Counts(owed) && t.leaves == rest + LeafBag(e)
      modifies t`s, t`leaves
      ensures Counts(owed) && t.s.slots == old(t.s.slots) && t.leaves == rest + SeqBag(kids)
      ensures kids == Split(t.o, t.s.slots, e)
    {
      match e
      case Leaf(plen, res) =>
        var stored := t.SplitLeaf(res.nh, 256, leaked + owed);
        kids := seq(256, _ => Leaf(plen, res.(nh := stored)));
        SplitBag(kids, plen, res, stored, rest);
      case Bucket(_, below) => kids := below;
    }

    method Add(e: Entry, p: seq<byte>, l: nat, plen: nat, res: Result, ghost rest: multiset<nat>,
               ghost owed: multiset<nat>) returns (r: Entry)
      requires Counts(owed) && N.InPlace(t.o, t.s.slots, res.nh) && t.leaves == rest + LeafBag(e)
      requires l < |p| && plen <= 8 * |p| && Shaped(e, l, |p|)
      modifies t`s, t`leaves
      ensures Counts(owed) && t.s.slots == old(t.s.slots) && t.leaves == rest + LeafBag(r)
      ensures r == AddIn(t.o, t.s.slots, e, p, l, plen, res)
      decreases |p| - l
    {
      var kids := SplitEntry(e, rest, owed);
      if plen > 8 * (l + 1) {
        ghost var others := Branch(kids, p[l], rest);
        var kid := Add(kids[p[l]], p, l + 1, plen, res, others, owed);
        r := Bucket(e.plen, kids[p[l] := kid]);
      } else {
        var pushed := PushRun(kids, p[l], RunLength(l, plen), plen, res, rest, owed);
        r := Bucket(e.plen, pushed);
      }
    }

    // ----- freeing

    method FreeEntry(e: Entry, ghost rest: multiset<nat>, ghost owed: multiset<nat>)
      requires Counts(owed) && t.leaves == rest + LeafBag(e)
      modifies t`s, t`leaves
      ensures Counts(owed) && t.s.slots == old(t.s.slots) && t.leaves == rest
      decreases e
    {
      match e
      case Leaf(_, res) =>
        t.DropLeaf(res.nh, leaked + owed);
        assert rest + multiset{res.nh} - multiset{res.nh} == rest;
      case Bucket(_, kids) => FreeAll(kids, rest, owed);
    }

    method FreeAll(kids: seq<Entry>, ghost rest: multiset<nat>, ghost owed: multiset<nat>)
      requires Counts(owed) && t.leaves == rest + SeqBag(kids)
      modifies t`s, t`leaves
      ensures Counts(owed) && t.s.slots == old(t.s.slots) && t.leaves == rest
      decreases kids
    {
      for i := 0 to |kids|
        invariant Counts(owed) && t.s.slots == old(t.s.slots) && t.leaves == rest + SeqBag(kids[i..])
      {
        NextKid(kids, i, rest);
        FreeEntry(kids[i], rest + SeqBag(kids[i + 1..]), owed);
      }
      assert kids[|kids|..] == [];
    }

    // ----- deleting

    /** A bucket left uniform gives way to a leaf; it is freed later, or at once if that cannot be deferred. */
    method Retire(plen: nat, kids: seq<Entry>, d: DeleteReq, ghost rest: multiset<nat>, ghost owed: multiset<nat>)
      returns (r: Entry)
      requires Counts(owed) && N.InPlace(t.o, t.s.slots, d.newRes.nh) && |kids| == 256
      requires t.leaves == rest + SeqBag(kids) + SeqBag(limbo)
      modifies t`s, t`leaves, this`limbo
      ensures Counts(owed) && t.s.slots == old(t.s.slots) && t.leaves == rest + LeafBag(r) + SeqBag(limbo)
      ensures r == Collapse(plen, kids, d)
    {
      if !Uniform(kids) {
        return Bucket(plen, kids);
      }
      var stored := t.NewLeaf(d.newRes.nh, leaked + owed);
      r := Leaf(plen, d.newRes);
      Retired(rest, plen, kids, limbo, r);
      if * {
        limbo := limbo + [Bucket(plen, kids)];
      } else {
        FreeAll(kids, rest + LeafBag(r) + SeqBag(limbo), owed);
      }
    }

    method Delete(e: Entry, d: DeleteReq, l: nat, ghost rest: multiset<nat>, ghost owed: multiset<nat>)
      returns (r: Entry)
      requires l <= |d.p| && ValidDelete(d) && Shaped(e, l, |d.p|)
      requires Counts(owed) && N.InPlace(t.o, t.s.slots, d.newRes.nh)
      requires t.leaves == rest + LeafBag(e) + SeqBag(limbo)
      modifies t`s, t`leaves, this`limbo
      ensures Counts(owed) && t.s.slots == old(t.s.slots) && t.leaves == rest + LeafBag(r) + SeqBag(limbo)
      ensures r == DeleteAt(e, d, l)
      decreases e, 3
    {
      match e
      case Leaf(_, _) => return e;
      case Bucket(plen, kids) =>
        var left := DeleteBelow(e, d, l, rest, owed);
        r := Retire(plen, left, d, rest, owed);
    }

    method DeleteBelow(e: Entry, d: DeleteReq, l: nat, ghost rest: multiset<nat>, ghost owed: multiset<nat>)
      returns (r: seq<Entry>)
      requires l < |d.p| && ValidDelete(d) && Shaped(e, l, |d.p|) && e.Bucket?
      requires Counts(owed) && N.InPlace(t.o, t.s.slots, d.newRes.nh)
      requires t.leaves == rest + SeqBag(e.kids) + SeqBag(limbo)
      modifies t`s, t`leaves, this`limbo
      ensures Counts(owed) && t.s.slots == old(t.s.slots) && t.leaves == rest + SeqBag(r) + SeqBag(limbo)
      ensures r == DeleteKids(e, d, l)
      decreases e, 2
    {
      if d.plen > 8 * (l + 1) {
        var i := d.p[l];
        assert Shaped(e.kids[i], l + 1, |d.p|);
        ghost var others := Branch(e.kids, i, rest);
        var kid := Delete(e.kids[i], d, l + 1, others, owed);
        r := e.kids[i := kid];
      } else {
        r := DeleteRun(e, d, l, rest, owed);
      }
    }

    method DeleteRun(e: Entry, d: DeleteReq, l: nat, ghost rest: multiset<nat>, ghost owed: multiset<nat>)
      returns (r: seq<Entry>)
      requires l < |d.p| && ValidDelete(d) && Shaped(e, l, |d.p|) && e.Bucket? && d.plen <= 8 * (l + 1)
      requires Counts(owed) && N.InPlace(t.o, t.s.slots, d.newRes.nh)
      requires t.leaves == rest + SeqBag(e.kids) + SeqBag(limbo)
      modifies t`s, t`leaves, this`limbo
      ensures Counts(owed) && t.s.slots == old(t.s.slots) && t.leaves == rest + SeqBag(r) + SeqBag(limbo)
      ensures r == DeleteKids(e, d, l)
      decreases e, 1
    {
      r := [];
      ghost var all := DeleteKids(e, d, l);
      Ends(rest, e.kids, all);
      for i := 0 to 256
        invariant Counts(owed) && t.s.slots == old(t.s.slots)
        invariant t.leaves == Parts(rest, r, e.kids[i..]) + SeqBag(limbo)
        invariant r == all[..i]
      {
        OneMore(all, i);
        r := DeleteNext(e, d, l, i, r, rest, owed);
      }
    }

    method DeleteNext(e: Entry, d: DeleteReq, l: nat, i: nat, done: seq<Entry>, ghost rest: multiset<nat>,
                      ghost owed: multiset<nat>) returns (r: seq<Entry>)
      requires l < |d.p| && ValidDelete(d) && Shaped(e, l, |d.p|) && e.Bucket? && d.plen <= 8 * (l + 1) && i < 256
      requires Counts(owed) && N.InPlace(t.o, t.s.slots, d.newRes.nh)
      requires t.leaves == Parts(rest, done, e.kids[i..]) + SeqBag(limbo)
      modifies t`s, t`leaves, this`limbo
      ensures Counts(owed) && t.s.slots == old(t.s.slots)
      ensures t.leaves == Parts(rest, r, e.kids[i + 1..]) + SeqBag(limbo)
      ensures r == done + [DeleteKids(e, d, l)[i]]
      decreases e, 0
    {
      ghost var others := Turn(e.kids, i, done, rest);
      var x := e.kids[i];
      if InDeleteRun(d, l, i) {
        assert Shaped(e.kids[i], l + 1, |d.p|);
        x := DeleteOne(e.kids[i], d, l + 1, others, owed);
      }
      r := done + [x];
    }

    method DeleteOne(e: Entry, d: DeleteReq, l: nat, ghost rest: multiset<nat>, ghost owed: multiset<nat>)
      returns (r: Entry)
      requires l <= |d.p| && ValidDelete(d) && Shaped(e, l, |d.p|)
      requires Counts(owed) && N.InPlace(t.o, t.s.slots, d.newRes.nh)
      requires t.leaves == rest + LeafBag(e) + SeqBag(limbo)
      modifies t`s, t`leaves, this`limbo
      ensures Counts(owed) && t.s.slots == old(t.s.slots) && t.leaves == rest + LeafBag(r) + SeqBag(limbo)
      ensures r == DeleteEntry(e, d, l)
      decreases e, 3
    {
      if e.plen != d.plen {
        return e;
      }
      match e
      case Leaf(_, was) =>
        assert rest + multiset{was.nh} + SeqBag(limbo) == rest + SeqBag(limbo) + multiset{was.nh};
        r := PushLeaf(was, d.newLen, d.newRes, rest + SeqBag(limbo), owed);
      case Bucket(plen, kids) =>
        var left := DeleteBelow(e, d, l, rest, owed);
        r := Retire(d.newLen, left, d, rest, owed);
    }

    // ----- requests

    /** Drops the reference of a request. */
    method Finish(n: nat)
      requires Counts(multiset{n})
      modifies t`s
      ensures Counts(multiset{}) && t.s.slots == old(t.s.slots)
    {
      t.Put(n, leaked + multiset{n});
      assert leaked + multiset{n} - multiset{n} == leaked + multiset{};
    }

    /** The reference of a request. */
    method Start(id: nat) returns (n: nat, found: bool)
      requires Counts(multiset{})
      modifies t`s
      ensures found <==> id in t.s.slots
      ensures t.s.slots == old(t.s.slots)
      ensures if found then n == t.s.slots[id] && Counts(multiset{n}) && N.InPlace(t.o, t.s.slots, n)
              else Counts(multiset{})
    {
      assert leaked + multiset{} == leaked;
      n, found := t.Get(id, leaked);
    }

    /** A trie is put in place. */
    method SetRoot(v: nat, e: Entry)
      requires Counts(multiset{}) && RootsOk(roots, levels) && v < |roots| && Shaped(e, 0, levels[v])
      requires t.leaves == OtherRoots(roots, v) + LeafBag(e) + SeqBag(limbo)
      modifies this`roots
      ensures Valid() && roots == old(roots)[v := Trie(e)]
    {
      RootsBagAt(roots, v, Trie(e));
      roots := roots[v := Trie(e)];
    }

    /** A trie that is not there is made, as one leaf that discards. */
    method Make(v: nat)
      requires Valid() && v < |roots|
      modifies this`roots, t`s, t`leaves
      ensures Valid() && t.s.slots == old(t.s.slots)
      ensures roots == old(roots)[v := Trie(RootEntry(old(roots[v]), t.s.slots))]
    {
      if roots[v].NoTrie? {
        var stored := t.NewLeaf(t.s.slots[N.DISCARD], leaked + multiset{});
        var e := Leaf(0, Result(stored, 0, NO_LABEL, NO_INDEX));
        Made(roots, limbo, v, e);
        SetRoot(v, e);
      }
    }

    /** Adds a route to a trie that is there, with the reference of the request, and drops that. */
    method AddTo(v: nat, p: seq<byte>, plen: nat, res: Result)
      requires RootsOk(roots, levels) && v < |roots| && roots[v].Trie? && 0 < |p| == levels[v] && plen <= 8 * |p|
      requires Counts(multiset{res.nh}) && N.InPlace(t.o, t.s.slots, res.nh)
      requires t.leaves == RootsBag(roots) + SeqBag(limbo)
      modifies this`roots, t`s, t`leaves
      ensures Valid() && t.s.slots == old(t.s.slots)
      ensures roots == old(roots)[v := Trie(AddIn(t.o, t.s.slots, old(roots[v].entry), p, 0, plen, res))]
    {
      var e := roots[v].entry;
      ghost var rest := OtherRoots(roots, v);
      RootsBagThere(roots, v);
      Swap(rest, LeafBag(e), SeqBag(limbo));
      var r := Add(e, p, 0, plen, res, rest + SeqBag(limbo), multiset{res.nh});
      Swap(rest, LeafBag(r), SeqBag(limbo));
      AddInShaped(t.o, t.s.slots, e, p, 0, plen, res);
      Finish(res.nh);
      SetRoot(v, r);
    }

    /** Deletes a route from a trie, with the reference of the request, and drops that. */
    method DeleteFrom(v: nat, d: DeleteReq)
      requires RootsOk(roots, levels) && v < |roots| && roots[v].Trie? && |d.p| == levels[v] && ValidDelete(d)
      requires Counts(multiset{d.newRes.nh}) && N.InPlace(t.o, t.s.slots, d.newRes.nh)
      requires t.leaves == RootsBag(roots) + SeqBag(limbo)
      modifies this`roots, this`limbo, t`s, t`leaves
      ensures Valid() && t.s.slots == old(t.s.slots)
      ensures roots == old(roots)[v := Trie(DeleteAt(old(roots[v].entry), d, 0))]
    {
      var e := roots[v].entry;
      RootsBagThere(roots, v);
      var r := Delete(e, d, 0, OtherRoots(roots, v), multiset{d.newRes.nh});
      DeleteShaped(e, d, 0);
      Finish(d.newRes.nh);
      SetRoot(v, r);
    }

    /** A request is checked; if it is refused for its hardware address, its reference is lost. */
    method Check(id: nat, barred: set<nat>, mac: Mac) returns (reply: Reply, n: nat)
      requires Counts(multiset{})
      modifies this`leaked, t`s
      ensures t.s.slots == old(t.s.slots) && reply == Replies(t.s.slots, id, barred, mac)
      ensures leaked == old(leaked) + Lost(t.s.slots, id, barred, mac)
      ensures if reply == Done then n == t.s.slots[id] && Counts(multiset{n}) && N.InPlace(t.o, t.s.slots, n)
              else Counts(multiset{})
    {
      var found;
      n, found := Start(id);
      if !found {
        return NoEntry, 0;
      }
      if n in barred {
        Finish(n);
        return Invalid, 0;
      }
      if mac.Unknown? {
        assert leaked + multiset{n} == leaked + multiset{n} + multiset{};
        leaked := leaked + multiset{n};
        return NoEntry, 0;
      }
      return Done, n;
    }

    /** Adds a route; without a label it may not lead to a tunnel. The trie is made first if it is not there. */
    method AddRoute(v: nat, p: seq<byte>, plen: nat, id: nat, flags: int, tag: int, tunnels: set<nat>, mac: Mac)
      returns (reply: Reply)
      requires Valid() && v < |roots| && 0 < |p| == levels[v] && plen <= 8 * |p|
      modifies this`roots, this`leaked, t`s, t`leaves
      ensures Valid() && t.s.slots == old(t.s.slots)
      ensures reply == Replies(t.s.slots, id, NoTunnel(flags, tunnels), mac)
      ensures leaked == old(leaked) + Lost(t.s.slots, id, NoTunnel(flags, tunnels), mac)
      ensures Shaped(RootEntry(old(roots[v]), t.s.slots), 0, |p|)
      ensures roots == old(roots)[v := Trie(
        if reply != Done then RootEntry(old(roots[v]), t.s.slots)
        else AddIn(t.o, t.s.slots, RootEntry(old(roots[v]), t.s.slots), p, 0, plen,
                   Wanted(t.s.slots[id], flags, tag, mac)))]
    {
      Make(v);
      ghost var e := roots[v].entry;
      var n;
      reply, n := Check(id, NoTunnel(flags, tunnels), mac);
      if reply == Done {
        AddTo(v, p, plen, Wanted(n, flags, tag, mac));
        Twice(old(roots), v, Trie(e), roots[v]);
      }
    }

    /** Deletes a route; the request names the route that takes over. */
    method DeleteRoute(v: nat, p: seq<byte>, plen: nat, newLen: nat, id: nat, flags: int, tag: int, mac: Mac)
      returns (reply: Reply)
      requires Valid() && v < |roots| && |p| == levels[v] && plen <= 8 * |p|
      modifies this`roots, this`limbo, this`leaked, t`s, t`leaves
      ensures Valid() && t.s.slots == old(t.s.slots)
      ensures reply == if old(roots[v]).NoTrie? then NoEntry else Replies(t.s.slots, id, {}, mac)
      ensures leaked == if old(roots[v]).NoTrie? then old(leaked)
                        else old(leaked) + Lost(t.s.slots, id, {}, mac)
      ensures roots == if reply != Done then old(roots) else
        old(roots)[v := Trie(DeleteAt(old(roots[v].entry),
                             DeleteReq(p, plen, newLen, Wanted(t.s.slots[id], flags, tag, mac)), 0))]
    {
      if roots[v].NoTrie? {
        return NoEntry;
      }
      var n;
      reply, n := Check(id, {}, mac);
      if reply == Done {
        DeleteFrom(v, DeleteReq(p, plen, newLen, Wanted(n, flags, tag, mac)));
      }
    }

    /** A new nexthop is put into its place of the table, if that is free. */
    method Install(n: nat) returns (ok: bool)
      requires Valid() && n !in t.s.users
      modifies t`s
      ensures Valid() && ok == (t.o.idOf(n) !in old(t.s.slots))
      ensures t.s.slots == if ok then old(t.s.slots)[t.o.idOf(n) := n] else old(t.s.slots)
    {
      ok := t.Install(n, leaked + multiset{});
    }

    /** A nexthop is taken out of the table; it lives on while anything names it. */
    method Uninstall(n: nat)
      requires Valid() && N.InPlace(t.o, t.s.slots, n) && t.o.idOf(n) != N.DISCARD
      modifies t`s
      ensures Valid() && t.s.slots == old(t.s.slots) - {t.o.idOf(n)}
      ensures n in t.s.users <==> n in RootsBag(roots) + SeqBag(limbo) + old(N.Bag(t.s.comps)) + leaked
    {
      t.Uninstall(n, leaked + multiset{});
    }

    /** A composite gets new components. */
    method SetComponents(n: nat, ids: seq<nat>, ghost rank: nat -> nat)
      requires Valid() && n in t.s.users
      requires N.Ordered(N.Order(t.o.idOf, rank), t.s.comps[n := N.Found(t.s.slots, ids)])
      modifies t`s, t`o
      ensures Valid() && t.s.slots == old(t.s.slots)
      ensures n in t.s.users && t.s.comps[n] == N.Found(t.s.slots, ids)
    {
      t.SetComponents(n, ids, rank, leaked + multiset{});
    }

    /**
     * A nexthop's count is the number of its references, from its place in the table, from components, from the
     * leaves of tries and of buckets that wait, and lost ones; it exists exactly as long as there are any.
     */
    lemma CountIs(n: nat)
      requires Valid()
      ensures var refs := One(N.InPlace(t.o, t.s.slots, n)) + N.Bag(t.s.comps)[n] + RootsBag(roots)[n]
                          + SeqBag(limbo)[n] + leaked[n];
        if n in t.s.users then t.s.users[n] == refs > 0 else refs == 0
    {
      assert leaked + multiset{} == leaked;
      assert t.leaves[n] == RootsBag(roots)[n] + SeqBag(limbo)[n];
      assert N.Refs(t.o, t.s.slots, N.Bag(t.s.comps), t.leaves, leaked + multiset{}, n) >= 0;
    }

    /** A bucket that waited is freed. */
    method Collect(k: nat)
      requires Valid() && k < |limbo|
      modifies this`limbo, t`s, t`leaves
      ensures Valid() && t.s.slots == old(t.s.slots) && limbo == old(limbo[..k] + limbo[k + 1..])
    {
      var e, rest := limbo[k], limbo[..k] + limbo[k + 1..];
      SeqBagThere(limbo, k);
      SeqBagConcat(limbo[..k], limbo[k + 1..]);
      assert RootsBag(roots) + (SeqBag(rest) + LeafBag(e)) == RootsBag(roots) + SeqBag(rest) + LeafBag(e);
      FreeEntry(e, RootsBag(roots) + SeqBag(rest), multiset{});
      limbo := rest;
    }

    /** A table of routes goes, with its whole trie. */
    method FreeTrie(v: nat)
      requires Valid() && v < |roots|
      modifies this`roots, t`s, t`leaves
      ensures Valid() && t.s.slots == old(t.s.slots) && roots == old(roots)[v := NoTrie]
    {
      if roots[v].Trie? {
        Removed(roots, levels, limbo, v);
        FreeEntry(roots[v].entry, RootsBag(roots[v := NoTrie]) + SeqBag(limbo), multiset{});
        roots := roots[v := NoTrie];
      }
    }
  }

  lemma Made(roots: seq<Root>, limbo: seq<Entry>, v: nat, e: Entry)
    requires v < |roots| && roots[v].NoTrie?
    ensures RootsBag(roots) + SeqBag(limbo) + LeafBag(e) == OtherRoots(roots, v) + LeafBag(e) + SeqBag(limbo)
  {
    RootsBagThere(roots, v);
  }

  lemma Twice(roots: seq<Root>, v: nat, a: Root, b: Root)
    requires v < |roots|
    ensures roots[v := a][v := b] == roots[v := b]
  {
  }

  lemma Removed(roots: seq<Root>, levels: seq<nat>, limbo: seq<Entry>, v: nat)
    requires v < |roots| && RootsOk(roots, levels)
    ensures RootsOk(roots[v := NoTrie], levels)
    ensures RootsBag(roots) + SeqBag(limbo) == RootsBag(roots[v := NoTrie]) + SeqBag(limbo) + RootBag(roots[v])
  {
    var others := RootsBranch(roots, v);
    assert RootsBag(roots[v := NoTrie]) == others;
    Swap(others, RootBag(roots[v]), SeqBag(limbo));
  }

  lemma RootsBranch(roots: seq<Root>, v: nat) returns (others: multiset<nat>)
    requires v < |roots|
    ensures RootsBag(roots) == others + RootBag(roots[v]) && RootsBag(roots[v := NoTrie]) == others
  {
    others := OtherRoots(roots, v);
    RootsBagThere(roots, v);
    RootsBagAt(roots, v, NoTrie);
  }

  lemma Swap(a: multiset<nat>, b: multiset<nat>, c: multiset<nat>)
    ensures a + b + c == a + c + b
  {
  }

  lemma PushedIs(e: Entry, pushed: seq<Entry>, plen: nat, res: Result)
    requires e.Bucket? && e.plen <= plen && AllPushed(e.kids, pushed, plen, res)
    ensures Bucket(plen, pushed) == AddToTree(e, plen, res)
  {
    assert pushed == AddToTree(e, plen, res).kids;
  }

  lemma SplitBag(kids: seq<Entry>, plen: nat, res: Result, stored: nat, rest: multiset<nat>)
    requires forall i :: 0 <= i < |kids| ==> kids[i] == Leaf(plen, res.(nh := stored))
    ensures rest + multiset{res.nh} + N.Copies(stored, |kids|) - multiset{res.nh} == rest + SeqBag(kids)
  {
    SeqBagCopies(kids, plen, res.(nh := stored));
  }

  lemma Retired(rest: multiset<nat>, plen: nat, kids: seq<Entry>, limbo: seq<Entry>, r: Entry)
    ensures rest + SeqBag(kids) + SeqBag(limbo) + LeafBag(r) == rest + LeafBag(r) + SeqBag(limbo) + SeqBag(kids)
    ensures rest + LeafBag(r) + SeqBag(limbo) + SeqBag(kids) == rest + LeafBag(r) + SeqBag(limbo + [Bucket(plen, kids)])
  {
    SeqBagConcat(limbo, [Bucket(plen, kids)]);
    SeqBagOne(Bucket(plen, kids));
  }

  lemma NextKid(kids: seq<Entry>, i: nat, rest: multiset<nat>)
    requires i < |kids|
    ensures rest + SeqBag(kids[i..]) == rest + SeqBag(kids[i + 1..]) + LeafBag(kids[i])
  {
    assert kids[i..][0] == kids[i] && kids[i..][1..] == kids[i + 1..];
  }

  /** What leaves hold when some entries of a bucket are dealt with and the others not yet. */
  ghost function Parts(rest: multiset<nat>, done: seq<Entry>, after: seq<Entry>): multiset<nat>
  {
    rest + SeqBag(done) + SeqBag(after)
  }

  /** Where such a loop starts and ends. */
  lemma Ends(rest: multiset<nat>, kids: seq<Entry>, all: seq<Entry>)
    requires |all| == |kids|
    ensures Parts(rest, [], kids[0..]) == rest + SeqBag(kids)
    ensures all[..|kids|] == all && Parts(rest, all, kids[|kids|..]) == rest + SeqBag(all)
  {
    assert kids[0..] == kids && kids[|kids|..] == [];
  }

  lemma OneMore(all: seq<Entry>, i: nat)
    requires i < |all|
    ensures all[..i + 1] == all[..i] + [all[i]]
  {
  }

  /** One entry of a bucket is replaced. */
  lemma Branch(kids: seq<Entry>, i: nat, rest: multiset<nat>) returns (others: multiset<nat>)
    requires i < |kids|
    ensures rest + SeqBag(kids) == others + LeafBag(kids[i])
    ensures forall x {:trigger kids[i := x]} :: rest + SeqBag(kids[i := x]) == others + LeafBag(x)
  {
    others := rest + Others(kids, i);
    SeqBagThere(kids, i);
    forall x ensures rest + SeqBag(kids[i := x]) == others + LeafBag(x) {
      SeqBagAt(kids, i, x);
    }
  }

  /** One turn of a loop that takes the entries of a bucket one after the other. */
  lemma Turn(kids: seq<Entry>, i: nat, r: seq<Entry>, rest: multiset<nat>) returns (others: multiset<nat>)
    requires i < |kids|
    ensures Parts(rest, r, kids[i..]) == others + LeafBag(kids[i])
    ensures forall x {:trigger r + [x]} :: others + LeafBag(x) == Parts(rest, r + [x], kids[i + 1..])
  {
    others := rest + SeqBag(r) + SeqBag(kids[i + 1..]);
    NextKid(kids, i, rest + SeqBag(r));
    forall x ensures others + LeafBag(x) == Parts(rest, r + [x], kids[i + 1..]) {
      SeqBagConcat(r, [x]);
      SeqBagOne(x);
    }
  }
}
