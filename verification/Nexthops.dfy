/**
 * Reference counts of nexthops: the nexthop table, the leaves of the tries and the components
 * of composite nexthops hold references; dropping the last one frees the nexthop and drops
 * the references its components hold.
 */
module Nexthops {
  import opened Numbers

  type Nh = nat       // one nexthop object
  type Id = nat       // its place in the nexthop table

  const DISCARD: Id := 0

  /** All references that components hold. */
  ghost function Bag(comps: map<Nh, seq<Nh>>): multiset<Nh>
    decreases |comps|
  {
    if comps == map[] then multiset{}
    else
      var c :| c in comps;
      multiset(comps[c]) + Bag(comps - {c})
  }

  lemma {:induction false} BagWithout(comps: map<Nh, seq<Nh>>, c: Nh)
    requires c in comps
    ensures Bag(comps) == multiset(comps[c]) + Bag(comps - {c})
    decreases |comps|
  {
    var d :| d in comps && Bag(comps) == multiset(comps[d]) + Bag(comps - {d});
    if d != c {
      assert |comps - {d}| < |comps| by { Smaller(comps, d); }
      assert |comps - {c}| < |comps| by { Smaller(comps, c); }
      BagWithout(comps - {d}, c);
      BagWithout(comps - {c}, d);
      assert comps - {d} - {c} == comps - {c} - {d};
    }
  }

  lemma Smaller(comps: map<Nh, seq<Nh>>, c: Nh)
    requires c in comps
    ensures |comps - {c}| < |comps|
  {
  }

  lemma BagUpdate(comps: map<Nh, seq<Nh>>, c: Nh, s: seq<Nh>)
    ensures Bag(comps[c := s]) == multiset(s) + Bag(comps - {c})
  {
    BagWithout(comps[c := s], c);
    assert comps[c := s] - {c} == comps - {c};
  }

  // ----- counts

  /** The place of a nexthop in the table, which is fixed, and an order in which composites come after components. */
  datatype Order = Order(idOf: Nh -> Id, ghost rank: Nh -> nat)

  /** The table of nexthops, their counts, and the components of each. */
  datatype State = State(users: map<Nh, nat>, comps: map<Nh, seq<Nh>>, slots: map<Id, Nh>)

  predicate Installed(o: Order, s: State, n: Nh)
  {
    InPlace(o, s.slots, n)
  }

  predicate InPlace(o: Order, slots: map<Id, Nh>, n: Nh)
  {
    o.idOf(n) in slots && slots[o.idOf(n)] == n
  }

  /** What a leaf that is to name `n` gets. */
  function Stored(o: Order, slots: map<Id, Nh>, n: Nh): Nh
    requires DISCARD in slots
  {
    if InPlace(o, slots, n) then n else slots[DISCARD]
  }

  /** The references to a nexthop: from the table, from components, from leaves, and those somebody is about to drop. */
  ghost function Refs(o: Order, slots: map<Id, Nh>, held: multiset<Nh>, leaves: multiset<Nh>, owed: multiset<Nh>,
                      n: Nh): nat
  {
    One(InPlace(o, slots, n)) + held[n] + leaves[n] + owed[n]
  }

  /** Nexthops exist exactly as long as there are references to them, and their counts are right. */
  ghost predicate RefsOk(o: Order, users: map<Nh, nat>, slots: map<Id, Nh>, held: multiset<Nh>, leaves: multiset<Nh>,
                         owed: multiset<Nh>)
  {
    forall n {:trigger Refs(o, slots, held, leaves, owed, n)} ::
      if n in users then users[n] == Refs(o, slots, held, leaves, owed, n) > 0
        else Refs(o, slots, held, leaves, owed, n) == 0
  }

  ghost predicate SlotsOk(o: Order, slots: map<Id, Nh>)
  {
    forall i {:trigger slots[i]} :: i in slots ==> o.idOf(slots[i]) == i
  }

  /** Composites come after their components. */
  ghost predicate Ordered(o: Order, comps: map<Nh, seq<Nh>>)
  {
    forall c {:trigger comps[c]} :: c in comps ==> Below(o, comps[c], o.rank(c))
  }

  ghost predicate Below(o: Order, cs: seq<Nh>, bound: nat)
  {
    forall k {:trigger cs[k]} :: 0 <= k < |cs| ==> o.rank(cs[k]) < bound
  }

  ghost predicate Counted(o: Order, s: State, leaves: multiset<Nh>, owed: multiset<Nh>)
  {
    && s.users.Keys == s.comps.Keys && SlotsOk(o, s.slots) && Ordered(o, s.comps)
    && RefsOk(o, s.users, s.slots, Bag(s.comps), leaves, owed)
  }

  /** Somebody drops a reference, and there are others. */
  lemma Dropped(o: Order, users: map<Nh, nat>, slots: map<Id, Nh>, held: multiset<Nh>, leaves: multiset<Nh>,
                owed: multiset<Nh>, n: Nh)
    requires RefsOk(o, users, slots, held, leaves, owed) && n in owed
    ensures n in users && users[n] > 0
    ensures users[n] > 1 ==> RefsOk(o, users[n := users[n] - 1], slots, held, leaves, owed - multiset{n})
  {
    assert Refs(o, slots, held, leaves, owed, n) > 0;
    if users[n] > 1 {
      forall x ensures var u, r := users[n := users[n] - 1], Refs(o, slots, held, leaves, owed - multiset{n}, x);
                       if x in u then u[x] == r > 0 else r == 0
      {
        assert Refs(o, slots, held, leaves, owed, x) ==
          Refs(o, slots, held, leaves, owed - multiset{n}, x) + One(x == n);
      }
    }
  }

  /** The last reference is dropped: the nexthop goes, and the references of its components are to be dropped. */
  lemma FreedRefs(o: Order, users: map<Nh, nat>, slots: map<Id, Nh>, held: multiset<Nh>, leaves: multiset<Nh>,
                  owed: multiset<Nh>,
                  n: Nh, cs: multiset<Nh>)
    requires RefsOk(o, users, slots, held + cs, leaves, owed) && n in owed && n in users && users[n] == 1
    ensures RefsOk(o, users - {n}, slots, held, leaves, owed - multiset{n} + cs)
  {
    var owed' := owed - multiset{n} + cs;
    assert Refs(o, slots, held + cs, leaves, owed, n) == 1;
    forall x ensures var u, r := users - {n}, Refs(o, slots, held, leaves, owed', x);
      if x in u then u[x] == r > 0 else r == 0
    {
      assert Refs(o, slots, held + cs, leaves, owed, x) == Refs(o, slots, held, leaves, owed', x) + One(x == n);
    }
  }

  lemma Freed(o: Order, s: State, leaves: multiset<Nh>, owed: multiset<Nh>, n: Nh)
    requires Counted(o, s, leaves, owed) && n in owed && n in s.users && s.users[n] == 1
    ensures n in s.comps && Below(o, s.comps[n], o.rank(n))
    ensures Counted(o, s.(users := s.users - {n}, comps := s.comps - {n}), leaves,
                    owed - multiset{n} + multiset(s.comps[n]))
  {
    BagWithout(s.comps, n);
    var held, cs := Bag(s.comps - {n}), multiset(s.comps[n]);
    assert held + cs == Bag(s.comps);
    FreedRefs(o, s.users, s.slots, held, leaves, owed, n, cs);
  }

  /** One reference more, in hand. */
  lemma Taken(o: Order, users: map<Nh, nat>, slots: map<Id, Nh>, held: multiset<Nh>, leaves: multiset<Nh>,
              owed: multiset<Nh>, r: Nh)
    requires RefsOk(o, users, slots, held, leaves, owed) && InPlace(o, slots, r)
    ensures r in users && RefsOk(o, users[r := users[r] + 1], slots, held, leaves, owed + multiset{r})
  {
    assert Refs(o, slots, held, leaves, owed, r) > 0;
    forall x ensures var u, y := users[r := users[r] + 1], Refs(o, slots, held, leaves, owed + multiset{r}, x);
                     if x in u then u[x] == y > 0 else y == 0
    {
      assert Refs(o, slots, held, leaves, owed + multiset{r}, x) == Refs(o, slots, held, leaves, owed, x) + One(x == r);
    }
  }

  /** References change hands: what is held, in leaves and in hand together stays the same. */
  lemma Moved(o: Order, users: map<Nh, nat>, slots: map<Id, Nh>, held: multiset<Nh>, leaves: multiset<Nh>,
              owed: multiset<Nh>,
              held': multiset<Nh>, leaves': multiset<Nh>, owed': multiset<Nh>)
    requires RefsOk(o, users, slots, held, leaves, owed) && held + leaves + owed == held' + leaves' + owed'
    ensures RefsOk(o, users, slots, held', leaves', owed')
  {
    forall x ensures var r := Refs(o, slots, held', leaves', owed', x); if x in users then users[x] == r > 0 else r == 0
    {
      assert (held + leaves + owed)[x] == (held' + leaves' + owed')[x];
      assert Refs(o, slots, held', leaves', owed', x) == Refs(o, slots, held, leaves, owed, x);
    }
  }

  /** Nothing has happened to nexthops of at least this rank. */
  ghost predicate SameFrom(o: Order, s: State, u: State, bound: nat)
  {
    && u.slots == s.slots
    && forall x {:trigger x in u.users} {:trigger x in u.comps} :: o.rank(x) >= bound ==>
         && (x in s.users <==> x in u.users) && (x in s.comps <==> x in u.comps)
         && (x in s.users ==> u.users[x] == s.users[x]) && (x in s.comps ==> u.comps[x] == s.comps[x])
  }

  /** Composites may have gone, but none has got other components. */
  ghost predicate Fewer(s: State, u: State)
  {
    forall x {:trigger u.comps[x]} :: x in u.comps ==> x in s.comps && u.comps[x] == s.comps[x]
  }

  class Table {
    var o: Order
    var s: State
    ghost var leaves: multiset<Nh>

    /** A table with the discard nexthop and nothing else. */
    constructor (idOf: Nh -> Id, discard: Nh)
      requires idOf(discard) == DISCARD
      ensures o.idOf == idOf && s.slots == map[DISCARD := discard] && leaves == multiset{}
      ensures Counted(o, s, leaves, multiset{})
    {
      o := Order(idOf, _ => 0);
      s := State(map[discard := 1], map[discard := []], map[DISCARD := discard]);
      leaves := multiset{};
      new;
      First(o, discard);
    }

    /** Drops a reference that is owed; the count of everything else stays right, down through all composites. */
    method Put(n: Nh, ghost owed: multiset<Nh>)
      requires Counted(o, s, leaves, owed) && n in owed
      modifies this`s
      ensures Counted(o, s, leaves, owed - multiset{n}) && SameFrom(o, old(s), s, o.rank(n) + 1) && Fewer(old(s), s)
      decreases o.rank(n), 1
    {
      Dropped(o, s.users, s.slots, Bag(s.comps), leaves, owed, n);
      if s.users[n] > 1 {
        s := s.(users := s.users[n := s.users[n] - 1]);
        return;
      }
      Freed(o, s, leaves, owed, n);
      var cs := s.comps[n];
      s := s.(users := s.users - {n}, comps := s.comps - {n});
      PutAll(cs, owed - multiset{n}, o.rank(n));
    }

    method PutAll(cs: seq<Nh>, ghost rest: multiset<Nh>, ghost bound: nat)
      requires Counted(o, s, leaves, rest + multiset(cs)) && Below(o, cs, bound)
      modifies this`s
      ensures Counted(o, s, leaves, rest) && SameFrom(o, old(s), s, bound) && Fewer(old(s), s)
      decreases bound, 0
    {
      var i := 0;
      assert cs[0..] == cs;
      while i < |cs|
        invariant i <= |cs| && Counted(o, s, leaves, rest + multiset(cs[i..]))
        invariant SameFrom(o, old(s), s, bound) && Fewer(old(s), s)
      {
        OneLess(cs, i, rest);
        Put(cs[i], rest + multiset(cs[i..]));
        i := i + 1;
      }
      assert rest + multiset(cs[|cs|..]) == rest;
    }

    /** A reference to the nexthop in a place of the table, if there is one. */
    method Get(i: Id, ghost owed: multiset<Nh>) returns (r: Nh, found: bool)
      requires Counted(o, s, leaves, owed)
      modifies this`s
      ensures found <==> i in s.slots
      ensures if found then r == s.slots[i] && Counted(o, s, leaves, owed + multiset{r}) else s == old(s)
      ensures s.slots == old(s.slots) && s.comps == old(s.comps)
    {
      r, found := 0, i in s.slots;
      if found {
        r := s.slots[i];
        Taken(o, s.users, s.slots, Bag(s.comps), leaves, owed, r);
        s := s.(users := s.users[r := s.users[r] + 1]);
      }
    }

    /** A reference to what a leaf that is to name `n` gets. */
    method GetStored(n: Nh, ghost owed: multiset<Nh>) returns (stored: Nh)
      requires Counted(o, s, leaves, owed) && DISCARD in s.slots
      modifies this`s
      ensures stored == Stored(o, old(s.slots), n)
      ensures Counted(o, s, leaves, owed + multiset{stored}) && s.slots == old(s.slots)
    {
      var t, found := Get(o.idOf(n), owed);
      if found && t == n {
        return t;
      }
      if found {
        Put(t, owed + multiset{t});
        assert owed + multiset{t} - multiset{t} == owed;
      }
      var ok;
      stored, ok := Get(DISCARD, owed);
    }

    /**
     * A leaf is made to name `n`: if `n` is not the nexthop in its place of the table any more,
     * the leaf gets the discard nexthop.
     */
    method NewLeaf(n: Nh, ghost owed: multiset<Nh>) returns (stored: Nh)
      requires Counted(o, s, leaves, owed) && DISCARD in s.slots
      modifies this`s, this`leaves
      ensures stored == Stored(o, old(s.slots), n)
      ensures leaves == old(leaves) + multiset{stored}
      ensures Counted(o, s, leaves, owed) && s.slots == old(s.slots)
    {
      stored := GetStored(n, owed);
      Moved(o, s.users, s.slots, Bag(s.comps), leaves, owed + multiset{stored},
            Bag(s.comps), leaves + multiset{stored}, owed);
      leaves := leaves + multiset{stored};
    }

    /** A leaf gives up its reference. */
    method DropLeaf(was: Nh, ghost owed: multiset<Nh>)
      requires Counted(o, s, leaves, owed) && was in leaves
      modifies this`s, this`leaves
      ensures leaves == old(leaves) - multiset{was} && Counted(o, s, leaves, owed) && s.slots == old(s.slots)
    {
      Moved(o, s.users, s.slots, Bag(s.comps), leaves, owed, Bag(s.comps), leaves - multiset{was},
            owed + multiset{was});
      leaves := leaves - multiset{was};
      Put(was, owed + multiset{was});
      assert owed + multiset{was} - multiset{was} == owed;
    }

    /** A leaf that names `was` is made to name another nexthop, then the old reference is dropped. */
    method SetLeaf(was: Nh, n: Nh, ghost owed: multiset<Nh>) returns (stored: Nh)
      requires Counted(o, s, leaves, owed) && was in leaves && DISCARD in s.slots
      modifies this`s, this`leaves
      ensures stored == Stored(o, old(s.slots), n)
      ensures leaves == old(leaves) - multiset{was} + multiset{stored}
      ensures Counted(o, s, leaves, owed) && s.slots == old(s.slots)
    {
      stored := NewLeaf(n, owed);
      DropLeaf(was, owed);
      assert old(leaves) + multiset{stored} - multiset{was} == old(leaves) - multiset{was} + multiset{stored};
    }

    /** A leaf is split into a bucket of `k` leaves like it, then its own reference is dropped. */
    method SplitLeaf(n: Nh, k: nat, ghost owed: multiset<Nh>) returns (stored: Nh)
      requires Counted(o, s, leaves, owed) && n in leaves && DISCARD in s.slots
      modifies this`s, this`leaves
      ensures stored == Stored(o, old(s.slots), n)
      ensures leaves == old(leaves) + Copies(stored, k) - multiset{n}
      ensures Counted(o, s, leaves, owed) && s.slots == old(s.slots)
    {
      stored := Stored(o, s.slots, n);
      for i := 0 to k
        invariant Counted(o, s, leaves, owed) && s.slots == old(s.slots)
        invariant leaves == old(leaves) + Copies(stored, i)
      {
        var one := NewLeaf(n, owed);
        assert old(leaves) + Copies(stored, i) + multiset{one} == old(leaves) + (Copies(stored, i) + multiset{one});
      }
      DropLeaf(n, owed);
    }

    // ----- the table of nexthops

    /** Puts a new nexthop into its place of the table if that is free. */
    method Install(n: Nh, ghost owed: multiset<Nh>) returns (ok: bool)
      requires Counted(o, s, leaves, owed) && n !in s.users
      modifies this`s
      ensures ok == (o.idOf(n) !in old(s.slots)) && s.slots == if ok then old(s.slots)[o.idOf(n) := n] else old(s.slots)
      ensures Counted(o, s, leaves, owed)
    {
      ok := o.idOf(n) !in s.slots;
      if ok {
        Placed(o, s, leaves, owed, n);
        s := State(s.users[n := 1], s.comps[n := []], s.slots[o.idOf(n) := n]);
      }
    }

    /** Takes a nexthop out of the table; it lives on while leaves or composites name it. */
    method Uninstall(n: Nh, ghost owed: multiset<Nh>)
      requires Counted(o, s, leaves, owed) && Installed(o, s, n)
      modifies this`s
      ensures s.slots == old(s.slots) - {o.idOf(n)} && Counted(o, s, leaves, owed)
      ensures n in s.users <==> old(leaves[n] + Bag(s.comps)[n]) + owed[n] > 0
    {
      UnplacedRefs(o, s.users, s.slots, Bag(s.comps), leaves, owed, n);
      ghost var count := leaves[n] + Bag(s.comps)[n] + owed[n];
      s := s.(slots := s.slots - {o.idOf(n)});
      PutLast(n, count, owed);
    }

    /**
     * A composite gets new components: the references of the old ones are dropped, then the new ones are
     * taken. With the new ones there must still be an order of composites after components; it may be another.
     */
    method SetComponents(n: Nh, ids: seq<Id>, ghost rank: Nh -> nat, ghost owed: multiset<Nh>)
      requires Counted(o, s, leaves, owed) && n in s.users
      requires Ordered(Order(o.idOf, rank), s.comps[n := Found(s.slots, ids)])
      modifies this`s, this`o
      ensures s.slots == old(s.slots) && o == Order(old(o.idOf), rank) && Counted(o, s, leaves, owed)
      ensures n in s.users && s.comps[n] == Found(s.slots, ids)
    {
      var cs := s.comps[n];
      Cleared(o, s, leaves, owed, n);
      s := s.(comps := s.comps[n := []]);
      PutAll(cs, owed, o.rank(n));
      Reordered(o, Order(o.idOf, rank), s, old(s), leaves, owed, n, ids);
      o := Order(o.idOf, rank);
      TakeComponents(n, ids, owed);
    }

    method TakeComponents(n: Nh, ids: seq<Id>, ghost owed: multiset<Nh>)
      requires Counted(o, s, leaves, owed) && n in s.users && s.comps[n] == []
      requires Below(o, Found(s.slots, ids), o.rank(n))
      modifies this`s
      ensures s.slots == old(s.slots) && Counted(o, s, leaves, owed)
      ensures n in s.users && s.comps[n] == Found(s.slots, ids)
    {
      for i := 0 to |ids|
        invariant s.slots == old(s.slots) && Counted(o, s, leaves, owed)
        invariant n in s.users && s.comps[n] == Found(s.slots, ids[..i])
      {
        assert ids[..i + 1][..i] == ids[..i];
        FoundIn(s.slots, ids, i);
        TakeComponent(n, ids[i], owed);
      }
      assert ids[..|ids|] == ids;
    }

    method TakeComponent(n: Nh, i: Id, ghost owed: multiset<Nh>)
      requires Counted(o, s, leaves, owed) && n in s.users && (i in s.slots ==> o.rank(s.slots[i]) < o.rank(n))
      modifies this`s
      ensures s.slots == old(s.slots) && Counted(o, s, leaves, owed)
      ensures n in s.users && s.comps[n] == old(s.comps[n]) + if i in s.slots then [s.slots[i]] else []
    {
      var c, found := Get(i, owed);
      if found {
        Appended(o, s, leaves, owed, n, c);
        s := s.(comps := s.comps[n := s.comps[n] + [c]]);
      }
    }

    method PutLast(n: Nh, ghost others: nat, ghost owed: multiset<Nh>)
      requires Counted(o, s, leaves, owed + multiset{n}) && n in s.users && s.users[n] == others + 1
      modifies this`s
      ensures s.slots == old(s.slots) && Counted(o, s, leaves, owed) && (n in s.users <==> others > 0)
    {
      Dropped(o, s.users, s.slots, Bag(s.comps), leaves, owed + multiset{n}, n);
      assert owed + multiset{n} - multiset{n} == owed;
      if s.users[n] > 1 {
        s := s.(users := s.users[n := s.users[n] - 1]);
        return;
      }
      Freed(o, s, leaves, owed + multiset{n}, n);
      var cs := s.comps[n];
      s := s.(users := s.users - {n}, comps := s.comps - {n});
      PutAll(cs, owed, o.rank(n));
    }
  }

  /** The nexthops found in some places of the table. */
  function Found(slots: map<Id, Nh>, ids: seq<Id>): seq<Nh>
  {
    if ids == [] then []
    else
      var i := ids[|ids| - 1];
      Found(slots, ids[..|ids| - 1]) + if i in slots then [slots[i]] else []
  }

  /** Place by place, in order: what is there, and nothing for empty places. */
  lemma {:induction false} FoundConcat(slots: map<Id, Nh>, a: seq<Id>, b: seq<Id>)
    ensures Found(slots, a + b) == Found(slots, a) + Found(slots, b)
    decreases |b|
  {
    if b == [] {
      assert a + b == a;
    } else {
      assert (a + b)[..|a + b| - 1] == a + b[..|b| - 1];
      FoundConcat(slots, a, b[..|b| - 1]);
    }
  }

  lemma {:induction false} FoundIn(slots: map<Id, Nh>, ids: seq<Id>, i: nat)
    requires i < |ids|
    ensures ids[i] in slots ==> slots[ids[i]] in Found(slots, ids)
  {
    if i < |ids| - 1 { FoundIn(slots, ids[..|ids| - 1], i); }
  }

  /** While the composite has no components, another order may be chosen that suits the components to come. */
  lemma Reordered(o: Order, o': Order, s: State, was: State, leaves: multiset<Nh>, owed: multiset<Nh>, n: Nh,
                  ids: seq<Id>)
    requires Counted(o, s, leaves, owed) && o'.idOf == o.idOf && n in s.comps && s.comps[n] == []
    requires Fewer(was.(comps := was.comps[n := []]), s) && Ordered(o', was.comps[n := Found(was.slots, ids)])
    ensures Counted(o', s, leaves, owed) && Below(o', Found(was.slots, ids), o'.rank(n))
  {
    var all := was.comps[n := Found(was.slots, ids)];
    assert Below(o', all[n], o'.rank(n));
    forall c | c in s.comps ensures Below(o', s.comps[c], o'.rank(c)) {
      if c != n { assert s.comps[c] == all[c]; }
    }
    forall x ensures var r := Refs(o', s.slots, Bag(s.comps), leaves, owed, x);
                     if x in s.users then s.users[x] == r > 0 else r == 0
    {
      assert Refs(o', s.slots, Bag(s.comps), leaves, owed, x) == Refs(o, s.slots, Bag(s.comps), leaves, owed, x);
    }
  }

  lemma First(o: Order, discard: Nh)
    requires o.idOf(discard) == DISCARD
    ensures Counted(o, State(map[discard := 1], map[discard := []], map[DISCARD := discard]), multiset{}, multiset{})
  {
    var comps, slots := map[discard := []], map[DISCARD := discard];
    BagUpdate(map[], discard, []);
    assert Bag(comps) == multiset{};
    forall x ensures var r := Refs(o, slots, Bag(comps), multiset{}, multiset{}, x);
                     if x == discard then r == 1 else r == 0
    {
    }
  }

  /** The references of the components are in hand. */
  lemma Cleared(o: Order, s: State, leaves: multiset<Nh>, owed: multiset<Nh>, n: Nh)
    requires Counted(o, s, leaves, owed) && n in s.users
    ensures Counted(o, s.(comps := s.comps[n := []]), leaves, owed + multiset(s.comps[n]))
    ensures Below(o, s.comps[n], o.rank(n))
  {
    var cs := multiset(s.comps[n]);
    BagWithout(s.comps, n);
    BagUpdate(s.comps, n, []);
    Moved(o, s.users, s.slots, Bag(s.comps), leaves, owed, Bag(s.comps[n := []]), leaves, owed + cs);
  }

  /** A reference in hand goes to a component. */
  lemma Appended(o: Order, s: State, leaves: multiset<Nh>, owed: multiset<Nh>, n: Nh, c: Nh)
    requires Counted(o, s, leaves, owed + multiset{c}) && n in s.users && o.rank(c) < o.rank(n)
    ensures Counted(o, s.(comps := s.comps[n := s.comps[n] + [c]]), leaves, owed)
  {
    var cs := s.comps[n] + [c];
    BagWithout(s.comps, n);
    BagUpdate(s.comps, n, cs);
    assert multiset(cs) == multiset(s.comps[n]) + multiset{c};
    Moved(o, s.users, s.slots, Bag(s.comps), leaves, owed + multiset{c}, Bag(s.comps[n := cs]), leaves, owed);
    OrderedUpdate(o, s.comps, n, cs);
  }

  lemma OrderedUpdate(o: Order, comps: map<Nh, seq<Nh>>, n: Nh, cs: seq<Nh>)
    requires Ordered(o, comps) && Below(o, cs, o.rank(n))
    ensures Ordered(o, comps[n := cs])
  {
  }

  ghost function Copies(n: Nh, k: nat): multiset<Nh>
  {
    if k == 0 then multiset{} else Copies(n, k - 1) + multiset{n}
  }

  lemma PlacedRefs(o: Order, users: map<Nh, nat>, slots: map<Id, Nh>, held: multiset<Nh>, leaves: multiset<Nh>,
                   owed: multiset<Nh>, n: Nh)
    requires RefsOk(o, users, slots, held, leaves, owed) && n !in users && o.idOf(n) !in slots
    ensures RefsOk(o, users[n := 1], slots[o.idOf(n) := n], held, leaves, owed)
  {
    var slots' := slots[o.idOf(n) := n];
    assert Refs(o, slots, held, leaves, owed, n) == 0;
    forall x ensures var u, r := users[n := 1], Refs(o, slots', held, leaves, owed, x);
                     if x in u then u[x] == r > 0 else r == 0
    {
      assert Refs(o, slots', held, leaves, owed, x) == Refs(o, slots, held, leaves, owed, x) + One(x == n);
    }
  }

  lemma Placed(o: Order, s: State, leaves: multiset<Nh>, owed: multiset<Nh>, n: Nh)
    requires Counted(o, s, leaves, owed) && n !in s.users && o.idOf(n) !in s.slots
    ensures Counted(o, State(s.users[n := 1], s.comps[n := []], s.slots[o.idOf(n) := n]), leaves, owed)
  {
    BagUpdate(s.comps, n, []);
    assert s.comps - {n} == s.comps;
    assert Bag(s.comps[n := []]) == Bag(s.comps);
    PlacedRefs(o, s.users, s.slots, Bag(s.comps), leaves, owed, n);
    OrderedUpdate(o, s.comps, n, []);
  }

  lemma UnplacedRefs(o: Order, users: map<Nh, nat>, slots: map<Id, Nh>, held: multiset<Nh>, leaves: multiset<Nh>,
                     owed: multiset<Nh>, n: Nh)
    requires RefsOk(o, users, slots, held, leaves, owed) && SlotsOk(o, slots) && InPlace(o, slots, n)
    ensures n in users && users[n] == leaves[n] + held[n] + owed[n] + 1
    ensures RefsOk(o, users, slots - {o.idOf(n)}, held, leaves, owed + multiset{n})
  {
    assert Refs(o, slots, held, leaves, owed, n) > 0;
    forall x ensures var r := Refs(o, slots - {o.idOf(n)}, held, leaves, owed + multiset{n}, x);
                     if x in users then users[x] == r > 0 else r == 0
    {
      assert Refs(o, slots - {o.idOf(n)}, held, leaves, owed + multiset{n}, x) == Refs(o, slots, held, leaves, owed, x);
    }
  }

  lemma OneLess(cs: seq<Nh>, i: nat, rest: multiset<Nh>)
    requires i < |cs|
    ensures cs[i] in rest + multiset(cs[i..])
      && rest + multiset(cs[i..]) - multiset{cs[i]} == rest + multiset(cs[i + 1..])
  {
    assert cs[i..] == [cs[i]] + cs[i + 1..];
  }
}
