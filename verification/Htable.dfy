/**
 * The hash table as one thread sees it: buckets of fixed size, an overflow chain behind each
 * bucket, a free list of overflow entries, and a deleter that unlinks marked entries, which
 * return to the free list after a grace period. It is a partial map from keys to entries.
 */
module Htable {
  import opened Bits
  import opened Lists

  type Bucket = nat

  /** Keys are only compared and hashed. */
  type Key(==, !new)

  /** An entry is in use, for a key, or not. */
  datatype Slot = Unused | Used(key: Key)

  /** Where an overflow entry is. */
  datatype Place = Free | Chained(b: Bucket) | Waiting

  // ----- bucket numbers

  function RoundUp(n: nat, size: nat): nat
    requires size > 0
  {
    (n + size - 1) / size * size
  }

  /** The smallest whole number of buckets that holds `n` entries. */
  lemma RoundUpWhole(n: nat, size: nat)
    requires size > 0
    ensures n <= RoundUp(n, size) < n + size && RoundUp(n, size) % size == 0
  {
    var q := (n + size - 1) / size;
    assert n + size - 1 == size * q + (n + size - 1) % size;
    DivUnique(RoundUp(n, size), size, q, 0);
  }

  /** The first entry of a bucket: the hash with its low bits cleared. */
  function Start(b: Bucket, size: nat): nat
  {
    if b == 0 then 0 else Start(b - 1, size) + size
  }

  lemma {:induction false} StartIsProduct(b: Bucket, size: nat)
    ensures Start(b, size) == size * b
  {
    if b > 0 {
      StartIsProduct(b - 1, size);
      assert size * b == size * (b - 1) + size;
    }
  }

  lemma BucketFits(h: nat, entries: nat, size: nat)
    requires size > 0 && entries % size == 0 && h < entries
    ensures h / size < entries / size && Start(h / size, size) + size <= entries && Start(h / size, size) <= h
  {
    var q, n := h / size, entries / size;
    assert entries == size * n;
    DivBelow(h, size, n);
    StartIsProduct(q, size);
    WholeBuckets(size, q, n);
    assert h == size * q + h % size;
  }

  lemma WholeBuckets(size: nat, q: nat, n: nat)
    requires size > 0 && q < n
    ensures size * q + size <= size * n
  {
    MulSign(size, n - q);
    assert size * (n - q) == size * n - size * q;
  }

  // ----- what the pointers stand for

  ghost predicate FreeOk(next: map<Entry, Ptr>, head: Ptr, free: seq<Entry>, place: map<Entry, Place>)
  {
    List(next, head, free) && forall e {:trigger e in free} :: e in free <==> e in place && place[e] == Free
  }

  ghost predicate ChainOk(next: map<Entry, Ptr>, head: Ptr, chain: seq<Entry>, place: map<Entry, Place>, b: Bucket)
  {
    List(next, head, chain) && forall e {:trigger e in chain} :: e in chain <==> e in place && place[e] == Chained(b)
  }

  ghost predicate ChainsOk(next: map<Entry, Ptr>, heads: map<Bucket, Ptr>, chains: map<Bucket, seq<Entry>>,
                           place: map<Entry, Place>)
  {
    && heads.Keys == chains.Keys
    && forall b {:trigger chains[b]} :: b in chains ==> ChainOk(next, heads[b], chains[b], place, b)
  }

  /** How many entries of a chain await the deleter. */
  ghost function CountMarked(chain: seq<Entry>, marked: set<Entry>): nat
  {
    if chain == [] then 0 else (if chain[0] in marked then 1 else 0) + CountMarked(chain[1..], marked)
  }

  /** A chain without its marked entries, the others in order. */
  ghost function Live(chain: seq<Entry>, marked: set<Entry>): seq<Entry>
  {
    if chain == [] then []
    else if chain[0] in marked then Live(chain[1..], marked)
    else [chain[0]] + Live(chain[1..], marked)
  }

  /** Sizes and hash function, fixed when the table is made. */
  datatype Geometry = Geometry(
    size: nat,          // entries of a bucket
    entries: nat,       // entries in the buckets
    oentries: nat,      // overflow entries, numbered from `entries` on
    hash: Key -> nat)
  {
    predicate Sane()
    {
      size > 0 && entries > 0 && entries % size == 0
    }

    function BucketOf(k: Key): Bucket
      requires Sane()
    {
      hash(k) % entries / size
    }

    predicate IsOverflow(e: int)
    {
      entries <= e < entries + oentries
    }

    lemma BucketOfFits(k: Key)
      requires Sane()
      ensures BucketOf(k) < entries / size && Start(BucketOf(k), size) + size <= entries
    {
      BucketFits(hash(k) % entries, entries, size);
    }
  }

  /** The entry is in the bucket of the key, or on its chain. */
  ghost predicate Home(g: Geometry, place: map<Entry, Place>, e: Entry, k: Key)
    requires g.Sane()
  {
    if e < g.entries then Start(g.BucketOf(k), g.size) <= e < Start(g.BucketOf(k), g.size) + g.size
    else e in place && place[e] == Chained(g.BucketOf(k))
  }

  /** Each key has one entry, where a search for it looks. */
  ghost predicate KeysOk(g: Geometry, place: map<Entry, Place>, slots: seq<Slot>, index: map<Key, Entry>)
  {
    && g.Sane()
    && (forall k {:trigger index[k]} :: k in index ==>
          index[k] < |slots| && slots[index[k]] == Used(k) && Home(g, place, index[k], k))
    && (forall e: nat {:trigger slots[e]} :: e < |slots| && slots[e].Used? ==>
          slots[e].key in index && index[slots[e].key] == e)
  }

  /** An overflow entry is marked exactly while it is on a chain but not in use. */
  ghost predicate MarkOk(slot: Slot, place: Place, marked: bool)
  {
    (slot.Used? ==> place.Chained?) && (marked <==> place.Chained? && slot.Unused?)
  }

  ghost predicate MarksOk(g: Geometry, place: map<Entry, Place>, slots: seq<Slot>, marked: set<Entry>)
    requires |slots| == g.entries + g.oentries
  {
    && (forall e {:trigger e in marked} :: e in marked ==> e in place)
    && (forall e {:trigger place[e]} :: e in place && g.IsOverflow(e) ==> MarkOk(slots[e], place[e], e in marked))
  }

  ghost predicate PendingOk(chains: map<Bucket, seq<Entry>>, pending: map<Bucket, nat>, marked: set<Entry>)
  {
    chains.Keys == pending.Keys && forall b {:trigger pending[b]} :: b in pending ==>
      pending[b] == CountMarked(chains[b], marked)
  }

  // ----- what changes when a key comes and goes

  lemma KeyAdded(g: Geometry, place: map<Entry, Place>, slots: seq<Slot>, index: map<Key, Entry>,
                          place': map<Entry, Place>, k: Key, e: Entry)
    requires KeysOk(g, place, slots, index) && e < |slots| && slots[e].Unused? && k !in index
    requires AgreeOff(place, place', e) && Home(g, place', e, k)
    ensures KeysOk(g, place', slots[e := Used(k)], index[k := e]) && |index[k := e]| == |index| + 1
  {
  }

  lemma KeyRemoved(g: Geometry, place: map<Entry, Place>, slots: seq<Slot>, index: map<Key, Entry>, e: Entry)
    requires KeysOk(g, place, slots, index) && e < |slots| && slots[e].Used?
    ensures slots[e].key in index && KeysOk(g, place, slots[e := Unused], index - {slots[e].key})
    ensures |index - {slots[e].key}| == |index| - 1
  {
  }

  /** What entries and pointers stand for. */
  datatype View = View(index: map<Key, Entry>, chains: map<Bucket, seq<Entry>>, free: seq<Entry>,
                       place: map<Entry, Place>)

  /** Everything a table holds. */
  datatype Parts = Parts(
    slots: seq<Slot>, heads: map<Bucket, Ptr>, next: map<Entry, Ptr>, freeHead: Ptr,
    marked: set<Entry>, pending: map<Bucket, nat>, v: View)

  ghost predicate Shape(g: Geometry, p: Parts)
  {
    && g.Sane() && |p.slots| == g.entries + g.oentries
    && (forall e: nat {:trigger e in p.next} :: e in p.next <==> g.IsOverflow(e))
    && p.v.place.Keys == p.next.Keys
    && (forall b: nat {:trigger b in p.v.chains} :: b in p.v.chains <==> b < g.entries / g.size)
  }

  ghost predicate Sound(g: Geometry, p: Parts)
  {
    && Shape(g, p) && FreeOk(p.next, p.freeHead, p.v.free, p.v.place)
    && ChainsOk(p.next, p.heads, p.v.chains, p.v.place)
    && MarksOk(g, p.v.place, p.slots, p.marked) && PendingOk(p.v.chains, p.pending, p.marked)
    && KeysOk(g, p.v.place, p.slots, p.v.index)
  }

  ghost function PushedView(v: View, k: Key, b: Bucket, e: Entry): View
    requires v.free != [] && b in v.chains
  {
    View(v.index[k := e], v.chains[b := [e] + v.chains[b]], v.free[1..], v.place[e := Chained(b)])
  }

  /** Overflow entry `e` goes from the free list to a chain, for key `k`. */
  ghost function Pushed(p: Parts, k: Key, b: Bucket, e: Entry): Parts
    requires p.v.free != [] && e in p.next && e < |p.slots| && b in p.heads && b in p.v.chains
  {
    p.(slots := p.slots[e := Used(k)], heads := p.heads[b := To(e)], next := p.next[e := p.heads[b]],
       freeHead := p.next[e],
       v := PushedView(p.v, k, b, e))
  }

  ghost function Dropped(p: Parts, e: Entry, marked: set<Entry>, pending: map<Bucket, nat>): Parts
    requires e < |p.slots| && p.slots[e].Used?
  {
    p.(slots := p.slots[e := Unused], marked := marked, pending := pending,
       v := p.v.(index := p.v.index - {p.slots[e].key}))
  }

  /** Takes `e`, which comes after `prev`, out of its chain. */
  ghost function Unlinked(p: Parts, b: Bucket, prev: Ptr, e: Entry): Parts
    requires b in p.heads && b in p.v.chains && e in p.next
  {
    p.(heads := if prev.Null? then p.heads[b := p.next[e]] else p.heads,
       next := if prev.Null? then p.next else p.next[prev.e := p.next[e]],
       marked := p.marked - {e},
       v := p.v.(chains := p.v.chains[b := Without(p.v.chains[b], e)], place := p.v.place[e := Waiting]))
  }

  /** The table `p` with the chains, links and marks of `u`: no key, no free entry and no counter changes. */
  ghost function Rechained(p: Parts, u: Parts): Parts
  {
    p.(heads := u.heads, next := u.next, marked := u.marked, v := p.v.(chains := u.v.chains, place := u.v.place))
  }

  /** The table as it would be if the deleter's own count were still the bucket's. */
  ghost function Counting(p: Parts, b: Bucket, count: nat): Parts
  {
    p.(pending := p.pending[b := count])
  }

  /** The table is sound as far as the deleter has counted. */
  ghost predicate SoundAs(g: Geometry, p: Parts, b: Bucket, count: nat)
  {
    forall q {:trigger Sound(g, q)} :: q == Counting(p, b, count) ==> Sound(g, q)
  }

  /** The deleter is at position `j` of a chain and has passed no marked entry. */
  ghost predicate Passed(chain: seq<Entry>, marked: set<Entry>, prev: Ptr, ent: Ptr, j: nat)
  {
    && j <= |chain| && ent == At(chain, j) && prev == (if j == 0 then Null else To(chain[j - 1]))
    && forall x {:trigger chain[x]} :: 0 <= x < j ==> chain[x] !in marked
  }

  class Table {
    const g: Geometry

    var slots: seq<Slot>
    var heads: map<Bucket, Ptr>
    var next: map<Entry, Ptr>
    var freeHead: Ptr
    var marked: set<Entry>
    var pending: map<Bucket, nat>
    var used: int

    ghost var v: View

    ghost function All(): Parts
      reads this
    {
      Parts(slots, heads, next, freeHead, marked, pending, v)
    }

    ghost predicate Valid()
      reads this
    {
      Sound(g, All()) && used == |v.index|
    }

    method SearchBucket(k: Key, start: nat) returns (r: int)
      requires start + g.size <= |slots|
      ensures r >= 0 ==> start <= r < start + g.size && slots[r] == Used(k)
      ensures r < 0 ==> forall e :: start <= e < start + g.size ==> slots[e] != Used(k)
    {
      var i := 0;
      while i < g.size
        invariant 0 <= i <= g.size
        invariant forall e :: start <= e < start + i ==> slots[e] != Used(k)
      {
        if slots[start + i] == Used(k) {
          return start + i;
        }
        i := i + 1;
      }
      r := -1;
    }

    method SearchChain(k: Key, b: Bucket) returns (r: int)
      requires b in heads && b in v.chains && List(next, heads[b], v.chains[b]) && forall e :: e in v.chains[b] ==>
        e < |slots|
      ensures r >= 0 ==> r in v.chains[b] && slots[r] == Used(k)
      ensures r < 0 ==> forall e :: e in v.chains[b] ==> slots[e] != Used(k)
    {
      ghost var chain := v.chains[b];
      var p := heads[b];
      ghost var j := 0;
      while p.To?
        invariant 0 <= j <= |chain| && p == At(chain, j)
        invariant forall x :: 0 <= x < j ==> chain[x] < |slots| && slots[chain[x]] != Used(k)
        decreases |chain| - j
      {
        assert p.e in chain;
        if slots[p.e] == Used(k) {
          return p.e;
        }
        ListAt(next, heads[b], chain, j);
        p := next[p.e];
        j := j + 1;
      }
      r := -1;
    }

    lemma ChainFits(b: Bucket)
      requires Valid() && b in v.chains
      ensures b in heads && List(next, heads[b], v.chains[b])
      ensures forall e :: e in v.chains[b] ==> g.IsOverflow(e) && e in v.place && v.place[e] == Chained(b)
    {
    }

    lemma KeyIsHome(k: Key)
      requires Valid() && k in v.index
      ensures var b, e := g.BucketOf(k), v.index[k];
              e < |slots| && slots[e] == Used(k)
              && (Start(b, g.size) <= e < Start(b, g.size) + g.size || (b in v.chains && e in v.chains[b]))
    {
      g.BucketOfFits(k);
      assert Home(g, v.place, v.index[k], k);
      var b := g.BucketOf(k);
      assert ChainOk(next, heads[b], v.chains[b], v.place, b);
    }

    /** A key is found exactly when it is in the table. */
    method Find(k: Key) returns (r: int)
      requires Valid()
      ensures r >= 0 <==> k in v.index
      ensures r >= 0 ==> r == v.index[k]
    {
      g.BucketOfFits(k);
      var b := g.BucketOf(k);
      r := SearchBucket(k, Start(b, g.size));
      if r < 0 {
        ChainFits(b);
        r := SearchChain(k, b);
      }
      if k in v.index { KeyIsHome(k); }
    }

    constructor (n: nat, oentries: nat, size: nat, hash: Key -> nat)
      requires n > 0 && size > 0
      ensures Valid() && v.index == map[] && |v.free| == oentries
      ensures g.size == size && n <= g.entries < n + size && g.oentries == oentries && g.hash == hash
    {
      RoundUpWhole(n, size);
      var geometry := Geometry(size, RoundUp(n, size), oentries, hash);
      NewSound(geometry);
      var p := NewParts(geometry);
      g := geometry;
      slots, heads, next, freeHead, marked, pending, used := p.slots, p.heads, p.next, p.freeHead, p.marked,
        p.pending, 0;
      v := p.v;
    }

    // ----- taking an entry

    method TakeRegular(k: Key, e: Entry)
      requires Valid() && k !in v.index && e < g.entries && e < |slots| && slots[e].Unused? && Home(g, v.place, e, k)
      modifies this`slots, this`v, this`used
      ensures Valid() && v.index == old(v.index)[k := e]
    {
      RegularTaken(g, All(), k, e);
      slots := slots[e := Used(k)];
      v := v.(index := v.index[k := e]);
      used := used + 1;
    }

    /** Takes entry `e` off the head of the free list and puts it at the head of a chain. */
    method Push(k: Key, b: Bucket, e: Entry)
      requires freeHead == To(e) && v.free != [] && e in next && e < |slots| && b in heads && b in v.chains
      modifies this
      ensures All() == Pushed(old(All()), k, b, e) && used == old(used) + 1
    {
      freeHead := next[e];
      next := next[e := heads[b]];
      heads := heads[b := To(e)];
      slots := slots[e := Used(k)];
      used := used + 1;
      v := PushedView(v, k, b, e);
    }

    method TakeOverflow(k: Key, b: Bucket)
      requires Valid() && k !in v.index && b in v.chains && b == g.BucketOf(k) && v.free != []
      modifies this
      ensures Valid() && All() == Pushed(old(All()), k, b, old(v.free)[0])
    {
      OverflowTaken(g, All(), k, b);
      Push(k, b, freeHead.e);
    }

    method FirstUnused(start: nat) returns (r: int)
      requires start + g.size <= |slots|
      ensures r >= 0 ==> start <= r < start + g.size && slots[r].Unused?
      ensures r < 0 <==> forall e :: start <= e < start + g.size ==> slots[e].Used?
    {
      var i := 0;
      while i < g.size
        invariant 0 <= i <= g.size
        invariant forall e :: start <= e < start + i ==> slots[e].Used?
      {
        if slots[start + i].Unused? {
          return start + i;
        }
        i := i + 1;
      }
      r := -1;
    }

    /** All entries of the key's bucket are in use. */
    ghost predicate BucketFull(k: Key)
      requires Valid()
      reads this
    {
      g.BucketOfFits(k);
      forall e :: Start(g.BucketOf(k), g.size) <= e < Start(g.BucketOf(k), g.size) + g.size ==> slots[e].Used?
    }

    /**
     * A key that is there keeps its entry, a new key gets one that was not in use; this fails
     * only if the key's bucket is full and no overflow entry is free.
     */
    method Add(k: Key) returns (r: int)
      requires Valid()
      modifies this
      ensures Valid()
      ensures k in old(v.index) ==> r == old(v.index)[k] && All() == old(All())
      ensures k !in old(v.index) && r >= 0 ==>
        v.index == old(v.index)[k := r] && r < |old(slots)| && old(slots)[r].Unused?
      ensures r < 0 <==> k !in old(v.index) && old(BucketFull(k)) && old(v.free) == []
      ensures r < 0 ==> All() == old(All())
    {
      r := Find(k);
      if r >= 0 {
        return;
      }
      r := AddNew(k);
    }

    method AddNew(k: Key) returns (r: int)
      requires Valid() && k !in v.index
      modifies this
      ensures Valid()
      ensures r >= 0 ==> v.index == old(v.index)[k := r] && r < |old(slots)| && old(slots)[r].Unused?
      ensures r < 0 <==> old(BucketFull(k)) && old(v.free) == []
      ensures r < 0 ==> All() == old(All())
    {
      g.BucketOfFits(k);
      var b := g.BucketOf(k);
      r := FirstUnused(Start(b, g.size));
      if r >= 0 {
        TakeRegular(k, r);
      } else if freeHead.To? {
        FreeHead(g, All());
        r := freeHead.e;
        TakeOverflow(k, b);
      }
    }

    // ----- giving an entry back

    /** Releases an entry: its key is gone; an overflow entry stays on its chain, marked for the deleter. */
    method Release(e: Entry)
      requires Valid() && e < |slots|
      modifies this
      ensures Valid()
      ensures old(slots)[e].Unused? ==> All() == old(All())
      ensures old(slots)[e].Used? ==> v.index == old(v.index) - {old(slots)[e].key}
      ensures v.chains == old(v.chains) && v.free == old(v.free)
      ensures old(slots)[e].Used? ==> marked == if e < g.entries then old(marked) else old(marked) + {e}
    {
      if slots[e].Unused? {
        return;
      }
      if e < g.entries {
        RegularReleased(g, All(), e);
        Drop(e, marked, pending);
      } else {
        OverflowReleased(g, All(), e);
        var b := g.BucketOf(slots[e].key);
        Drop(e, marked + {e}, pending[b := pending[b] + 1]);
      }
    }

    method Drop(e: Entry, marked': set<Entry>, pending': map<Bucket, nat>)
      requires e < |slots| && slots[e].Used?
      modifies this
      ensures All() == Dropped(old(All()), e, marked', pending') && used == old(used) - 1
    {
      used := used - 1;
      v := v.(index := v.index - {slots[e].key});
      slots := slots[e := Unused];
      marked := marked';
      pending := pending';
    }

    // ----- the deleter

    method Unlink(b: Bucket, prev: Ptr, e: Entry)
      requires b in heads && b in v.chains && e in next && (prev.To? ==> prev.e in next)
      modifies this
      ensures All() == Unlinked(old(All()), b, prev, e) && used == old(used)
    {
      if prev.Null? {
        heads := heads[b := next[e]];
      } else {
        next := next[prev.e := next[e]];
      }
      marked := marked - {e};
      v := v.(chains := v.chains[b := Without(v.chains[b], e)], place := v.place[e := Waiting]);
    }

    method SweepMarked(b: Bucket, ghost count: nat, prev: Ptr, e: Entry, ghost j: nat)
      requires SoundAs(g, All(), b, count) && b in v.chains && e in marked && count > 0
      requires Passed(v.chains[b], marked, prev, To(e), j)
      modifies this
      ensures SoundAs(g, All(), b, count - 1) && b in v.chains && e in old(next)
      ensures Passed(v.chains[b], marked, prev, old(next)[e], j) && |v.chains[b]| < |old(v.chains)[b]|
      ensures All() == Rechained(old(All()), All()) && used == old(used)
      ensures AgreeOff(old(v.chains), v.chains, b) && Live(v.chains[b], marked) == old(Live(v.chains[b], marked))
    {
      ghost var p := Counting(All(), b, count);
      WalkFacts(g, All(), b, count, prev, j);
      UnlinkSound(g, p, b, prev, j);
      UnlinkLive(g, p, b, prev, j);
      CountUnlinked(All(), b, prev, e, count);
      Unlink(b, prev, e);
    }

    /** Unlinks every marked entry of a chain; the others stay in order, and no key moves. */
    method Sweep(b: Bucket)
      requires Valid() && b in v.chains
      modifies this
      ensures Valid() && v.index == old(v.index) && v.free == old(v.free) && slots == old(slots)
      ensures v.chains == old(v.chains)[b := Live(old(v.chains)[b], old(marked))]
      ensures pending == old(pending)[b := 0]
    {
      ChainFits(b);
      var count := pending[b];
      CountIsPending(All(), b);
      CountStaged(All(), b, count);
      pending := pending[b := 0];
      SweepChain(b, count);
    }

    method SweepChain(b: Bucket, count0: nat)
      requires Sound(g, Counting(All(), b, count0)) && b in v.chains && b in pending && pending[b] == 0
      modifies this
      ensures Sound(g, All()) && used == old(used) && All() == Rechained(old(All()), All())
      ensures v.chains == old(v.chains)[b := Live(old(v.chains)[b], old(marked))]
    {
      var count, j := WalkChain(b, count0);
      SweepDone(g, Counting(All(), b, count), b, j);
      CountIsPending(All(), b);
      AgreeUpdate(old(v.chains), v.chains, b);
    }

    /** Walks a chain and unlinks marked entries until `count0` of them are found or the chain ends. */
    method WalkChain(b: Bucket, count0: nat) returns (count: nat, ghost j: nat)
      requires SoundAs(g, All(), b, count0) && b in v.chains
      modifies this
      ensures SoundAs(g, All(), b, count) && b in v.chains
      ensures count == 0 || (j == |v.chains[b]| && forall x :: 0 <= x < j ==> v.chains[b][x] !in marked)
      ensures used == old(used) && All() == Rechained(old(All()), All())
      ensures AgreeOff(old(v.chains), v.chains, b) && Live(v.chains[b], marked) == old(Live(v.chains[b], marked))
    {
      WalkStart(g, All(), b, count0);
      var prev, ent := Null, heads[b];
      count, j := count0, 0;
      while count > 0 && ent.To?
        invariant SoundAs(g, All(), b, count) && b in v.chains
        invariant Passed(v.chains[b], marked, prev, ent, j)
        invariant All() == Rechained(old(All()), All()) && used == old(used)
        invariant AgreeOff(old(v.chains), v.chains, b) && Live(v.chains[b], marked) == old(Live(v.chains[b], marked))
        decreases |v.chains[b]| - j
      {
        var e := ent.e;
        WalkFacts(g, All(), b, count, prev, j);
        ent := next[e];
        if e in marked {
          SweepMarked(b, count, prev, e, j);
          count := count - 1;
        } else {
          PassedNext(v.chains[b], marked, prev, j);
          prev := To(e);
          j := j + 1;
        }
      }
    }

    /** The callback after the grace period: the entry is free again. */
    method Return(e: Entry)
      requires Valid() && e in v.place && v.place[e] == Waiting
      modifies this
      ensures Valid() && v.free == [e] + old(v.free) && v.index == old(v.index) && v.chains == old(v.chains)
    {
      ReturnSound(g, All(), e);
      PutFree(e);
    }

    method PutFree(e: Entry)
      modifies this
      ensures All() == Returned(old(All()), e) && used == old(used)
    {
      next := next[e := freeHead];
      freeHead := To(e);
      v := v.(free := [e] + v.free, place := v.place[e := Free]);
    }
  }

  lemma FreeHead(g: Geometry, p: Parts)
    requires Sound(g, p) && p.freeHead.To?
    ensures p.v.free != [] && p.freeHead.e == p.v.free[0] && p.v.free[0] < |p.slots| && p.slots[p.v.free[0]].Unused?
  {
    var e := p.v.free[0];
    assert e in p.v.free && e in p.next && g.IsOverflow(e);
    assert MarkOk(p.slots[e], p.v.place[e], e in p.marked);
  }

  lemma RegularTaken(g: Geometry, p: Parts, k: Key, e: Entry)
    requires Sound(g, p) && k !in p.v.index && e < g.entries && p.slots[e].Unused? && Home(g, p.v.place, e, k)
    ensures Sound(g, p.(slots := p.slots[e := Used(k)], v := p.v.(index := p.v.index[k := e])))
    ensures |p.v.index[k := e]| == |p.v.index| + 1
  {
    KeyAdded(g, p.v.place, p.slots, p.v.index, p.v.place, k, e);
    RegularMarks(g, p.v.place, p.slots, p.marked, e, Used(k));
  }

  lemma OverflowTaken(g: Geometry, p: Parts, k: Key, b: Bucket)
    requires Sound(g, p) && k !in p.v.index && b in p.v.chains && b == g.BucketOf(k) && p.v.free != []
    ensures p.freeHead.To? && p.freeHead.e == p.v.free[0] && p.v.free[0] in p.next && p.v.free[0] < |p.slots|
    ensures b in p.heads && Sound(g, Pushed(p, k, b, p.v.free[0]))
    ensures |p.v.index[k := p.v.free[0]]| == |p.v.index| + 1
  {
    var e := p.v.free[0];
    FreePopped(p.next, p.freeHead, p.v.free, p.v.place, p.heads, p.v.chains, b);
    assert e in p.next && g.IsOverflow(e);
    assert MarkOk(p.slots[e], p.v.place[e], e in p.marked);
    KeyAdded(g, p.v.place, p.slots, p.v.index, p.v.place[e := Chained(b)], k, e);
    OverflowMarks(g, p.v.place, p.slots, p.marked, e, Used(k), Chained(b), p.marked);
    PendingPushed(p.v.chains, p.pending, p.marked, b, e);
  }

  lemma RegularMarks(g: Geometry, place: map<Entry, Place>, slots: seq<Slot>, marked: set<Entry>, e: Entry, slot: Slot)
    requires |slots| == g.entries + g.oentries && MarksOk(g, place, slots, marked) && e < g.entries
    ensures MarksOk(g, place, slots[e := slot], marked)
  {
  }

  lemma OverflowMarks(g: Geometry, place: map<Entry, Place>, slots: seq<Slot>, marked: set<Entry>, e: Entry,
                         slot: Slot, to: Place, marked': set<Entry>)
    requires |slots| == g.entries + g.oentries && MarksOk(g, place, slots, marked) && e in place && e < |slots|
    requires marked' - {e} == marked - {e} && MarkOk(slot, to, e in marked')
    ensures MarksOk(g, place[e := to], slots[e := slot], marked')
  {
    var place', slots' := place[e := to], slots[e := slot];
    forall x | x in place' && g.IsOverflow(x) ensures MarkOk(slots'[x], place'[x], x in marked') {
      if x != e {
        assert MarkOk(slots[x], place[x], x in marked);
        assert x in marked' <==> x in marked' - {e};
        assert x in marked <==> x in marked - {e};
      }
    }
    forall x | x in marked' ensures x in place' {
      if x != e { assert x in marked' - {e}; assert x in marked; }
    }
  }

  lemma PendingPushed(chains: map<Bucket, seq<Entry>>, pending: map<Bucket, nat>, marked: set<Entry>, b: Bucket,
                      e: Entry)
    requires PendingOk(chains, pending, marked) && b in chains && e !in marked
    ensures PendingOk(chains[b := [e] + chains[b]], pending, marked)
  {
  }

  /** The entry at the head of the free list goes to the head of a chain. */
  lemma FreePopped(next: map<Entry, Ptr>, head: Ptr, free: seq<Entry>, place: map<Entry, Place>,
                   heads: map<Bucket, Ptr>, chains: map<Bucket, seq<Entry>>, b: Bucket)
    requires FreeOk(next, head, free, place) && ChainsOk(next, heads, chains, place) && head.To? && b in chains
    ensures free != [] && free[0] == head.e && head.e in next && head.e in place && place[head.e] == Free
    ensures FreeOk(next[head.e := heads[b]], next[head.e], free[1..], place[head.e := Chained(b)])
    ensures ChainsOk(next[head.e := heads[b]], heads[b := To(head.e)], chains[b := [head.e] + chains[b]],
                     place[head.e := Chained(b)])
  {
    var e := head.e;
    assert free != [] && e == free[0] && e in free;
    var next', place' := next[e := heads[b]], place[e := Chained(b)];
    ListFrame(next, next[e], free[1..], e, heads[b]);
    forall x ensures x in free[1..] <==> x in place' && place'[x] == Free {
      assert x in free <==> x == e || x in free[1..];
    }
    var heads', chains' := heads[b := To(e)], chains[b := [e] + chains[b]];
    forall d | d in chains' ensures ChainOk(next', heads'[d], chains'[d], place', d) {
      ChainOfPopped(next, heads[d], chains[d], place, d, e, heads[b], b);
      if d == b { ListPush(next', heads[b], chains[b], e); }
    }
  }

  lemma ChainOfPopped(next: map<Entry, Ptr>, head: Ptr, chain: seq<Entry>, place: map<Entry, Place>, d: Bucket,
                      e: Entry, p: Ptr, b: Bucket)
    requires ChainOk(next, head, chain, place, d) && e in place && place[e] == Free
    ensures e !in chain && List(next[e := p], head, chain)
    ensures d != b ==> ChainOk(next[e := p], head, chain, place[e := Chained(b)], d)
    ensures d == b ==> forall x :: x in [e] + chain <==>
      x in place[e := Chained(b)] && place[e := Chained(b)][x] == Chained(d)
  {
    ListFrame(next, head, chain, e, p);
  }

  // ----- releasing

  lemma RegularReleased(g: Geometry, p: Parts, e: Entry)
    requires Sound(g, p) && e < g.entries && p.slots[e].Used?
    ensures Sound(g, Dropped(p, e, p.marked, p.pending)) && |p.v.index - {p.slots[e].key}| == |p.v.index| - 1
  {
  }

  lemma OverflowReleased(g: Geometry, p: Parts, e: Entry)
    requires Sound(g, p) && g.entries <= e < |p.slots| && p.slots[e].Used?
    ensures g.BucketOf(p.slots[e].key) in p.pending
    ensures var b := g.BucketOf(p.slots[e].key);
      Sound(g, Dropped(p, e, p.marked + {e}, p.pending[b := p.pending[b] + 1]))
    ensures |p.v.index - {p.slots[e].key}| == |p.v.index| - 1
  {
    var k := p.slots[e].key;
    var b := g.BucketOf(k);
    assert e in p.next && MarkOk(p.slots[e], p.v.place[e], e in p.marked);
    assert k in p.v.index && p.v.index[k] == e && Home(g, p.v.place, e, k);
    g.BucketOfFits(k);
    KeyRemoved(g, p.v.place, p.slots, p.v.index, e);
    OverflowMarks(g, p.v.place, p.slots, p.marked, e, Unused, p.v.place[e], p.marked + {e});
    assert p.v.place[e := p.v.place[e]] == p.v.place;
    PendingMarked(p.next, p.heads, p.v.chains, p.v.place, p.pending, p.marked, b, e);
  }

  lemma PendingMarked(next: map<Entry, Ptr>, heads: map<Bucket, Ptr>, chains: map<Bucket, seq<Entry>>,
                      place: map<Entry, Place>,
                      pending: map<Bucket, nat>, marked: set<Entry>, b: Bucket, e: Entry)
    requires ChainsOk(next, heads, chains, place) && PendingOk(chains, pending, marked)
    requires b in chains && e in place && place[e] == Chained(b) && e !in marked
    ensures PendingOk(chains, pending[b := pending[b] + 1], marked + {e})
  {
    forall d | d in chains ensures CountMarked(chains[d], marked + {e}) == pending[b := pending[b] + 1][d] {
      assert ChainOk(next, heads[d], chains[d], place, d) && pending[d] == CountMarked(chains[d], marked);
      if d == b {
        CountOneMore(next, heads[d], chains[d], marked, e);
      } else {
        CountOther(chains[d], marked, marked + {e}, e);
      }
    }
  }

  lemma {:induction false} CountOther(chain: seq<Entry>, marked: set<Entry>, marked': set<Entry>, e: Entry)
    requires e !in chain && marked - {e} == marked' - {e}
    ensures CountMarked(chain, marked') == CountMarked(chain, marked)
  {
    if chain != [] {
      var x := chain[0];
      assert x in marked <==> x in marked - {e};
      assert x in marked' <==> x in marked' - {e};
      CountOther(chain[1..], marked, marked', e);
    }
  }

  lemma {:induction false} CountOneMore(next: map<Entry, Ptr>, head: Ptr, chain: seq<Entry>, marked: set<Entry>,
                                        e: Entry)
    requires List(next, head, chain) && e in chain && e !in marked
    ensures CountMarked(chain, marked + {e}) == CountMarked(chain, marked) + 1
    decreases |chain|
  {
    if chain[0] == e {
      CountOther(chain[1..], marked, marked + {e}, e);
    } else {
      CountOneMore(next, next[chain[0]], chain[1..], marked, e);
    }
  }

  // ----- sweeping

  lemma CountIsPending(p: Parts, b: Bucket)
    requires b in p.pending
    ensures Counting(p, b, p.pending[b]) == p
  {
  }

  lemma CountStaged(p: Parts, b: Bucket, count: nat)
    ensures Counting(p.(pending := p.pending[b := 0]), b, count) == Counting(p, b, count)
  {
  }

  lemma AgreeUpdate(m: map<Bucket, seq<Entry>>, n: map<Bucket, seq<Entry>>, b: Bucket)
    requires AgreeOff(m, n, b) && b in n
    ensures n == m[b := n[b]]
  {
  }

  lemma PassedNext(chain: seq<Entry>, marked: set<Entry>, prev: Ptr, j: nat)
    requires j < |chain| && Passed(chain, marked, prev, To(chain[j]), j) && chain[j] !in marked
    ensures Passed(chain, marked, To(chain[j]), At(chain, j + 1), j + 1)
  {
  }

  lemma CountUnlinked(p: Parts, b: Bucket, prev: Ptr, e: Entry, count: nat)
    requires b in p.heads && b in p.v.chains && e in p.next && count > 0
    ensures Counting(Unlinked(Counting(p, b, count), b, prev, e), b, count - 1) ==
      Counting(Unlinked(p, b, prev, e), b, count - 1)
  {
  }

  lemma WalkStart(g: Geometry, p: Parts, b: Bucket, count: nat)
    requires SoundAs(g, p, b, count) && b in p.v.chains
    ensures b in p.heads && Passed(p.v.chains[b], p.marked, Null, p.heads[b], 0)
  {
    var q := Counting(p, b, count);
    assert Sound(g, q);
    assert ChainOk(q.next, q.heads[b], q.v.chains[b], q.v.place, b);
  }

  lemma WalkFacts(g: Geometry, p: Parts, b: Bucket, count: nat, prev: Ptr, j: nat)
    requires SoundAs(g, p, b, count) && b in p.v.chains && j < |p.v.chains[b]|
    ensures b in p.heads && p.v.chains[b][j] in p.next && p.next[p.v.chains[b][j]] == At(p.v.chains[b], j + 1)
    ensures j > 0 ==> p.v.chains[b][j - 1] in p.next
  {
    var q := Counting(p, b, count);
    assert Sound(g, q);
    assert ChainOk(q.next, q.heads[b], q.v.chains[b], q.v.place, b);
    ListAt(p.next, p.heads[b], p.v.chains[b], j);
    if j > 0 { ListAt(p.next, p.heads[b], p.v.chains[b], j - 1); }
  }

  lemma {:induction false} Distinct(next: map<Entry, Ptr>, head: Ptr, s: seq<Entry>, i: nat, j: nat)
    requires List(next, head, s) && i < j < |s|
    ensures s[i] != s[j]
    decreases |s|
  {
    if i == 0 {
      assert s[j] == s[1..][j - 1];
    } else {
      Distinct(next, next[s[0]], s[1..], i - 1, j - 1);
    }
  }

  lemma {:induction false} WithoutAt(next: map<Entry, Ptr>, head: Ptr, s: seq<Entry>, j: nat)
    requires List(next, head, s) && j < |s|
    ensures Without(s, s[j]) == s[..j] + s[j + 1..]
    decreases |s|
  {
    if j > 0 {
      Distinct(next, head, s, 0, j);
      WithoutAt(next, next[s[0]], s[1..], j - 1);
      assert s[1..][..j - 1] == s[1..j] && s[1..][j..] == s[j + 1..];
      assert s[..j] == [s[0]] + s[1..j];
    }
  }

  lemma {:induction false} LiveWithout(next: map<Entry, Ptr>, head: Ptr, s: seq<Entry>, marked: set<Entry>, e: Entry)
    requires List(next, head, s) && e in s && e in marked
    ensures Live(Without(s, e), marked - {e}) == Live(s, marked)
    ensures CountMarked(Without(s, e), marked - {e}) == CountMarked(s, marked) - 1
    decreases |s|
  {
    if s[0] == e {
      LiveOther(s[1..], marked, e);
      CountOther(s[1..], marked, marked - {e}, e);
    } else {
      LiveWithout(next, next[s[0]], s[1..], marked, e);
      assert Without(s, e)[1..] == Without(s[1..], e);
    }
  }

  lemma {:induction false} LiveOther(s: seq<Entry>, marked: set<Entry>, e: Entry)
    requires e !in s
    ensures Live(s, marked - {e}) == Live(s, marked)
  {
    if s != [] { LiveOther(s[1..], marked, e); }
  }

  /** The chain the entry is taken from. */
  lemma UnlinkChain(next: map<Entry, Ptr>, heads: map<Bucket, Ptr>, chain: seq<Entry>, place: map<Entry, Place>,
                    b: Bucket, j: nat)
    requires b in heads && ChainOk(next, heads[b], chain, place, b) && j < |chain| && chain[j] in next
    ensures j == 0 ==> ChainOk(next, next[chain[j]], Without(chain, chain[j]), place[chain[j] := Waiting], b)
    ensures j > 0 ==> ChainOk(next[chain[j - 1] := next[chain[j]]], heads[b], Without(chain, chain[j]),
                              place[chain[j] := Waiting], b)
  {
    var e := chain[j];
    forall x ensures x in Without(chain, e) <==> x in chain && x != e { WithoutMember(next, heads[b], chain, e, x); }
    if j == 0 {
      assert Without(chain, e) == chain[1..];
    } else {
      ListAt(next, heads[b], chain, j - 1);
      ListBypass(next, heads[b], chain, chain[j - 1], e);
    }
  }

  /** Another chain. */
  lemma UnlinkOther(next: map<Entry, Ptr>, head: Ptr, chain: seq<Entry>, place: map<Entry, Place>, d: Bucket,
                    b: Bucket, prev: Entry, e: Entry, q: Ptr)
    requires ChainOk(next, head, chain, place, d) && d != b
    requires prev in place && place[prev] == Chained(b) && e in place && place[e] == Chained(b)
    ensures ChainOk(next, head, chain, place[e := Waiting], d)
      && ChainOk(next[prev := q], head, chain, place[e := Waiting], d)
  {
    ListFrame(next, head, chain, prev, q);
  }

  lemma UnlinkChains(p: Parts, b: Bucket, prev: Ptr, j: nat)
    requires ChainsOk(p.next, p.heads, p.v.chains, p.v.place) && b in p.v.chains && j < |p.v.chains[b]|
      && p.v.chains[b][j] in p.next
    requires prev == (if j == 0 then Null else To(p.v.chains[b][j - 1]))
    ensures b in p.heads
    ensures var u := Unlinked(p, b, prev, p.v.chains[b][j]); ChainsOk(u.next, u.heads, u.v.chains, u.v.place)
  {
    var chain := p.v.chains[b];
    var e := chain[j];
    var u := Unlinked(p, b, prev, e);
    assert ChainOk(p.next, p.heads[b], chain, p.v.place, b);
    assert e in chain && (j > 0 ==> chain[j - 1] in chain);
    forall d | d in u.v.chains ensures ChainOk(u.next, u.heads[d], u.v.chains[d], u.v.place, d) {
      if d == b {
        UnlinkChain(p.next, p.heads, chain, p.v.place, b, j);
      } else {
        assert ChainOk(p.next, p.heads[d], p.v.chains[d], p.v.place, d);
        var before := if j == 0 then e else chain[j - 1];
        UnlinkOther(p.next, p.heads[d], p.v.chains[d], p.v.place, d, b, before, e, p.next[e]);
      }
    }
  }

  lemma UnlinkPending(next: map<Entry, Ptr>, heads: map<Bucket, Ptr>, chains: map<Bucket, seq<Entry>>,
                      place: map<Entry, Place>,
                      pending: map<Bucket, nat>, marked: set<Entry>, b: Bucket, e: Entry)
    requires ChainsOk(next, heads, chains, place) && PendingOk(chains, pending, marked) && b in chains
      && e in chains[b] && e in marked
    ensures pending[b] > 0 && PendingOk(chains[b := Without(chains[b], e)], pending[b := pending[b] - 1], marked - {e})
    ensures Live(Without(chains[b], e), marked - {e}) == Live(chains[b], marked)
  {
    assert ChainOk(next, heads[b], chains[b], place, b) && pending[b] == CountMarked(chains[b], marked);
    LiveWithout(next, heads[b], chains[b], marked, e);
    var chains', pending' := chains[b := Without(chains[b], e)], pending[b := pending[b] - 1];
    forall d | d in pending' ensures pending'[d] == CountMarked(chains'[d], marked - {e}) {
      if d != b {
        assert ChainOk(next, heads[d], chains[d], place, d) && pending[d] == CountMarked(chains[d], marked);
        CountOther(chains[d], marked, marked - {e}, e);
      }
    }
  }

  lemma UnlinkKeys(g: Geometry, place: map<Entry, Place>, slots: seq<Slot>, index: map<Key, Entry>, e: Entry)
    requires KeysOk(g, place, slots, index) && e < |slots| && slots[e].Unused?
    ensures KeysOk(g, place[e := Waiting], slots, index)
  {
  }

  lemma UnlinkFree(next: map<Entry, Ptr>, head: Ptr, free: seq<Entry>, place: map<Entry, Place>, prev: Ptr, e: Entry,
                   q: Ptr, b: Bucket)
    requires FreeOk(next, head, free, place) && e in place && place[e] == Chained(b)
    requires prev.To? ==> prev.e in place && place[prev.e] == Chained(b)
    ensures FreeOk(if prev.Null? then next else next[prev.e := q], head, free, place[e := Waiting])
  {
    if prev.To? { ListFrame(next, head, free, prev.e, q); }
  }

  lemma UnlinkFacts(g: Geometry, p: Parts, b: Bucket, j: nat)
    requires Sound(g, p) && b in p.v.chains && j < |p.v.chains[b]| && p.v.chains[b][j] in p.marked
    ensures var e := p.v.chains[b][j];
            e in p.v.place && p.v.place[e] == Chained(b) && g.IsOverflow(e) && p.slots[e].Unused? && e in p.next
    ensures j > 0 ==> p.v.chains[b][j - 1] in p.v.place && p.v.place[p.v.chains[b][j - 1]] == Chained(b)
  {
    var chain := p.v.chains[b];
    var e := chain[j];
    assert ChainOk(p.next, p.heads[b], chain, p.v.place, b);
    assert e in chain && (j > 0 ==> chain[j - 1] in chain);
    assert e in p.next && g.IsOverflow(e);
    assert MarkOk(p.slots[e], p.v.place[e], e in p.marked);
  }

  lemma UnlinkMarks(g: Geometry, place: map<Entry, Place>, slots: seq<Slot>, marked: set<Entry>, e: Entry)
    requires |slots| == g.entries + g.oentries && MarksOk(g, place, slots, marked) && e in place && e < |slots|
      && slots[e].Unused?
    ensures MarksOk(g, place[e := Waiting], slots, marked - {e})
  {
  }

  lemma UnlinkLists(g: Geometry, p: Parts, b: Bucket, prev: Ptr, j: nat)
    requires Sound(g, p) && b in p.v.chains && j < |p.v.chains[b]| && p.v.chains[b][j] in p.marked
      && p.v.chains[b][j] in p.next
    requires b in p.heads && prev == (if j == 0 then Null else To(p.v.chains[b][j - 1]))
    ensures var u := Unlinked(p, b, prev, p.v.chains[b][j]);
            Shape(g, u) && FreeOk(u.next, u.freeHead, u.v.free, u.v.place)
              && ChainsOk(u.next, u.heads, u.v.chains, u.v.place)
  {
    var e := p.v.chains[b][j];
    UnlinkFacts(g, p, b, j);
    UnlinkChains(p, b, prev, j);
    UnlinkFree(p.next, p.freeHead, p.v.free, p.v.place, prev, e, p.next[e], b);
    assert j > 0 ==> p.v.chains[b][j - 1] in p.next;
  }

  lemma UnlinkSound(g: Geometry, p: Parts, b: Bucket, prev: Ptr, j: nat)
    requires Sound(g, p) && b in p.v.chains && j < |p.v.chains[b]| && p.v.chains[b][j] in p.marked
      && p.v.chains[b][j] in p.next
    requires b in p.heads && prev == (if j == 0 then Null else To(p.v.chains[b][j - 1]))
    ensures b in p.pending && p.pending[b] > 0
    ensures Sound(g, Counting(Unlinked(p, b, prev, p.v.chains[b][j]), b, p.pending[b] - 1))
  {
    var e := p.v.chains[b][j];
    UnlinkFacts(g, p, b, j);
    UnlinkLists(g, p, b, prev, j);
    UnlinkPending(p.next, p.heads, p.v.chains, p.v.place, p.pending, p.marked, b, e);
    UnlinkKeys(g, p.v.place, p.slots, p.v.index, e);
    UnlinkMarks(g, p.v.place, p.slots, p.marked, e);
  }

  /** Taking out the entry at position `j` leaves the same live entries, and the deleter where it was. */
  lemma UnlinkLive(g: Geometry, p: Parts, b: Bucket, prev: Ptr, j: nat)
    requires Sound(g, p) && b in p.v.chains && j < |p.v.chains[b]| && p.v.chains[b][j] in p.marked
    requires Passed(p.v.chains[b], p.marked, prev, To(p.v.chains[b][j]), j)
    ensures var chain := p.v.chains[b]; var e := chain[j];
            && Live(Without(chain, e), p.marked - {e}) == Live(chain, p.marked)
            && |Without(chain, e)| == |chain| - 1 && e in p.next
            && Passed(Without(chain, e), p.marked - {e}, prev, p.next[e], j)
  {
    var chain := p.v.chains[b];
    assert ChainOk(p.next, p.heads[b], chain, p.v.place, b);
    assert chain[j] in chain;
    LiveWithout(p.next, p.heads[b], chain, p.marked, chain[j]);
    WithoutAt(p.next, p.heads[b], chain, j);
    ListAt(p.next, p.heads[b], chain, j);
  }

  lemma {:induction false} NoneMarked(s: seq<Entry>, marked: set<Entry>)
    requires CountMarked(s, marked) == 0
    ensures Live(s, marked) == s
  {
    if s != [] { NoneMarked(s[1..], marked); }
  }

  lemma {:induction false} NoneCounted(s: seq<Entry>, marked: set<Entry>)
    requires forall x {:trigger s[x]} :: 0 <= x < |s| ==> s[x] !in marked
    ensures CountMarked(s, marked) == 0
  {
    if s != [] {
      assert s[0] !in marked;
      assert forall x {:trigger s[1..][x]} :: 0 <= x < |s[1..]| ==> s[1..][x] == s[x + 1];
      NoneCounted(s[1..], marked);
    }
  }

  lemma SweepDone(g: Geometry, p: Parts, b: Bucket, j: nat)
    requires Sound(g, p) && b in p.v.chains && b in p.pending
    requires p.pending[b] == 0 || (j == |p.v.chains[b]| && forall x :: 0 <= x < j ==> p.v.chains[b][x] !in p.marked)
    ensures p.pending[b] == 0 && Live(p.v.chains[b], p.marked) == p.v.chains[b]
  {
    assert p.pending[b] == CountMarked(p.v.chains[b], p.marked);
    if p.pending[b] != 0 { NoneCounted(p.v.chains[b], p.marked); }
    NoneMarked(p.v.chains[b], p.marked);
  }

  // ----- back to the free list, after the grace period

  ghost function Returned(p: Parts, e: Entry): Parts
  {
    p.(next := p.next[e := p.freeHead], freeHead := To(e),
       v := p.v.(free := [e] + p.v.free, place := p.v.place[e := Free]))
  }

  lemma ReturnChain(next: map<Entry, Ptr>, head: Ptr, chain: seq<Entry>, place: map<Entry, Place>, d: Bucket,
                    e: Entry, q: Ptr)
    requires ChainOk(next, head, chain, place, d) && e in place && place[e] == Waiting
    ensures ChainOk(next[e := q], head, chain, place[e := Free], d)
  {
    ListFrame(next, head, chain, e, q);
  }

  lemma ReturnLists(p: Parts, e: Entry)
    requires FreeOk(p.next, p.freeHead, p.v.free, p.v.place) && ChainsOk(p.next, p.heads, p.v.chains, p.v.place)
    requires e in p.next && e in p.v.place && p.v.place[e] == Waiting
    ensures var u := Returned(p, e);
      FreeOk(u.next, u.freeHead, u.v.free, u.v.place) && ChainsOk(u.next, u.heads, u.v.chains, u.v.place)
  {
    var u := Returned(p, e);
    assert e !in p.v.free;
    ListFrame(p.next, p.freeHead, p.v.free, e, p.freeHead);
    ListPush(u.next, p.freeHead, p.v.free, e);
    forall d | d in u.v.chains ensures ChainOk(u.next, u.heads[d], u.v.chains[d], u.v.place, d) {
      ReturnChain(p.next, p.heads[d], p.v.chains[d], p.v.place, d, e, p.freeHead);
    }
  }

  lemma ReturnSound(g: Geometry, p: Parts, e: Entry)
    requires Sound(g, p) && e in p.v.place && p.v.place[e] == Waiting
    ensures Sound(g, Returned(p, e))
  {
    assert e in p.next && g.IsOverflow(e) && MarkOk(p.slots[e], p.v.place[e], e in p.marked);
    ReturnLists(p, e);
    OverflowMarks(g, p.v.place, p.slots, p.marked, e, Unused, Free, p.marked);
    assert p.slots[e := Unused] == p.slots;
    forall k | k in p.v.index
      ensures p.v.index[k] < |p.slots| && p.slots[p.v.index[k]] == Used(k)
        && Home(g, p.v.place[e := Free], p.v.index[k], k)
    {
      assert p.v.index[k] != e && Home(g, p.v.place, p.v.index[k], k);
    }
  }

  // ----- a new table

  function NewParts(g: Geometry): Parts
    requires g.Sane()
  {
    var last, buckets := g.entries + g.oentries, g.entries / g.size;
    Parts(
      seq(last, _ => Unused),
      Filled(0, buckets, Null),
      Linked(g.entries, last, Null),
      if g.oentries > 0 then To(g.entries) else Null,
      {},
      Filled(0, buckets, 0),
      View(map[], Filled(0, buckets, []), seq(g.oentries, i => i + g.entries), Filled(g.entries, last, Free)))
  }

  lemma NewFree(g: Geometry)
    requires g.Sane()
    ensures var p := NewParts(g); FreeOk(p.next, p.freeHead, p.v.free, p.v.place)
  {
    var p := NewParts(g);
    InitList(p.next, g.entries + g.oentries, g.entries);
    forall e ensures e in p.v.free <==> e in p.v.place && p.v.place[e] == Free {
      if e in p.v.place { assert p.v.free[e - g.entries] == e; }
    }
  }

  lemma NewSound(g: Geometry)
    requires g.Sane()
    ensures Sound(g, NewParts(g))
  {
    var p := NewParts(g);
    NewFree(g);
    forall b | b in p.v.chains ensures ChainOk(p.next, p.heads[b], p.v.chains[b], p.v.place, b) {
      assert List(p.next, Null, []);
    }
  }
}
