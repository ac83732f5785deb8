/**
 * Singly linked lists of numbered entries: what the pointers reachable from a head stand for,
 * and what one pointer store does to it.
 */
module Lists {

  type Entry = nat

  datatype Ptr = Null | To(e: Entry)

  /** From `head` the pointers lead through the entries of `s`, each once, and end at null. */
  ghost predicate List(next: map<Entry, Ptr>, head: Ptr, s: seq<Entry>)
    decreases |s|
  {
    if s == [] then head == Null
    else head == To(s[0]) && s[0] in next && s[0] !in s[1..] && List(next, next[s[0]], s[1..])
  }

  lemma {:induction false} ListFrame(next: map<Entry, Ptr>, head: Ptr, s: seq<Entry>, e: Entry, p: Ptr)
    requires List(next, head, s) && e !in s
    ensures List(next[e := p], head, s)
    decreases |s|
  {
    if s != [] {
      assert forall x :: x in s[1..] ==> x in s;
      ListFrame(next, next[s[0]], s[1..], e, p);
    }
  }

  lemma ListPush(next: map<Entry, Ptr>, head: Ptr, s: seq<Entry>, e: Entry)
    requires List(next, head, s) && e !in s && e in next && next[e] == head
    ensures List(next, To(e), [e] + s)
  {
  }

  /** Inside a list the successor of a member is another member. */
  lemma {:induction false} ListNext(next: map<Entry, Ptr>, head: Ptr, s: seq<Entry>, e: Entry)
    requires List(next, head, s) && e in s
    ensures e in next && (next[e].To? ==> next[e].e in s && next[e].e != e)
    decreases |s|
  {
    if e == s[0] {
      if s[1..] != [] {
        assert s[1..][0] in s[1..];
      }
    } else {
      assert e in s[1..];
      ListNext(next, next[s[0]], s[1..], e);
      assert forall x :: x in s[1..] ==> x in s;
    }
  }

  function Without(s: seq<Entry>, e: Entry): (r: seq<Entry>)
  {
    if s == [] then [] else if s[0] == e then s[1..] else [s[0]] + Without(s[1..], e)
  }

  lemma {:induction false} WithoutMember(next: map<Entry, Ptr>, head: Ptr, s: seq<Entry>, e: Entry, x: Entry)
    requires List(next, head, s)
    ensures x in Without(s, e) <==> x in s && x != e
    decreases |s|
  {
    if s != [] {
      assert x in s <==> x == s[0] || x in s[1..];
      if s[0] != e {
        WithoutMember(next, next[s[0]], s[1..], e, x);
      }
    }
  }

  /** Storing the successor of `e` into its predecessor takes exactly `e` out of the list. */
  lemma {:induction false} ListBypass(next: map<Entry, Ptr>, head: Ptr, s: seq<Entry>, p: Entry, e: Entry)
    requires List(next, head, s) && p in s && e in s && p in next && e in next && next[p] == To(e)
    ensures List(next[p := next[e]], head, Without(s, e))
    decreases |s|
  {
    ListNext(next, head, s, p);
    var r := s[1..];
    if s[0] == p {
      assert r[0] == e;
      assert Without(s, e) == [p] + r[1..];
      assert ([p] + r[1..])[1..] == r[1..];
      assert p !in r[1..] by { assert forall x :: x in r[1..] ==> x in r; }
      ListFrame(next, next[e], r[1..], p, next[e]);
    } else {
      assert p in r;
      ListNext(next, next[s[0]], r, p);
      assert e in r && e != s[0];
      ListBypass(next, next[s[0]], r, p, e);
      WithoutMember(next, next[s[0]], r, e, s[0]);
      assert ([s[0]] + Without(r, e))[1..] == Without(r, e);
    }
  }

  ghost predicate AgreeOff<V>(m: map<Entry, V>, n: map<Entry, V>, e: Entry)
  {
    m.Keys == n.Keys && forall x {:trigger m[x]} {:trigger n[x]} :: x in m && x != e ==> m[x] == n[x]
  }

  lemma {:induction false} ListAgree(next: map<Entry, Ptr>, n: map<Entry, Ptr>, head: Ptr, s: seq<Entry>, e: Entry)
    requires List(next, head, s) && e !in s && AgreeOff(next, n, e)
    ensures List(n, head, s)
    decreases |s|
  {
    if s != [] {
      assert forall x :: x in s[1..] ==> x in s;
      ListAgree(next, n, next[s[0]], s[1..], e);
    }
  }

  function Range(n: nat): (r: set<Entry>)
    ensures |r| == n && forall e: nat :: e in r <==> e < n
  {
    if n == 0 then {} else Range(n - 1) + {n - 1}
  }

  /** The numbers from `low` to below `high`, all with the same value. */
  function Filled<V>(low: nat, high: nat, v: V): (m: map<nat, V>)
    ensures forall e: nat {:trigger e in m} :: e in m <==> low <= e < high
    ensures forall e {:trigger m[e]} :: e in m ==> m[e] == v
    decreases high
  {
    if low >= high then map[] else Filled(low, high - 1, v)[high - 1 := v]
  }

  /** Each of the entries from `low` to below `high` points to the next; the last one to `last`. */
  function Linked(low: nat, high: nat, last: Ptr): (m: map<Entry, Ptr>)
    ensures forall e: nat {:trigger e in m} :: e in m <==> low <= e < high
    ensures forall e {:trigger m[e]} :: e in m ==> m[e] == if e + 1 < high then To(e + 1) else last
    decreases high
  {
    if low >= high then map[] else Linked(low, high - 1, To(high - 1))[high - 1 := last]
  }

  lemma {:induction false} InitList(next: map<Entry, Ptr>, size: nat, k: nat)
    requires k <= size
    requires forall e :: k <= e < size ==> e in next && next[e] == if e + 1 < size then To(e + 1) else Null
    ensures List(next, if k < size then To(k) else Null, seq(size - k, i => i + k))
    decreases size - k
  {
    if k < size {
      InitList(next, size, k + 1);
      assert seq(size - k, i => i + k)[1..] == seq(size - k - 1, i => i + (k + 1));
    }
  }

  /** Where a walk is after `j` entries. */
  function At(s: seq<Entry>, j: nat): Ptr
    requires j <= |s|
  {
    if j < |s| then To(s[j]) else Null
  }

  lemma {:induction false} ListAt(next: map<Entry, Ptr>, head: Ptr, s: seq<Entry>, j: nat)
    requires List(next, head, s) && j < |s|
    ensures s[j] in next && next[s[j]] == At(s, j + 1)
    decreases |s|
  {
    if j > 0 { ListAt(next, next[s[0]], s[1..], j - 1); }
  }
}
