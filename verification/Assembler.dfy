/**
 * One list of the fragment assembler: fragments whose head has not been seen are parked on
 * an entry for their datagram, flushed when the head comes, and dropped when the entry is
 * too old. Time is a 32-bit clock that wraps.
 */
module Assembler {
  import opened Words

  type Key = nat       // VRF, addresses and identification of a datagram
  type Packet = nat

  datatype Frag = Frag(key: Key, time: nat, parked: seq<Packet>)

  /** What becomes of a packet: passed on as the flow is known by now, flushed from its entry, dropped, timed out. */
  datatype Fate = Bypassed | Flushed | Dropped | TimedOut

  datatype Out = Out(key: Key, packet: Packet, fate: Fate)

  datatype Event =
    | Arrive(key: Key, packet: Packet, isHead: bool, known: bool, now: nat)
    | Scan(clock: nat -> nat)

  datatype Limits = Limits(entries: nat, timeout: nat)

  // ----- the clock

  /** The test of the scan, on 32-bit values. */
  predicate Expired(time: nat, now: nat, timeout: nat)
  {
    var dest := Add(time, timeout);
    if dest < time then now < time && dest < now
    else now > dest || now < time
  }

  /** Its two branches together say that the time elapsed, modulo the wrap, exceeds the timeout. */
  lemma ExpiredIsElapsed(time: nat, now: nat, timeout: nat)
    requires time < WRAP && now < WRAP && timeout < WRAP
    ensures Expired(time, now, timeout) <==> (now - time) % WRAP > timeout
  {
  }

  // ----- the list

  predicate Has(list: seq<Frag>, key: Key)
  {
    list != [] && (list[0].key == key || Has(list[1..], key))
  }

  /** No two entries for one datagram. */
  predicate Distinct(list: seq<Frag>)
  {
    list == [] || (!Has(list[1..], list[0].key) && Distinct(list[1..]))
  }

  function QueueOf(list: seq<Frag>, key: Key): seq<Packet>
  {
    if list == [] then [] else if list[0].key == key then list[0].parked else QueueOf(list[1..], key)
  }

  function Park(list: seq<Frag>, key: Key, p: Packet, now: nat): seq<Frag>
  {
    if list == [] then []
    else if list[0].key == key then [Frag(key, now, list[0].parked + [p])] + list[1..]
    else [list[0]] + Park(list[1..], key, p, now)
  }

  function Remove(list: seq<Frag>, key: Key): seq<Frag>
  {
    if list == [] then [] else if list[0].key == key then list[1..] else [list[0]] + Remove(list[1..], key)
  }

  function Outs(key: Key, ps: seq<Packet>, fate: Fate): (r: seq<Out>)
    ensures |r| == |ps|
  {
    if ps == [] then [] else [Out(key, ps[0], fate)] + Outs(key, ps[1..], fate)
  }

  /** The entries a scan keeps, in order; `now(k)` is the clock when `k` entries are still to be looked at. */
  function Young(list: seq<Frag>, now: nat -> nat, timeout: nat): seq<Frag>
  {
    if list == [] then []
    else if Expired(list[0].time, now(|list|), timeout) then Young(list[1..], now, timeout)
    else [list[0]] + Young(list[1..], now, timeout)
  }

  /** The packets a scan frees: those parked on expired entries. */
  function Freed(list: seq<Frag>, now: nat -> nat, timeout: nat): seq<Out>
  {
    if list == [] then []
    else
      var freed := Freed(list[1..], now, timeout);
      (if Expired(list[0].time, now(|list|), timeout) then Outs(list[0].key, list[0].parked, TimedOut) else []) + freed
  }

  // ----- one event

  /** The packet of the event ends up parked. */
  predicate Parks(l: Limits, list: seq<Frag>, e: Event)
  {
    e.Arrive? && !e.isHead && !e.known && (Has(list, e.key) || |list| <= l.entries)
  }

  function After(l: Limits, list: seq<Frag>, e: Event): seq<Frag>
  {
    match e
    case Scan(now) => Young(list, now, l.timeout)
    case Arrive(key, p, isHead, known, now) =>
      if !isHead && known then list
      else if !Has(list, key) then if isHead || |list| > l.entries then list else [Frag(key, now, [p])] + list
      else if isHead then Remove(list, key)
      else Park(list, key, p, now)
  }

  function Result(l: Limits, list: seq<Frag>, e: Event): seq<Out>
  {
    match e
    case Scan(now) => Freed(list, now, l.timeout)
    case Arrive(key, p, isHead, known, now) =>
      if !isHead && known then [Out(key, p, Bypassed)]
      else if !Has(list, key) then if isHead || |list| > l.entries then [Out(key, p, Dropped)] else []
      else if isHead then [Out(key, p, Dropped)] + Outs(key, QueueOf(list, key), Flushed)
      else []
  }

  // ----- in place

  /** `i` is the first place of a key. */
  predicate First(list: seq<Frag>, key: Key, i: nat)
  {
    i < |list| && list[i].key == key && forall j {:trigger list[j]} :: 0 <= j < i ==> list[j].key != key
  }

  lemma FirstOfRest(list: seq<Frag>, key: Key, i: nat)
    requires First(list, key, i) && i > 0
    ensures list[0].key != key && First(list[1..], key, i - 1) && list[1..][i - 1] == list[i]
  {
  }

  lemma {:induction false} FirstFound(list: seq<Frag>, key: Key, i: nat)
    requires First(list, key, i)
    ensures Has(list, key) && QueueOf(list, key) == list[i].parked
    decreases |list|
  {
    if i > 0 {
      FirstOfRest(list, key, i);
      FirstFound(list[1..], key, i - 1);
    }
  }

  lemma {:induction false} FirstPark(list: seq<Frag>, key: Key, i: nat, p: Packet, now: nat)
    requires First(list, key, i)
    ensures Park(list, key, p, now) == list[i := Frag(key, now, list[i].parked + [p])]
    decreases |list|
  {
    if i > 0 {
      FirstOfRest(list, key, i);
      FirstPark(list[1..], key, i - 1, p, now);
    }
  }

  lemma {:induction false} FirstRemove(list: seq<Frag>, key: Key, i: nat)
    requires First(list, key, i)
    ensures Remove(list, key) == list[..i] + list[i + 1..]
    decreases |list|
  {
    if i > 0 {
      FirstOfRest(list, key, i);
      FirstRemove(list[1..], key, i - 1);
      assert list[..i] == [list[0]] + list[1..][..i - 1] && list[1..][i..] == list[i + 1..];
    }
  }

  lemma {:induction false} Nowhere(list: seq<Frag>, key: Key)
    requires forall j {:trigger list[j]} :: 0 <= j < |list| ==> list[j].key != key
    ensures !Has(list, key)
  {
    if list != [] {
      assert list[0].key != key;
      assert forall j {:trigger list[1..][j]} :: 0 <= j < |list| - 1 ==> list[1..][j] == list[j + 1];
      Nowhere(list[1..], key);
    }
  }

  lemma Assoc<T>(a: seq<T>, b: seq<T>, c: seq<T>)
    ensures (a + b) + c == a + (b + c)
  {
  }

  lemma ScanStep(kept: seq<Frag>, out: seq<Out>, rest: seq<Frag>, now: nat -> nat, timeout: nat)
    requires rest != []
    ensures var young, freed := Young(rest[1..], now, timeout), Freed(rest[1..], now, timeout);
            if Expired(rest[0].time, now(|rest|), timeout) then
              && kept + Young(rest, now, timeout) == kept + young
              && out + Freed(rest, now, timeout) == (out + Outs(rest[0].key, rest[0].parked, TimedOut)) + freed
            else
              && kept + Young(rest, now, timeout) == (kept + [rest[0]]) + young
              && out + Freed(rest, now, timeout) == out + freed
  {
    var young, freed := Young(rest[1..], now, timeout), Freed(rest[1..], now, timeout);
    Assoc(kept, [rest[0]], young);
    Assoc(out, Outs(rest[0].key, rest[0].parked, TimedOut), freed);
    assert [] + freed == freed;
  }

  class Table {
    const l: Limits
    var list: seq<Frag>

    constructor (l: Limits)
      ensures list == [] && this.l == l
    {
      this.l := l;
      list := [];
    }

    method Search(key: Key) returns (i: nat)
      ensures i <= |list| && (i < |list| <==> Has(list, key))
      ensures i < |list| ==> First(list, key, i)
    {
      i := 0;
      while i < |list| && list[i].key != key
        invariant i <= |list| && forall j {:trigger list[j]} :: 0 <= j < i ==> list[j].key != key
      {
        i := i + 1;
      }
      if i < |list| { FirstFound(list, key, i); } else { Nowhere(list, key); }
    }

    /** Flushes an entry's packets from the front of its queue, one by one. */
    method Flush(i: nat) returns (out: seq<Out>)
      requires i < |list|
      modifies this
      ensures list == old(list)[i := old(list)[i].(parked := [])]
      ensures out == Outs(old(list)[i].key, old(list)[i].parked, Flushed)
    {
      var f := list[i];
      out := [];
      var queue := f.parked;
      while queue != []
        invariant out + Outs(f.key, queue, Flushed) == Outs(f.key, f.parked, Flushed)
        decreases |queue|
      {
        out := out + [Out(f.key, queue[0], Flushed)];
        queue := queue[1..];
      }
      list := list[i := f.(parked := [])];
    }

    method Assemble(key: Key, p: Packet, isHead: bool, known: bool, now: nat) returns (out: seq<Out>)
      modifies this
      ensures list == After(l, old(list), Arrive(key, p, isHead, known, now))
      ensures out == Result(l, old(list), Arrive(key, p, isHead, known, now))
    {
      var i := Search(key);
      if !isHead && known {
        return [Out(key, p, Bypassed)];
      }
      if i == |list| {
        if isHead || |list| > l.entries {
          return [Out(key, p, Dropped)];
        }
        list := [Frag(key, now, [p])] + list;
        return [];
      }
      FirstFound(list, key, i);
      if !isHead {
        FirstPark(list, key, i, p, now);
        list := list[i := Frag(key, now, list[i].parked + [p])];
        return [];
      }
      FirstRemove(list, key, i);
      var flushed := Flush(i);
      list := list[..i] + list[i + 1..];
      out := [Out(key, p, Dropped)] + flushed;
    }

    /** Frees the expired entries with all their packets and keeps the others in order. */
    method ScanAll(now: nat -> nat) returns (out: seq<Out>)
      modifies this
      ensures list == After(l, old(list), Scan(now)) && out == Result(l, old(list), Scan(now))
    {
      out := [];
      var kept, rest := [], list;
      while rest != []
        invariant list == old(list)
        invariant kept + Young(rest, now, l.timeout) == Young(list, now, l.timeout)
        invariant out + Freed(rest, now, l.timeout) == Freed(list, now, l.timeout)
        decreases |rest|
      {
        ScanStep(kept, out, rest, now, l.timeout);
        if Expired(rest[0].time, now(|rest|), l.timeout) {
          out := out + Outs(rest[0].key, rest[0].parked, TimedOut);
        } else {
          kept := kept + [rest[0]];
        }
        rest := rest[1..];
      }
      assert kept == Young(list, now, l.timeout) && out == Freed(list, now, l.timeout);
      list := kept;
    }
  }

  // ----- whole runs

  function State(l: Limits, events: seq<Event>): seq<Frag>
  {
    if events == [] then [] else After(l, State(l, events[..|events| - 1]), events[|events| - 1])
  }

  function Log(l: Limits, events: seq<Event>): seq<Out>
  {
    if events == [] then []
    else
      var before := events[..|events| - 1];
      Log(l, before) + Result(l, State(l, before), events[|events| - 1])
  }

  // ----- at most one entry a datagram, at most one more entry than the limit

  lemma {:induction false} ParkKeeps(list: seq<Frag>, key: Key, p: Packet, now: nat, k: Key)
    ensures Has(Park(list, key, p, now), k) == Has(list, k) && |Park(list, key, p, now)| == |list|
    ensures Distinct(list) ==> Distinct(Park(list, key, p, now))
  {
    if list != [] {
      ParkKeeps(list[1..], key, p, now, k);
      ParkKeeps(list[1..], key, p, now, list[0].key);
    }
  }

  lemma {:induction false} RemoveKeeps(list: seq<Frag>, key: Key, k: Key)
    ensures Has(Remove(list, key), k) ==> Has(list, k)
    ensures |Remove(list, key)| <= |list|
    ensures Distinct(list) ==> Distinct(Remove(list, key))
  {
    if list != [] {
      RemoveKeeps(list[1..], key, k);
      RemoveKeeps(list[1..], key, list[0].key);
    }
  }

  lemma {:induction false} YoungKeeps(list: seq<Frag>, now: nat -> nat, timeout: nat, k: Key)
    ensures Has(Young(list, now, timeout), k) ==> Has(list, k)
    ensures |Young(list, now, timeout)| <= |list|
    ensures Distinct(list) ==> Distinct(Young(list, now, timeout))
  {
    if list != [] {
      YoungKeeps(list[1..], now, timeout, k);
      YoungKeeps(list[1..], now, timeout, list[0].key);
    }
  }

  lemma AfterKeeps(l: Limits, list: seq<Frag>, e: Event)
    requires Distinct(list) && |list| <= l.entries + 1
    ensures Distinct(After(l, list, e)) && |After(l, list, e)| <= l.entries + 1
  {
    match e
    case Scan(now) => YoungKeeps(list, now, l.timeout, 0);
    case Arrive(key, p, isHead, known, now) =>
      if !Has(list, key) {
        assert ([Frag(key, now, [p])] + list)[1..] == list;
      } else {
        RemoveKeeps(list, key, key);
        ParkKeeps(list, key, p, now, key);
      }
  }

  /** In every run, no datagram has two entries, and there is at most one entry more than the limit. */
  lemma {:induction false} ListIsBounded(l: Limits, events: seq<Event>)
    ensures Distinct(State(l, events)) && |State(l, events)| <= l.entries + 1
  {
    if events != [] {
      ListIsBounded(l, events[..|events| - 1]);
      AfterKeeps(l, State(l, events[..|events| - 1]), events[|events| - 1]);
    }
  }

  // ----- parked fragments leave in the order in which they were parked

  /** The packets with this key that left their entry, flushed or timed out. */
  function Left(key: Key, outs: seq<Out>): seq<Packet>
  {
    if outs == [] then []
    else Left(key, outs[..|outs| - 1]) + LeftOne(key, outs[|outs| - 1])
  }

  function LeftOne(key: Key, o: Out): seq<Packet>
  {
    if o.key == key && (o.fate.Flushed? || o.fate.TimedOut?) then [o.packet] else []
  }

  lemma {:induction false} LeftAppend(key: Key, a: seq<Out>, b: seq<Out>)
    ensures Left(key, a + b) == Left(key, a) + Left(key, b)
  {
    if b == [] {
      assert a + b == a;
    } else {
      assert (a + b)[..|a + b| - 1] == a + b[..|b| - 1];
      LeftAppend(key, a, b[..|b| - 1]);
    }
  }

  lemma {:induction false} LeftOuts(key: Key, k: Key, ps: seq<Packet>, fate: Fate)
    requires fate.Flushed? || fate.TimedOut?
    ensures Left(key, Outs(k, ps, fate)) == if k == key then ps else []
  {
    if ps != [] {
      LeftOuts(key, k, ps[1..], fate);
      LeftAppend(key, [Out(k, ps[0], fate)], Outs(k, ps[1..], fate));
      LeftSingle(key, Out(k, ps[0], fate));
    }
  }

  lemma LeftSingle(key: Key, o: Out)
    ensures Left(key, [o]) == LeftOne(key, o)
  {
  }

  /** The packets with this key that were parked. */
  function Parked(l: Limits, events: seq<Event>, key: Key): seq<Packet>
  {
    if events == [] then []
    else
      var before, e := events[..|events| - 1], events[|events| - 1];
      Parked(l, before, key) + if Parks(l, State(l, before), e) && e.key == key then [e.packet] else []
  }

  lemma {:induction false} AbsentQueue(list: seq<Frag>, key: Key)
    requires !Has(list, key)
    ensures QueueOf(list, key) == []
  {
    if list != [] { AbsentQueue(list[1..], key); }
  }

  lemma {:induction false} ParkQueue(list: seq<Frag>, key: Key, p: Packet, now: nat, k: Key)
    requires Has(list, key)
    ensures QueueOf(Park(list, key, p, now), k) == if k == key then QueueOf(list, k) + [p] else QueueOf(list, k)
  {
    if list[0].key != key { ParkQueue(list[1..], key, p, now, k); }
  }

  lemma {:induction false} RemoveQueue(list: seq<Frag>, key: Key, k: Key)
    requires Distinct(list)
    ensures QueueOf(Remove(list, key), k) == if k == key then [] else QueueOf(list, k)
  {
    if list != [] {
      if list[0].key == key { AbsentQueue(list[1..], key); } else { RemoveQueue(list[1..], key, k); }
    }
  }

  lemma {:induction false} ScanQueue(list: seq<Frag>, now: nat -> nat, timeout: nat, k: Key)
    requires Distinct(list)
    ensures Left(k, Freed(list, now, timeout)) + QueueOf(Young(list, now, timeout), k) == QueueOf(list, k)
  {
    if list != [] {
      var f, rest := list[0], list[1..];
      ScanQueue(rest, now, timeout, k);
      if f.key == k { ScanAbsent(rest, now, timeout, k); }
      if Expired(f.time, now(|list|), timeout) {
        FreedFirst(f, Freed(rest, now, timeout), k);
      } else {
        assert [] + Freed(rest, now, timeout) == Freed(rest, now, timeout);
        assert ([f] + Young(rest, now, timeout))[1..] == Young(rest, now, timeout);
      }
    }
  }

  lemma FreedFirst(f: Frag, freed: seq<Out>, k: Key)
    ensures Left(k, Outs(f.key, f.parked, TimedOut) + freed) == if f.key == k then f.parked + Left(k, freed)
      else Left(k, freed)
  {
    LeftAppend(k, Outs(f.key, f.parked, TimedOut), freed);
    LeftOuts(k, f.key, f.parked, TimedOut);
    assert [] + Left(k, freed) == Left(k, freed);
  }

  lemma ScanAbsent(rest: seq<Frag>, now: nat -> nat, timeout: nat, k: Key)
    requires Distinct(rest) && !Has(rest, k)
      && Left(k, Freed(rest, now, timeout)) + QueueOf(Young(rest, now, timeout), k) == QueueOf(rest, k)
    ensures Left(k, Freed(rest, now, timeout)) == [] && QueueOf(Young(rest, now, timeout), k) == []
  {
    AbsentQueue(rest, k);
  }

  lemma StepQueue(l: Limits, list: seq<Frag>, e: Event, k: Key)
    requires Distinct(list)
    ensures QueueOf(list, k) + (if Parks(l, list, e) && e.key == k then [e.packet] else [])
         == Left(k, Result(l, list, e)) + QueueOf(After(l, list, e), k)
  {
    if e.Scan? {
      ScanQueue(list, e.clock, l.timeout, k);
    } else if (!e.isHead && e.known) || !Has(list, e.key) {
      NewQueue(l, list, e, k);
    } else if e.isHead {
      FlushQueue(l, list, e, k);
    } else {
      ParkQueue(list, e.key, e.packet, e.now, k);
    }
  }

  lemma NewQueue(l: Limits, list: seq<Frag>, e: Event, k: Key)
    requires e.Arrive? && ((!e.isHead && e.known) || !Has(list, e.key))
    ensures QueueOf(list, k) + (if Parks(l, list, e) && e.key == k then [e.packet] else [])
         == Left(k, Result(l, list, e)) + QueueOf(After(l, list, e), k)
  {
    if !e.isHead && e.known {
      LeftSingle(k, Out(e.key, e.packet, Bypassed));
    } else {
      if Parks(l, list, e) {
        AbsentQueue(list, e.key);
        ConsQueue(Frag(e.key, e.now, [e.packet]), list, k);
        assert Left(k, []) == [];
      } else {
        LeftSingle(k, Out(e.key, e.packet, Dropped));
      }
    }
  }

  lemma ConsQueue(f: Frag, list: seq<Frag>, k: Key)
    ensures QueueOf([f] + list, k) == if f.key == k then f.parked else QueueOf(list, k)
  {
    assert ([f] + list)[1..] == list;
  }

  lemma FlushQueue(l: Limits, list: seq<Frag>, e: Event, k: Key)
    requires Distinct(list) && e.Arrive? && e.isHead && Has(list, e.key)
    ensures QueueOf(list, k) == Left(k, Result(l, list, e)) + QueueOf(After(l, list, e), k)
  {
    var queue := QueueOf(list, e.key);
    LeftAppend(k, [Out(e.key, e.packet, Dropped)], Outs(e.key, queue, Flushed));
    LeftSingle(k, Out(e.key, e.packet, Dropped));
    LeftOuts(k, e.key, queue, Flushed);
    RemoveQueue(list, e.key, k);
  }

  /**
   * In every run and for every datagram, the fragments parked are those that left, in the order
   * in which they were parked, followed by those still waiting.
   */
  lemma {:induction false} ParkedInOrder(l: Limits, events: seq<Event>, k: Key)
    ensures Parked(l, events, k) == Left(k, Log(l, events)) + QueueOf(State(l, events), k)
  {
    if events != [] {
      var before, e := events[..|events| - 1], events[|events| - 1];
      ParkedInOrder(l, before, k);
      ListIsBounded(l, before);
      var list := State(l, before);
      StepQueue(l, list, e, k);
      LeftAppend(k, Log(l, before), Result(l, list, e));
      Assoc(Left(k, Log(l, before)), QueueOf(list, k), if Parks(l, list, e) && e.key == k then [e.packet] else []);
      Assoc(Left(k, Log(l, before)), Left(k, Result(l, list, e)), QueueOf(After(l, list, e), k));
    }
  }

  // ----- every packet has one fate, or is parked

  function Given(events: seq<Event>): multiset<Packet>
  {
    if events == [] then multiset{}
    else Given(events[..|events| - 1]) + GivenOne(events[|events| - 1])
  }

  function GivenOne(e: Event): multiset<Packet>
  {
    if e.Arrive? then multiset{e.packet} else multiset{}
  }

  function Waiting(list: seq<Frag>): multiset<Packet>
  {
    if list == [] then multiset{} else multiset(list[0].parked) + Waiting(list[1..])
  }

  function Gone(outs: seq<Out>): multiset<Packet>
  {
    if outs == [] then multiset{} else multiset{outs[0].packet} + Gone(outs[1..])
  }

  lemma {:induction false} GoneAppend(a: seq<Out>, b: seq<Out>)
    ensures Gone(a + b) == Gone(a) + Gone(b)
  {
    if a == [] {
      assert a + b == b;
    } else {
      assert (a + b)[1..] == a[1..] + b;
      GoneAppend(a[1..], b);
    }
  }

  lemma {:induction false} GoneOuts(key: Key, ps: seq<Packet>, fate: Fate)
    ensures Gone(Outs(key, ps, fate)) == multiset(ps)
  {
    if ps != [] {
      GoneOuts(key, ps[1..], fate);
      var o, rest := Out(key, ps[0], fate), Outs(key, ps[1..], fate);
      assert ([o] + rest)[1..] == rest;
      assert multiset(ps) == multiset{ps[0]} + multiset(ps[1..]) by { assert ps == [ps[0]] + ps[1..]; }
    }
  }

  lemma {:induction false} ParkWaiting(list: seq<Frag>, key: Key, p: Packet, now: nat)
    requires Has(list, key)
    ensures Waiting(Park(list, key, p, now)) == Waiting(list) + multiset{p}
  {
    if list[0].key != key {
      ParkWaiting(list[1..], key, p, now);
      assert ([list[0]] + Park(list[1..], key, p, now))[1..] == Park(list[1..], key, p, now);
    } else {
      assert ([Frag(key, now, list[0].parked + [p])] + list[1..])[1..] == list[1..];
    }
  }

  lemma {:induction false} RemoveWaiting(list: seq<Frag>, key: Key)
    requires Has(list, key)
    ensures Waiting(list) == Waiting(Remove(list, key)) + multiset(QueueOf(list, key))
  {
    if list[0].key != key {
      RemoveWaiting(list[1..], key);
      assert ([list[0]] + Remove(list[1..], key))[1..] == Remove(list[1..], key);
    }
  }

  lemma {:induction false} ScanWaiting(list: seq<Frag>, now: nat -> nat, timeout: nat)
    ensures Waiting(list) == Waiting(Young(list, now, timeout)) + Gone(Freed(list, now, timeout))
  {
    if list != [] {
      var f, rest := list[0], list[1..];
      ScanWaiting(rest, now, timeout);
      if Expired(f.time, now(|list|), timeout) {
        GoneAppend(Outs(f.key, f.parked, TimedOut), Freed(rest, now, timeout));
        GoneOuts(f.key, f.parked, TimedOut);
      } else {
        assert [] + Freed(rest, now, timeout) == Freed(rest, now, timeout);
        assert ([f] + Young(rest, now, timeout))[1..] == Young(rest, now, timeout);
      }
    }
  }

  lemma HeadWaiting(list: seq<Frag>, key: Key, p: Packet)
    requires Has(list, key)
    ensures Waiting(list) + multiset{p} ==
      Waiting(Remove(list, key)) + Gone([Out(key, p, Dropped)] + Outs(key, QueueOf(list, key), Flushed))
  {
    RemoveWaiting(list, key);
    GoneOuts(key, QueueOf(list, key), Flushed);
    assert ([Out(key, p, Dropped)] + Outs(key, QueueOf(list, key), Flushed))[1..] ==
      Outs(key, QueueOf(list, key), Flushed);
  }

  lemma StepWaiting(l: Limits, list: seq<Frag>, e: Event)
    ensures Waiting(list) + GivenOne(e) == Waiting(After(l, list, e)) + Gone(Result(l, list, e))
  {
    match e
    case Scan(now) => ScanWaiting(list, now, l.timeout);
    case Arrive(key, p, isHead, known, now) =>
      if !isHead && known {
      } else if !Has(list, key) {
        assert ([Frag(key, now, [p])] + list)[1..] == list;
      } else if isHead {
        HeadWaiting(list, key, p);
      } else {
        ParkWaiting(list, key, p, now);
      }
  }

  /** In every run, every packet given to the assembler has exactly one fate, or is still parked once. */
  lemma {:induction false} EachPacketOnce(l: Limits, events: seq<Event>)
    ensures Given(events) == Gone(Log(l, events)) + Waiting(State(l, events))
  {
    if events != [] {
      var before, e := events[..|events| - 1], events[|events| - 1];
      EachPacketOnce(l, before);
      var list, log := State(l, before), Log(l, before);
      StepWaiting(l, list, e);
      GoneAppend(log, Result(l, list, e));
      calc {
        Given(events);
        Gone(log) + Waiting(list) + GivenOne(e);
        Gone(log) + (Waiting(list) + GivenOne(e));
        Gone(log) + Gone(Result(l, list, e)) + Waiting(After(l, list, e));
      }
    }
  }

  // ----- which fate a packet has

  /** The packets of a datagram that had some fate, in order. */
  function Of(key: Key, fate: Fate, outs: seq<Out>): seq<Packet>
  {
    if outs == [] then [] else Of(key, fate, outs[..|outs| - 1]) + OfOne(key, fate, outs[|outs| - 1])
  }

  function OfOne(key: Key, fate: Fate, o: Out): seq<Packet>
  {
    if o.key == key && o.fate == fate then [o.packet] else []
  }

  lemma {:induction false} OfAppend(key: Key, fate: Fate, a: seq<Out>, b: seq<Out>)
    ensures Of(key, fate, a + b) == Of(key, fate, a) + Of(key, fate, b)
  {
    if b == [] {
      assert a + b == a;
    } else {
      assert (a + b)[..|a + b| - 1] == a + b[..|b| - 1];
      OfAppend(key, fate, a, b[..|b| - 1]);
    }
  }

  lemma OfSingle(key: Key, fate: Fate, o: Out)
    ensures Of(key, fate, [o]) == OfOne(key, fate, o)
  {
  }

  lemma {:induction false} OfOuts(key: Key, fate: Fate, k: Key, ps: seq<Packet>, f: Fate)
    ensures Of(key, fate, Outs(k, ps, f)) == if k == key && f == fate then ps else []
  {
    if ps != [] {
      OfOuts(key, fate, k, ps[1..], f);
      OfAppend(key, fate, [Out(k, ps[0], f)], Outs(k, ps[1..], f));
      OfSingle(key, fate, Out(k, ps[0], f));
    }
  }

  /** The scan comes to an entry of the datagram and finds that it has expired. */
  predicate Old(list: seq<Frag>, now: nat -> nat, timeout: nat, key: Key)
  {
    exists i {:trigger list[i]} ::
      0 <= i < |list| && list[i].key == key && Expired(list[i].time, now(|list| - i), timeout)
  }

  lemma OldFirst(list: seq<Frag>, now: nat -> nat, timeout: nat, key: Key)
    requires list != []
    ensures Old(list, now, timeout, key) <==>
      (list[0].key == key && Expired(list[0].time, now(|list|), timeout)) || Old(list[1..], now, timeout, key)
  {
    var rest := list[1..];
    if Old(rest, now, timeout, key) {
      var i :| 0 <= i < |rest| && rest[i].key == key && Expired(rest[i].time, now(|rest| - i), timeout);
      assert list[i + 1] == rest[i];
    }
    if Old(list, now, timeout, key) {
      var i :| 0 <= i < |list| && list[i].key == key && Expired(list[i].time, now(|list| - i), timeout);
      if i > 0 { assert rest[i - 1] == list[i]; }
    }
  }

  lemma {:induction false} OldHas(list: seq<Frag>, now: nat -> nat, timeout: nat, key: Key)
    ensures Old(list, now, timeout, key) ==> Has(list, key)
  {
    if list != [] {
      OldFirst(list, now, timeout, key);
      OldHas(list[1..], now, timeout, key);
    }
  }

  lemma {:induction false} FreedFates(list: seq<Frag>, now: nat -> nat, timeout: nat, key: Key, fate: Fate)
    requires Distinct(list)
    ensures Of(key, fate, Freed(list, now, timeout)) ==
      if fate.TimedOut? && Old(list, now, timeout, key) then QueueOf(list, key) else []
  {
    if list != [] {
      var f, rest := list[0], list[1..];
      FreedFates(rest, now, timeout, key, fate);
      OldFirst(list, now, timeout, key);
      OldHas(rest, now, timeout, key);
      var here := if Expired(f.time, now(|list|), timeout) then Outs(f.key, f.parked, TimedOut) else [];
      OfAppend(key, fate, here, Freed(rest, now, timeout));
      OfOuts(key, fate, f.key, f.parked, TimedOut);
    }
  }

  /**
   * The packets of a datagram that meet a fate at an event. A fragment of a known flow is passed on. A head is
   * dropped, and so is a fragment for which nothing waits when there are too many entries. A head flushes what
   * waits for it. A scan times out what waits for too long.
   */
  function Due(l: Limits, list: seq<Frag>, e: Event, key: Key, fate: Fate): seq<Packet>
  {
    match fate
    case Bypassed => if e.Arrive? && e.key == key && !e.isHead && e.known then [e.packet] else []
    case Dropped =>
      if e.Arrive? && e.key == key && (e.isHead || (!e.known && QueueOf(list, key) == [] && |list| > l.entries))
      then [e.packet] else []
    case Flushed => if e.Arrive? && e.key == key && e.isHead then QueueOf(list, key) else []
    case TimedOut => if e.Scan? && Old(list, e.clock, l.timeout, key) then QueueOf(list, key) else []
  }

  /** Every entry has a fragment. */
  predicate NoneEmpty(list: seq<Frag>)
  {
    forall i {:trigger list[i]} :: 0 <= i < |list| ==> list[i].parked != []
  }

  lemma {:induction false} HasQueue(list: seq<Frag>, key: Key)
    requires NoneEmpty(list)
    ensures Has(list, key) <==> QueueOf(list, key) != []
  {
    if list != [] { HasQueue(list[1..], key); }
  }

  lemma {:induction false} ParkNoneEmpty(list: seq<Frag>, key: Key, p: Packet, now: nat)
    requires NoneEmpty(list)
    ensures NoneEmpty(Park(list, key, p, now)) && NoneEmpty(Remove(list, key))
  {
    if list != [] { ParkNoneEmpty(list[1..], key, p, now); }
  }

  lemma {:induction false} YoungNoneEmpty(list: seq<Frag>, now: nat -> nat, timeout: nat)
    requires NoneEmpty(list)
    ensures NoneEmpty(Young(list, now, timeout))
  {
    if list != [] { YoungNoneEmpty(list[1..], now, timeout); }
  }

  lemma {:induction false} RunNoneEmpty(l: Limits, events: seq<Event>)
    ensures NoneEmpty(State(l, events))
  {
    if events != [] {
      var list, e := State(l, events[..|events| - 1]), events[|events| - 1];
      RunNoneEmpty(l, events[..|events| - 1]);
      if e.Scan? { YoungNoneEmpty(list, e.clock, l.timeout); } else { ParkNoneEmpty(list, e.key, e.packet, e.now); }
    }
  }

  lemma StepFates(l: Limits, list: seq<Frag>, e: Event, key: Key, fate: Fate)
    requires Distinct(list) && NoneEmpty(list)
    ensures Of(key, fate, Result(l, list, e)) == Due(l, list, e, key, fate)
  {
    if e.Scan? {
      FreedFates(list, e.clock, l.timeout, key, fate);
    } else if e.isHead {
      HeadFates(l, list, e, key, fate);
    } else {
      TailFates(l, list, e, key, fate);
    }
  }

  lemma HeadFates(l: Limits, list: seq<Frag>, e: Event, key: Key, fate: Fate)
    requires NoneEmpty(list) && e.Arrive? && e.isHead
    ensures Of(key, fate, Result(l, list, e)) == Due(l, list, e, key, fate)
  {
    var queue := QueueOf(list, e.key);
    HasQueue(list, e.key);
    OfSingle(key, fate, Out(e.key, e.packet, Dropped));
    if Has(list, e.key) {
      OfAppend(key, fate, [Out(e.key, e.packet, Dropped)], Outs(e.key, queue, Flushed));
      OfOuts(key, fate, e.key, queue, Flushed);
    }
  }

  lemma TailFates(l: Limits, list: seq<Frag>, e: Event, key: Key, fate: Fate)
    requires NoneEmpty(list) && e.Arrive? && !e.isHead
    ensures Of(key, fate, Result(l, list, e)) == Due(l, list, e, key, fate)
  {
    HasQueue(list, e.key);
    OfSingle(key, fate, Out(e.key, e.packet, if e.known then Bypassed else Dropped));
  }

  /** What is due over a whole run. */
  function Told(l: Limits, events: seq<Event>, key: Key, fate: Fate): seq<Packet>
  {
    if events == [] then []
    else
      var before, e := events[..|events| - 1], events[|events| - 1];
      Told(l, before, key, fate) + Due(l, State(l, before), e, key, fate)
  }

  /** In every run, the packets of every datagram have exactly the fates they are due, in order. */
  lemma {:induction false} FatesTold(l: Limits, events: seq<Event>, key: Key, fate: Fate)
    ensures Of(key, fate, Log(l, events)) == Told(l, events, key, fate)
  {
    if events != [] {
      var before, e := events[..|events| - 1], events[|events| - 1];
      FatesTold(l, before, key, fate);
      ListIsBounded(l, before);
      RunNoneEmpty(l, before);
      StepFates(l, State(l, before), e, key, fate);
      OfAppend(key, fate, Log(l, before), Result(l, State(l, before), e));
    }
  }

  // ----- since when a datagram waits

  /** When the last fragment of a datagram was parked. */
  function LastParked(l: Limits, events: seq<Event>, key: Key): nat
  {
    if events == [] then 0
    else
      var before, e := events[..|events| - 1], events[|events| - 1];
      if Parks(l, State(l, before), e) && e.key == key then e.now else LastParked(l, before, key)
  }

  /** All entries of the datagram carry this time. */
  predicate Timed(list: seq<Frag>, key: Key, time: nat)
  {
    forall i {:trigger list[i]} :: 0 <= i < |list| && list[i].key == key ==> list[i].time == time
  }

  lemma {:induction false} ParkTimed(list: seq<Frag>, key: Key, p: Packet, now: nat, k: Key, time: nat)
    requires Timed(list, k, time) && Distinct(list)
    ensures Timed(Park(list, key, p, now), k, if k == key then now else time) && Timed(Remove(list, key), k, time)
  {
    if list != [] {
      if list[0].key == key && k == key {
        AbsentTimed(list[1..], key, now);
      } else {
        ParkTimed(list[1..], key, p, now, k, time);
      }
    }
  }

  lemma {:induction false} AbsentTimed(list: seq<Frag>, key: Key, time: nat)
    requires !Has(list, key)
    ensures Timed(list, key, time)
  {
    if list != [] { AbsentTimed(list[1..], key, time); }
  }

  lemma {:induction false} YoungTimed(list: seq<Frag>, now: nat -> nat, timeout: nat, k: Key, time: nat)
    requires Timed(list, k, time)
    ensures Timed(Young(list, now, timeout), k, time)
  {
    if list != [] { YoungTimed(list[1..], now, timeout, k, time); }
  }

  /** In every run, the age of an entry is counted from when its last fragment was parked. */
  lemma {:induction false} AgeFromLast(l: Limits, events: seq<Event>, key: Key)
    ensures Timed(State(l, events), key, LastParked(l, events, key))
  {
    if events != [] {
      var before, e := events[..|events| - 1], events[|events| - 1];
      var list, time := State(l, before), LastParked(l, before, key);
      AgeFromLast(l, before, key);
      ListIsBounded(l, before);
      if e.Scan? {
        YoungTimed(list, e.clock, l.timeout, key, time);
      } else {
        ParkTimed(list, e.key, e.packet, e.now, key, time);
        if !Has(list, e.key) { AbsentTimed(list, e.key, e.now); }
      }
    }
  }
}
