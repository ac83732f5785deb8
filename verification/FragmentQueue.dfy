/**
 * The per-CPU queue to the fragment assembler: datapath threads push elements with a
 * compare-and-swap on the tail, the assembler takes the whole queue with one exchange,
 * reverses it and hands the elements on. Elements are freed and used again.
 */
module FragmentQueue {
  import opened Lists
  import opened Numbers

  type Thread = nat
  type Packet = nat

  const ATTEMPTS := 3

  function Reversed<T>(s: seq<T>): (r: seq<T>)
    ensures |r| == |s|
  {
    if s == [] then [] else Reversed(s[1..]) + [s[0]]
  }

  lemma {:induction false} ReversedMember<T>(s: seq<T>, x: T)
    ensures x in Reversed(s) <==> x in s
  {
    if s != [] { ReversedMember(s[1..], x); }
  }

  // ----- in-place reversal

  /** Part of the list `s` is reversed behind `head`, the part from `rest` on is as it was. */
  ghost predicate Reversing(next0: map<Entry, Ptr>, next: map<Entry, Ptr>, s: seq<Entry>, head: Entry, rest: Ptr,
                            done: seq<Entry>, left: seq<Entry>)
  {
    && List(next, To(head), done) && List(next, rest, left) && Reversed(s) == Reversed(left) + done
    && (forall e {:trigger e in done} :: e in done ==> e !in left && e in s)
    && (forall e {:trigger e in left} :: e in left ==> e in s)
    && Elsewhere(next0, next, s)
  }

  ghost predicate Elsewhere(next0: map<Entry, Ptr>, next: map<Entry, Ptr>, s: seq<Entry>)
  {
    next.Keys == next0.Keys && forall e {:trigger next[e]} :: e in next && e !in s ==> next[e] == next0[e]
  }

  lemma ReversingStart(next: map<Entry, Ptr>, tail: Entry, s: seq<Entry>)
    requires List(next, To(tail), s)
    ensures tail in next && Reversing(next, next[tail := Null], s, tail, next[tail], [tail], s[1..])
  {
    var n := next[tail := Null];
    ListFrame(next, next[tail], s[1..], tail, Null);
    assert List(n, Null, []);
    ListPush(n, Null, [], tail);
    assert [tail] + [] == [tail];
  }

  lemma ReversingStep(next0: map<Entry, Ptr>, next: map<Entry, Ptr>, s: seq<Entry>, head: Entry, e: Entry,
                      done: seq<Entry>, left: seq<Entry>)
    requires Reversing(next0, next, s, head, To(e), done, left)
    ensures left != [] && e in next && Reversing(next0, next[e := To(head)], s, e, next[e], [e] + done, left[1..])
  {
    var n := next[e := To(head)];
    assert left != [] && e == left[0] && e in left && e !in left[1..];
    assert forall x :: x in left[1..] ==> x in left;
    assert e !in done;
    ListFrame(next, next[e], left[1..], e, To(head));
    ListFrame(next, To(head), done, e, To(head));
    ListPush(n, To(head), done, e);
    assert Reversed(left[1..]) + [e] + done == Reversed(left[1..]) + ([e] + done);
  }

  class Pool {
    var next: map<Entry, Ptr>

    /** Reverses a list in place and touches no pointer outside it. */
    method Reverse(tail: Entry, ghost s: seq<Entry>) returns (head: Entry)
      requires List(next, To(tail), s)
      modifies this
      ensures List(next, To(head), Reversed(s)) && Elsewhere(old(next), next, s)
    {
      ReversingStart(next, tail, s);
      head := tail;
      var rest := next[tail];
      ghost var done, left := [tail], s[1..];
      next := next[tail := Null];
      while rest.To?
        invariant Reversing(old(next), next, s, head, rest, done, left)
        decreases |left|
      {
        ReversingStep(old(next), next, s, head, rest.e, done, left);
        var e := rest.e;
        rest := next[e];
        next := next[e := To(head)];
        head := e;
        done, left := [e] + done, left[1..];
      }
      assert left == [] && Reversed(left) + done == done;
    }
  }

  // ----- the queue under concurrency

  /** Where a thread is with the element it fills for a packet; `tries` compare-and-swaps have failed. */
  datatype Pc =
    | Filled(n: Entry, p: Packet, tries: nat)
    | Loaded(n: Entry, p: Packet, tries: nat, t: Ptr)   // has read the tail and pointed its element at it

  /** Pointers and threads; and, from `packets` on, what they stand for and what has happened. */
  datatype State = State(
    next: map<Entry, Ptr>,
    tail: Ptr,
    pcs: map<Thread, Pc>,
    batch: seq<Entry>,           // taken and reversed, not yet handed on
    packets: map<Entry, Packet>,
    list: seq<Entry>,
    given: set<Packet>,
    pushed: seq<Packet>,
    handed: seq<Packet>,
    dropped: set<Packet>)

  datatype Step =
    | Fill(t: Thread, n: Entry, p: Packet)
    | Refuse(p: Packet)
    | Load(t: Thread)
    | Swap(t: Thread)
    | TakeAll
    | HandOn

  /** No thread and no list uses the element. */
  ghost predicate Unused(s: State, n: Entry)
  {
    n !in s.list && n !in s.batch && forall t :: t in s.pcs ==> s.pcs[t].n != n
  }

  ghost predicate Enabled(s: State, step: Step)
  {
    match step
    case Fill(t, n, p) => t !in s.pcs && n in s.next && n in s.packets && Unused(s, n) && p !in s.given
    case Refuse(p) => p !in s.given
    case Load(t) => t in s.pcs && s.pcs[t].Filled?
    case Swap(t) => t in s.pcs && s.pcs[t].Loaded?
    case TakeAll => s.batch == []
    case HandOn => s.batch != [] && s.batch[0] in s.packets
  }

  ghost function Next(s: State, step: Step): State
    requires Enabled(s, step)
  {
    match step
    case Fill(t, n, p) =>
      s.(pcs := s.pcs[t := Filled(n, p, 0)], packets := s.packets[n := p], next := s.next[n := Null],
         given := s.given + {p})
    case Refuse(p) => s.(given := s.given + {p}, dropped := s.dropped + {p})
    case Load(t) =>
      var Filled(n, p, i) := s.pcs[t];
      s.(next := s.next[n := s.tail], pcs := s.pcs[t := Loaded(n, p, i, s.tail)])
    case Swap(t) =>
      var Loaded(n, p, i, tail) := s.pcs[t];
      if s.tail == tail then
        s.(tail := To(n), pcs := s.pcs - {t}, list := [n] + s.list, pushed := s.pushed + [p])
      else if i + 1 < ATTEMPTS then s.(pcs := s.pcs[t := Filled(n, p, i + 1)])
      else s.(pcs := s.pcs - {t}, dropped := s.dropped + {p})
    case TakeAll => s.(tail := Null, list := [], batch := Reversed(s.list))
    case HandOn => s.(batch := s.batch[1..], handed := s.handed + [s.packets[s.batch[0]]])
  }

  ghost function Packets(packets: map<Entry, Packet>, s: seq<Entry>): (r: seq<Packet>)
    requires forall e :: e in s ==> e in packets
    ensures |r| == |s|
  {
    if s == [] then [] else [packets[s[0]]] + Packets(packets, s[1..])
  }

  ghost predicate ThreadOk(next: map<Entry, Ptr>, packets: map<Entry, Packet>, list: seq<Entry>, batch: seq<Entry>,
                           pc: Pc)
  {
    && pc.n in next && pc.n in packets && packets[pc.n] == pc.p && pc.n !in list && pc.n !in batch
    && (pc.Loaded? ==> next[pc.n] == pc.t)
  }

  /** The elements of the queue and of the batch carry the packets pushed but not handed on, in order. */
  ghost predicate QueueOk(s: State)
  {
    && s.packets.Keys == s.next.Keys && List(s.next, s.tail, s.list)
    && (forall e {:trigger e in s.list} :: e in s.list ==> e in s.packets && e !in s.batch)
    && (forall e {:trigger e in s.batch} :: e in s.batch ==> e in s.packets)
    && s.pushed == s.handed + (Packets(s.packets, s.batch) + Reversed(Packets(s.packets, s.list)))
  }

  ghost predicate ThreadsOk(s: State)
  {
    && (forall t {:trigger s.pcs[t]} :: t in s.pcs ==> ThreadOk(s.next, s.packets, s.list, s.batch, s.pcs[t]))
    && (forall t, u {:trigger s.pcs[t], s.pcs[u]} :: t in s.pcs && u in s.pcs && t != u ==>
          s.pcs[t].n != s.pcs[u].n && s.pcs[t].p != s.pcs[u].p)
  }

  ghost predicate InHand(pcs: map<Thread, Pc>, p: Packet)
  {
    exists t :: t in pcs && pcs[t].p == p
  }

  ghost predicate NoRepeats(s: seq<Packet>)
  {
    forall i, j {:trigger s[i], s[j]} :: 0 <= i < j < |s| ==> s[i] != s[j]
  }

  /** Every packet given is dropped, pushed, or in the hand of a thread, and only one of these. */
  ghost predicate FatesOk(s: State)
  {
    && (forall p {:trigger p in s.given} :: p in s.given ==> p in s.dropped || p in s.pushed || InHand(s.pcs, p))
    && (forall p {:trigger p in s.dropped} :: p in s.dropped ==> p in s.given && p !in s.pushed)
    && (forall p {:trigger p in s.pushed} :: p in s.pushed ==> p in s.given)
    && (forall t {:trigger s.pcs[t]} :: t in s.pcs ==>
          s.pcs[t].p in s.given && s.pcs[t].p !in s.dropped && s.pcs[t].p !in s.pushed)
    && NoRepeats(s.pushed)
  }

  ghost predicate Inv(s: State)
  {
    QueueOk(s) && ThreadsOk(s) && FatesOk(s)
  }

  // ----- lemmas about packets of elements

  lemma {:induction false} PacketsFrame(packets: map<Entry, Packet>, s: seq<Entry>, n: Entry, p: Packet)
    requires n !in s && forall e :: e in s ==> e in packets
    ensures Packets(packets[n := p], s) == Packets(packets, s)
  {
    if s != [] { PacketsFrame(packets, s[1..], n, p); }
  }

  lemma {:induction false} PacketsAppend(packets: map<Entry, Packet>, s: seq<Entry>, e: Entry)
    requires (forall x :: x in s ==> x in packets) && e in packets
    ensures Packets(packets, s + [e]) == Packets(packets, s) + [packets[e]]
  {
    if s == [] {
      assert [] + [e] == [e];
    } else {
      assert (s + [e])[1..] == s[1..] + [e];
      PacketsAppend(packets, s[1..], e);
    }
  }

  lemma {:induction false} PacketsReversed(packets: map<Entry, Packet>, s: seq<Entry>)
    requires forall e :: e in s ==> e in packets
    ensures (forall e :: e in Reversed(s) ==> e in packets)
      && Packets(packets, Reversed(s)) == Reversed(Packets(packets, s))
  {
    forall e | e in Reversed(s) ensures e in packets { ReversedMember(s, e); }
    if s != [] {
      PacketsReversed(packets, s[1..]);
      PacketsAppend(packets, Reversed(s[1..]), s[0]);
    }
  }

  // ----- every step keeps the invariant

  lemma FillQueue(s: State, t: Thread, n: Entry, p: Packet)
    requires Inv(s) && Enabled(s, Fill(t, n, p))
    ensures QueueOk(Next(s, Fill(t, n, p)))
  {
    ListFrame(s.next, s.tail, s.list, n, Null);
    PacketsFrame(s.packets, s.list, n, p);
    PacketsFrame(s.packets, s.batch, n, p);
  }

  lemma FillFates(s: State, t: Thread, n: Entry, p: Packet)
    requires Inv(s) && Enabled(s, Fill(t, n, p))
    ensures FatesOk(Next(s, Fill(t, n, p)))
  {
    var u := Next(s, Fill(t, n, p));
    forall q | q in u.given ensures q in u.dropped || q in u.pushed || InHand(u.pcs, q) {
      if q == p {
        assert u.pcs[t].p == p;
      } else {
        assert q in s.given;
        if InHand(s.pcs, q) {
          var r :| r in s.pcs && s.pcs[r].p == q;
          assert u.pcs[r].p == q;
        }
      }
    }
  }

  lemma FillThreads(s: State, t: Thread, n: Entry, p: Packet)
    requires Inv(s) && Enabled(s, Fill(t, n, p))
    ensures ThreadsOk(Next(s, Fill(t, n, p)))
  {
  }

  lemma FillInv(s: State, t: Thread, n: Entry, p: Packet)
    requires Inv(s) && Enabled(s, Fill(t, n, p))
    ensures Inv(Next(s, Fill(t, n, p)))
  {
    FillQueue(s, t, n, p);
    FillFates(s, t, n, p);
    FillThreads(s, t, n, p);
  }

  lemma LoadInv(s: State, t: Thread)
    requires Inv(s) && Enabled(s, Load(t))
    ensures Inv(Next(s, Load(t)))
  {
    var u := Next(s, Load(t));
    ListFrame(s.next, s.tail, s.list, s.pcs[t].n, s.tail);
    HandsKept(s, u);
  }

  /** Threads that stay keep their packets. */
  lemma HandsKept(s: State, u: State)
    requires FatesOk(s) && s.pcs.Keys == u.pcs.Keys && forall r {:trigger u.pcs[r]} :: r in s.pcs ==>
      u.pcs[r].p == s.pcs[r].p
    ensures forall q {:trigger InHand(u.pcs, q)} :: InHand(s.pcs, q) ==> InHand(u.pcs, q)
  {
  }

  /** A thread that leaves takes only its own packet out of the hands. */
  lemma HandsLeft(s: State, t: Thread)
    requires t in s.pcs
    ensures forall q {:trigger InHand(s.pcs - {t}, q)} :: InHand(s.pcs, q) && q != s.pcs[t].p ==> InHand(s.pcs - {t}, q)
  {
    forall q | InHand(s.pcs, q) && q != s.pcs[t].p ensures InHand(s.pcs - {t}, q) {
      var r :| r in s.pcs && s.pcs[r].p == q;
      assert (s.pcs - {t})[r].p == q;
    }
  }

  lemma PushQueue(s: State, t: Thread)
    requires Inv(s) && Enabled(s, Swap(t)) && s.tail == s.pcs[t].t
    ensures QueueOk(Next(s, Swap(t)))
  {
  }

  lemma PushFates(s: State, t: Thread)
    requires Inv(s) && Enabled(s, Swap(t)) && s.tail == s.pcs[t].t
    ensures FatesOk(Next(s, Swap(t)))
  {
    HandsLeft(s, t);
    var u, p := Next(s, Swap(t)), s.pcs[t].p;
    assert s.pcs[t].p !in s.pushed;
    assert u.pushed == s.pushed + [p];
    forall q | q in u.given ensures q in u.dropped || q in u.pushed || InHand(u.pcs, q) {
      assert q in s.given;
    }
  }

  lemma PushThreads(s: State, t: Thread)
    requires Inv(s) && Enabled(s, Swap(t)) && s.tail == s.pcs[t].t
    ensures ThreadsOk(Next(s, Swap(t)))
  {
  }

  lemma DropInv(s: State, t: Thread)
    requires Inv(s) && t in s.pcs
    ensures Inv(s.(pcs := s.pcs - {t}, dropped := s.dropped + {s.pcs[t].p}))
  {
    HandsLeft(s, t);
    var u := s.(pcs := s.pcs - {t}, dropped := s.dropped + {s.pcs[t].p});
    forall q | q in u.given ensures q in u.dropped || q in u.pushed || InHand(u.pcs, q) { assert q in s.given; }
    forall r | r in u.pcs ensures u.pcs[r].p in u.given && u.pcs[r].p !in u.dropped && u.pcs[r].p !in u.pushed {
      assert s.pcs[r].p != s.pcs[t].p;
    }
  }

  lemma SwapInv(s: State, t: Thread)
    requires Inv(s) && Enabled(s, Swap(t))
    ensures Inv(Next(s, Swap(t)))
  {
    var u := Next(s, Swap(t));
    if s.tail == s.pcs[t].t {
      PushQueue(s, t);
      PushFates(s, t);
      PushThreads(s, t);
    } else if s.pcs[t].tries + 1 < ATTEMPTS {
      HandsKept(s, u);
    } else {
      DropInv(s, t);
    }
  }

  lemma TakeAllInv(s: State)
    requires Inv(s) && Enabled(s, TakeAll)
    ensures Inv(Next(s, TakeAll))
  {
    var u := Next(s, TakeAll);
    PacketsReversed(s.packets, s.list);
    assert Reversed(Packets(u.packets, u.list)) == [];
    assert [] + Reversed(Packets(s.packets, s.list)) == Reversed(Packets(s.packets, s.list));
    assert u.pushed == u.handed + (Packets(u.packets, u.batch) + []);
    forall t | t in u.pcs ensures ThreadOk(u.next, u.packets, u.list, u.batch, u.pcs[t]) {
      ReversedMember(s.list, s.pcs[t].n);
    }
  }

  lemma HandOnInv(s: State)
    requires Inv(s) && Enabled(s, HandOn)
    ensures Inv(Next(s, HandOn))
  {
    var u := Next(s, HandOn);
    var p := s.packets[s.batch[0]];
    assert forall e :: e in s.batch[1..] ==> e in s.batch;
    var q, r := Packets(s.packets, s.batch[1..]), Reversed(Packets(s.packets, s.list));
    assert s.handed + (([p] + q) + r) == s.handed + [p] + (q + r);
  }

  lemma StepInv(s: State, step: Step)
    requires Inv(s) && Enabled(s, step)
    ensures Inv(Next(s, step))
  {
    match step
    case Fill(t, n, p) => FillInv(s, t, n, p);
    case Refuse(p) =>
    case Load(t) => LoadInv(s, t);
    case Swap(t) => SwapInv(s, t);
    case TakeAll => TakeAllInv(s);
    case HandOn => HandOnInv(s);
  }

  // ----- whole runs

  ghost predicate Start(s: State)
  {
    && s.next.Keys == s.packets.Keys && s.tail == Null && s.pcs == map[] && s.batch == [] && s.list == []
    && s.given == {} && s.pushed == [] && s.handed == [] && s.dropped == {}
  }

  ghost predicate Possible(s: State, steps: seq<Step>)
    decreases |steps|
  {
    steps == [] || (Enabled(s, steps[0]) && Possible(Next(s, steps[0]), steps[1..]))
  }

  ghost function Run(s: State, steps: seq<Step>): State
    requires Possible(s, steps)
    decreases |steps|
  {
    if steps == [] then s else Run(Next(s, steps[0]), steps[1..])
  }

  lemma {:induction false} RunInv(s: State, steps: seq<Step>)
    requires Inv(s) && Possible(s, steps)
    ensures Inv(Run(s, steps))
    decreases |steps|
  {
    if steps != [] {
      StepInv(s, steps[0]);
      RunInv(Next(s, steps[0]), steps[1..]);
    }
  }

  /**
   * In every run, packets are handed on in the order in which they were pushed, whatever was taken when:
   * those handed on are a prefix of those pushed, and the rest is still in the batch or the queue.
   */
  lemma HandedInOrder(s: State, steps: seq<Step>)
    requires Start(s) && Possible(s, steps)
    ensures var u := Run(s, steps); u.handed <= u.pushed
    ensures var u := Run(s, steps); u.list == [] && u.batch == [] ==> u.handed == u.pushed
  {
    RunInv(s, steps);
    var u := Run(s, steps);
    assert QueueOk(u);
  }

  /** In every run, each packet given is dropped once, pushed once, or still in one thread's hand. */
  lemma EachPacketOnce(s: State, steps: seq<Step>, p: Packet)
    requires Start(s) && Possible(s, steps) && p in Run(s, steps).given
    ensures var u := Run(s, steps);
            && (p in u.dropped || p in u.pushed || InHand(u.pcs, p))
            && !(p in u.dropped && p in u.pushed) && !(p in u.dropped && InHand(u.pcs, p))
            && !(p in u.pushed && InHand(u.pcs, p))
    ensures NoRepeats(Run(s, steps).pushed)
  {
    RunInv(s, steps);
  }

  // ----- when a packet is dropped

  /** How often the tail of the queue changes. */
  ghost function Changes(s: State, steps: seq<Step>): nat
    requires Possible(s, steps)
    decreases |steps|
  {
    if steps == [] then 0
    else One(Next(s, steps[0]).tail != s.tail) + Changes(Next(s, steps[0]), steps[1..])
  }

  /** The thread still tries to push the packet, and has failed at most once for each of `c` changes of the tail. */
  ghost predicate Trying(s: State, t: Thread, p: Packet, c: nat)
  {
    t in s.pcs && s.pcs[t].p == p && s.pcs[t].tries + One(s.pcs[t].Loaded? && s.pcs[t].t != s.tail) <= c
  }

  lemma TryStep(s: State, step: Step, t: Thread, p: Packet, c: nat)
    requires Inv(s) && Enabled(s, step) && Trying(s, t, p, c)
    requires c + One(Next(s, step).tail != s.tail) < ATTEMPTS
    ensures Trying(Next(s, step), t, p, c + One(Next(s, step).tail != s.tail)) || p in Next(s, step).pushed
  {
    if step == Swap(t) && s.tail == s.pcs[t].t {
      assert (s.pushed + [p])[|s.pushed|] == p;
    }
  }

  lemma {:induction false} PushedStays(s: State, steps: seq<Step>, p: Packet)
    requires Possible(s, steps) && p in s.pushed
    ensures p in Run(s, steps).pushed
    decreases |steps|
  {
    if steps != [] {
      assert s.pushed <= Next(s, steps[0]).pushed;
      PushedStays(Next(s, steps[0]), steps[1..], p);
    }
  }

  lemma {:induction false} TriesOn(s: State, steps: seq<Step>, t: Thread, p: Packet, c: nat)
    requires Inv(s) && Possible(s, steps) && Trying(s, t, p, c) && c + Changes(s, steps) < ATTEMPTS
    ensures p !in Run(s, steps).dropped
    decreases |steps|
  {
    if steps == [] {
      assert s.pcs[t].p !in s.dropped;
    } else {
      var u := Next(s, steps[0]);
      StepInv(s, steps[0]);
      TryStep(s, steps[0], t, p, c);
      if p in u.pushed {
        PushedStays(u, steps[1..], p);
        RunInv(u, steps[1..]);
      } else {
        TriesOn(u, steps[1..], t, p, c + One(u.tail != s.tail));
      }
    }
  }

  /**
   * In every run, a packet that has got an element is not dropped unless the tail of the queue changes three times
   * before it is pushed.
   */
  lemma DroppedOnlyIfContended(s: State, t: Thread, n: Entry, p: Packet, steps: seq<Step>)
    requires Inv(s) && Enabled(s, Fill(t, n, p)) && Possible(Next(s, Fill(t, n, p)), steps)
    requires Changes(Next(s, Fill(t, n, p)), steps) < 3
    ensures p !in Run(Next(s, Fill(t, n, p)), steps).dropped
  {
    StepInv(s, Fill(t, n, p));
    TriesOn(Next(s, Fill(t, n, p)), steps, t, p, 0);
  }
}
