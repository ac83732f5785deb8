/** A lookup in a chain that others change comes past every entry that is on the chain all the while. */
module HtableLookup {
  import opened Lists
  import opened HtableProtocol

  /** The pointers lead from `e` to `x` along `p`. */
  ghost predicate Leads(next: map<Entry, Ptr>, p: seq<Entry>, e: Entry, x: Entry)
  {
    && p != [] && p[0] == e && p[|p| - 1] == x
    && forall k {:trigger p[k]} :: 0 <= k < |p| - 1 ==> p[k] in next && next[p[k]] == To(p[k + 1])
  }

  ghost predicate Reaches(next: map<Entry, Ptr>, e: Entry, x: Entry)
  {
    exists p :: Leads(next, p, e, x)
  }

  lemma ReachNext(next: map<Entry, Ptr>, e: Entry, f: Entry, x: Entry)
    requires Reaches(next, f, x) && e in next && next[e] == To(f)
    ensures Reaches(next, e, x)
  {
    var p :| Leads(next, p, f, x);
    var q := [e] + p;
    forall k | 0 <= k < |q| - 1 ensures q[k] in next && next[q[k]] == To(q[k + 1]) {
      if k > 0 { assert q[k] == p[k - 1] && q[k + 1] == p[k]; }
    }
    assert Leads(next, q, e, x);
  }

  /** From the head of a list one comes to all its entries. */
  lemma {:induction false} ListReaches(next: map<Entry, Ptr>, head: Ptr, s: seq<Entry>, x: Entry)
    requires List(next, head, s) && x in s
    ensures head.To? && Reaches(next, head.e, x)
    decreases |s|
  {
    if x == s[0] {
      assert Leads(next, [x], x, x);
    } else {
      assert x in s[1..];
      ListReaches(next, next[s[0]], s[1..], x);
      ReachNext(next, s[0], next[s[0]].e, x);
    }
  }

  /** One step along the pointers. */
  lemma ReachOn(next: map<Entry, Ptr>, e: Entry, x: Entry)
    requires Reaches(next, e, x) && e != x
    ensures e in next && next[e].To? && Reaches(next, next[e].e, x)
  {
    var p :| Leads(next, p, e, x);
    assert next[p[0]] == To(p[1]);
    var q := p[1..];
    forall k | 0 <= k < |q| - 1 ensures q[k] in next && next[q[k]] == To(q[k + 1]) {
      assert q[k] == p[k + 1] && q[k + 1] == p[k + 2];
    }
    assert Leads(next, q, p[1], x);
  }

  // ----- what a lookup is on stays as it is, but for entries taken out

  lemma NextSafe(s: State, t: Section, b: Bucket, e: Entry)
    requires Inv(s) && t in s.pcs && b in s.chains && ReadSafe(s.place, t, b, e)
    ensures e in s.next && (s.next[e].To? ==> ReadSafe(s.place, t, b, s.next[e].e))
  {
    assert EntryOk(s.place, s.next, s.pcs, s.sections, e);
    if s.place[e] == Chained(b) {
      ChainNext(s, b, e);
      assert ChainOk(s.next, s.place, s.marks, s.heads[b], s.chains[b], b);
    } else if s.next[e].To? {
      assert t in s.place[e].waiting * s.pcs.Keys;
    }
  }

  /** Only a worker's plain store changes the successor of an entry that a lookup may be on. */
  lemma NextKept(s: State, step: Step, t: Section, b: Bucket, e: Entry)
    requires Inv(s) && Enabled(s, step) && !step.WorkUnlink? && t in s.pcs && ReadSafe(s.place, t, b, e) && e in s.next
    ensures e in Next(s, step).next && Next(s, step).next[e] == s.next[e]
  {
    if Stores(step) { StoredElsewhere(s, step, t, b, e); } else { NoStore(s, step); }
  }

  /** The steps that set the successor of an entry. */
  predicate Stores(step: Step)
  {
    step.CountUp? || step.LinkLoad? || step.WorkUnlink? || step.GraceEnd? || step.PushLoad?
  }

  lemma NoStore(s: State, step: Step)
    requires Enabled(s, step) && !Stores(step)
    ensures Next(s, step).next == s.next
  {
    if step.PopCas? {
      assert AfterPop(s, step.t).next == s.next;
    } else if step.LinkCas? {
      assert AfterLink(s, step.t).next == s.next;
    } else if step.WorkStart? || step.WorkStop? || step.WorkTest? || step.WorkPass? {
      WalkKeepsNext(s, step);
    }
  }

  lemma WalkKeepsNext(s: State, step: Step)
    requires Enabled(s, step) && (step.WorkStart? || step.WorkStop? || step.WorkTest? || step.WorkPass?)
    ensures Next(s, step).next == s.next
  {
  }

  lemma StoredElsewhere(s: State, step: Step, t: Section, b: Bucket, e: Entry)
    requires Inv(s) && Enabled(s, step) && Stores(step) && !step.WorkUnlink? && t in s.pcs
    requires ReadSafe(s.place, t, b, e) && e in s.next
    ensures e in Next(s, step).next && Next(s, step).next[e] == s.next[e]
  {
    if step.CountUp? || step.LinkLoad? {
      assert SectionOk(s.place, s.next, s.marks, step.t, s.pcs[step.t]);
      assert e != s.pcs[step.t].e;
    } else {
      assert t in s.pcs.Keys;
      assert e != step.e;
    }
  }

  /** The pointers lead from entries of the set to entries of the set, and are the same in both. */
  ghost predicate Closed(next: map<Entry, Ptr>, next': map<Entry, Ptr>, all: iset<Entry>)
  {
    forall y {:trigger y in all} :: y in all ==>
      && y in next && y in next' && next'[y] == next[y]
      && (next[y].To? ==> next[y].e in all)
  }

  lemma {:induction false} KeptPath(next: map<Entry, Ptr>, next': map<Entry, Ptr>, all: iset<Entry>, p: seq<Entry>,
                                    e: Entry, x: Entry)
    requires Closed(next, next', all) && e in all && Leads(next, p, e, x)
    ensures Reaches(next', e, x)
    decreases |p|
  {
    if |p| == 1 {
      assert Leads(next', p, e, x);
    } else {
      assert next[p[0]] == To(p[1]);
      LeadsFrom(next, p, e, x, 1);
      KeptPath(next, next', all, p[1..], p[1], x);
      ReachNext(next', e, p[1], x);
    }
  }

  /** Past an entry that is taken out one comes to all others. */
  lemma {:induction false} Bypassed(next: map<Entry, Ptr>, prev: Entry, at: Entry, p: seq<Entry>, e: Entry, x: Entry)
    requires Leads(next, p, e, x) && x != at && prev in next && next[prev] == To(at) && at in next
    ensures Reaches(next[prev := next[at]], e, x)
    decreases |p|
  {
    var next' := next[prev := next[at]];
    if |p| == 1 {
      assert Leads(next', p, e, x);
    } else {
      assert next[p[0]] == To(p[1]);
      var k := if e == prev then 2 else 1;
      assert k < |p|;
      LeadsFrom(next, p, e, x, k);
      if e == prev { assert next[p[1]] == To(p[2]); }
      Bypassed(next, prev, at, p[k..], p[k], x);
      ReachNext(next', e, p[k], x);
    }
  }

  lemma LeadsFrom(next: map<Entry, Ptr>, p: seq<Entry>, e: Entry, x: Entry, k: nat)
    requires Leads(next, p, e, x) && k < |p|
    ensures Leads(next, p[k..], p[k], x)
  {
    var q := p[k..];
    forall j | 0 <= j < |q| - 1 ensures q[j] in next && next[q[j]] == To(q[j + 1]) {
      assert q[j] == p[k + j] && q[j + 1] == p[k + j + 1];
    }
  }

  /** What a lookup comes to, it still comes to after any step that leaves it on the chain. */
  lemma ReachKept(s: State, step: Step, t: Section, b: Bucket, e: Entry, x: Entry)
    requires Inv(s) && Enabled(s, step) && Safe(s, step) && t in s.pcs && b in s.chains
    requires ReadSafe(s.place, t, b, e) && Reaches(s.next, e, x)
    requires x in s.chains[b] && b in Next(s, step).chains && x in Next(s, step).chains[b]
    ensures Reaches(Next(s, step).next, e, x)
  {
    var p :| Leads(s.next, p, e, x);
    if step.WorkUnlink? {
      UnlinkReach(s, step.b, b, p, e, x);
    } else {
      var all := iset y | ReadSafe(s.place, t, b, y);
      SafeClosed(s, step, t, b, all);
      KeptPath(s.next, Next(s, step).next, all, p, e, x);
    }
  }

  lemma SafeClosed(s: State, step: Step, t: Section, b: Bucket, all: iset<Entry>)
    requires Inv(s) && Enabled(s, step) && !step.WorkUnlink? && t in s.pcs && b in s.chains
    requires forall y :: y in all <==> ReadSafe(s.place, t, b, y)
    ensures Closed(s.next, Next(s, step).next, all)
  {
    forall y | y in all
      ensures y in s.next && y in Next(s, step).next && Next(s, step).next[y] == s.next[y]
      ensures s.next[y].To? ==> s.next[y].e in all
    {
      NextSafe(s, t, b, y);
      NextKept(s, step, t, b, y);
    }
  }

  lemma UnlinkReach(s: State, d: Bucket, b: Bucket, p: seq<Entry>, e: Entry, x: Entry)
    requires Inv(s) && Enabled(s, WorkUnlink(d)) && Safe(s, WorkUnlink(d)) && b in s.chains && Leads(s.next, p, e, x)
    requires x in s.chains[b] && x in Next(s, WorkUnlink(d)).chains[b]
    ensures Reaches(Next(s, WorkUnlink(d)).next, e, x)
  {
    var Doomed(prev, at) := s.workers[d];
    var u := Next(s, WorkUnlink(d));
    if prev.To? {
      assert WorkerOk(s.marks, s.chains[d], s.workers[d]);
      TakenOut(s, d, b, x);
      Bypassed(s.next, prev.e, at, p, e, x);
    } else {
      assert Leads(u.next, p, e, x);
    }
  }

  /** The entry taken out is not one that is still on a chain. */
  lemma TakenOut(s: State, d: Bucket, b: Bucket, x: Entry)
    requires Inv(s) && Enabled(s, WorkUnlink(d)) && s.workers[d].prev.To? && b in s.chains
    requires x in s.chains[b] && x in Next(s, WorkUnlink(d)).chains[b]
    ensures x != s.workers[d].at
  {
    var at := s.workers[d].at;
    assert WorkerOk(s.marks, s.chains[d], s.workers[d]);
    assert ChainOk(s.next, s.place, s.marks, s.heads[d], s.chains[d], d);
    assert ChainOk(s.next, s.place, s.marks, s.heads[b], s.chains[b], b);
    if b == d { WithoutMember(s.next, s.heads[d], s.chains[d], at, x); }
  }

  // ----- whole lookups

  /** The section is on the entry in some state from `j` to `i`. */
  ghost predicate Visited(states: seq<State>, j: nat, i: nat, t: Section, b: Bucket, x: Entry)
    requires i < |states|
  {
    exists k {:trigger states[k]} :: j <= k <= i && t in states[k].pcs && states[k].pcs[t] == Reading(b, x)
  }

  /** The section starts a lookup in bucket `b` in step `j` and is at it until state `i`. */
  ghost predicate Lookup(states: seq<State>, steps: seq<Step>, j: nat, i: nat, t: Section, b: Bucket)
    requires i < |states| == |steps| + 1
  {
    && j < i && steps[j] == StartRead(t) && t in states[j].pcs && states[j].pcs[t] == Running(b)
    && forall k {:trigger states[k]} :: j < k <= i ==>
         t in states[k].pcs && states[k].pcs[t].Reading? && states[k].pcs[t].b == b
  }

  /** The entry is on the chain from state `j` to state `i`. */
  ghost predicate OnChain(states: seq<State>, j: nat, i: nat, b: Bucket, x: Entry)
    requires i < |states|
  {
    forall k {:trigger states[k]} :: j <= k <= i ==> b in states[k].chains && x in states[k].chains[b]
  }

  /** A lookup has been on the entry or will come to it. */
  ghost predicate Covers(states: seq<State>, j: nat, i: nat, t: Section, b: Bucket, x: Entry)
    requires i < |states|
  {
    Visited(states, j, i, t, b, x) || (t in states[i].pcs && states[i].pcs[t].Reading?
                                       && Reaches(states[i].next, states[i].pcs[t].e, x))
  }

  lemma StartReaches(s: State, t: Section, x: Entry)
    requires Inv(s) && Enabled(s, StartRead(t)) && x in s.chains[s.pcs[t].b]
    ensures var u, b := Next(s, StartRead(t)), s.pcs[t].b;
            t in u.pcs && u.pcs[t].Reading? && u.pcs[t].b == b && Reaches(u.next, u.pcs[t].e, x)
  {
    var b := s.pcs[t].b;
    assert ChainOk(s.next, s.place, s.marks, s.heads[b], s.chains[b], b);
    ListReaches(s.next, s.heads[b], s.chains[b], x);
  }

  /** A step of the section itself brings it on; any other step leaves it where it is. */
  lemma OwnStep(s: State, step: Step, t: Section)
    requires Enabled(s, step) && t in s.pcs && s.pcs[t].Reading? && t in Next(s, step).pcs
    ensures step != Advance(t) ==> Next(s, step).pcs[t] == s.pcs[t]
  {
    if Moves(step) { if step.t != t { OtherSection(s, step, t); } } else { NoMove(s, step); }
  }

  /** The steps of sections. */
  predicate Moves(step: Step)
  {
    || step.Enter? || step.Leave? || step.LoadHead? || step.LoadNext? || step.PopCas? || step.CountUp?
    || step.LinkLoad? || step.LinkCas? || step.StartRead? || step.Advance?
  }

  lemma NoMove(s: State, step: Step)
    requires Enabled(s, step) && !Moves(step)
    ensures Next(s, step).pcs == s.pcs
  {
  }

  lemma OtherSection(s: State, step: Step, t: Section)
    requires Enabled(s, step) && Moves(step) && step.t != t && t in s.pcs && t in Next(s, step).pcs
    ensures Next(s, step).pcs[t] == s.pcs[t]
  {
  }

  lemma CoverStep(s: State, step: Step, u: State, t: Section, b: Bucket, x: Entry)
    requires Inv(s) && Takes(s, step, u) && Safe(s, step) && t in s.pcs && s.pcs[t].Reading? && s.pcs[t].b == b
    requires Reaches(s.next, s.pcs[t].e, x) && s.pcs[t].e != x && t in u.pcs
    requires b in s.chains && x in s.chains[b] && b in u.chains && x in u.chains[b]
    ensures u.pcs[t].Reading? && Reaches(u.next, u.pcs[t].e, x)
  {
    if step == Advance(t) {
      AdvanceStep(s, t, x);
    } else {
      OwnStep(s, step, t);
      assert SectionOk(s.place, s.next, s.marks, t, s.pcs[t]);
      ReachKept(s, step, t, b, s.pcs[t].e, x);
    }
  }

  lemma AdvanceStep(s: State, t: Section, x: Entry)
    requires Enabled(s, Advance(t)) && Reaches(s.next, s.pcs[t].e, x) && s.pcs[t].e != x
    ensures var u := Next(s, Advance(t)); t in u.pcs && u.pcs[t].Reading? && Reaches(u.next, u.pcs[t].e, x)
  {
    ReachOn(s.next, s.pcs[t].e, x);
  }

  lemma {:induction false} Covered(states: seq<State>, steps: seq<Step>, size: nat, buckets: set<Bucket>,
                                   j: nat, i: nat, t: Section, b: Bucket, x: Entry)
    requires Run(states, steps, size, buckets) && i <= |steps| && Lookup(states, steps, j, i, t, b)
    requires OnChain(states, j, i, b, x)
    ensures Covers(states, j, i, t, b, x)
  {
    var h := i - 1;
    RunInv(states, steps, size, buckets, h);
    assert Takes(states[h], steps[h], states[h + 1]) && Safe(states[h], steps[h]);
    assert OnStep(states[h], states[h + 1], b, x);
    if h == j {
      StartReaches(states[j], t, x);
    } else {
      Covered(states, steps, size, buckets, j, h, t, b, x);
      if Visited(states, j, h, t, b, x) {
        VisitedSince(states, j, h, i, t, b, x);
      } else {
        CoverOn(states, steps, j, h, t, b, x);
      }
    }
  }

  ghost predicate OnStep(s: State, u: State, b: Bucket, x: Entry)
  {
    b in s.chains && x in s.chains[b] && b in u.chains && x in u.chains[b]
  }

  lemma CoverOn(states: seq<State>, steps: seq<Step>, j: nat, h: nat, t: Section, b: Bucket, x: Entry)
    requires j <= h < |steps| < |states| && Inv(states[h]) && Takes(states[h], steps[h], states[h + 1])
    requires Safe(states[h], steps[h]) && OnStep(states[h], states[h + 1], b, x) && t in states[h + 1].pcs
    requires t in states[h].pcs && states[h].pcs[t].Reading? && states[h].pcs[t].b == b
    requires Covers(states, j, h, t, b, x) && !Visited(states, j, h, t, b, x)
    ensures states[h + 1].pcs[t].Reading? && Reaches(states[h + 1].next, states[h + 1].pcs[t].e, x)
  {
    assert states[h].pcs[t] == Reading(b, states[h].pcs[t].e);
    CoverStep(states[h], steps[h], states[h + 1], t, b, x);
  }

  lemma VisitedSince(states: seq<State>, j: nat, h: nat, i: nat, t: Section, b: Bucket, x: Entry)
    requires h <= i < |states| && Visited(states, j, h, t, b, x)
    ensures Visited(states, j, i, t, b, x)
  {
  }

  /**
   * In every safe run, a lookup that comes to the end of its chain has been on every entry that was on the chain
   * from its start to its end, whatever was linked, marked or taken out meanwhile.
   */
  lemma LookupSeesAll(states: seq<State>, steps: seq<Step>, size: nat, buckets: set<Bucket>,
                      j: nat, i: nat, t: Section, b: Bucket, x: Entry)
    requires Run(states, steps, size, buckets) && i < |steps| && Lookup(states, steps, j, i, t, b)
    requires t in states[i + 1].pcs && states[i + 1].pcs[t].Running?
    requires OnChain(states, j, i + 1, b, x)
    ensures Visited(states, j, i, t, b, x)
  {
    Covered(states, steps, size, buckets, j, i, t, b, x);
    RunInv(states, steps, size, buckets, i);
    assert Takes(states[i], steps[i], states[i + 1]) && Safe(states[i], steps[i]);
    assert OnStep(states[i], states[i + 1], b, x);
    if !Visited(states, j, i, t, b, x) { CoverOn(states, steps, j, i, t, b, x); }
  }

  /** A lookup that ends where it starts has found the chain empty. */
  lemma EmptyLookup(s: State, t: Section)
    requires Inv(s) && Enabled(s, StartRead(t)) && Next(s, StartRead(t)).pcs[t].Running?
    ensures s.chains[s.pcs[t].b] == []
  {
    var b := s.pcs[t].b;
    assert ChainOk(s.next, s.place, s.marks, s.heads[b], s.chains[b], b);
  }
}
