/**
 * The delete worker of a bucket against all others: a walk that comes to the end of the chain has taken out every
 * entry that was marked when it began. And an entry that is taken out comes back to the free list.
 */
module HtableSweep {
  import opened Lists
  import opened HtableProtocol
  import opened HtableLookup

  /** The entry the worker is at, if it is at one. */
  function Ahead(w: Worker): Ptr
  {
    match w
    case Asleep => Null
    case Walk(_, ent) => ent
    case Seen(_, at) => To(at)
    case Doomed(_, at) => To(at)
  }

  /** The worker will come to the entry, and has not passed it. */
  ghost predicate Awaits(s: State, b: Bucket, x: Entry)
  {
    && b in s.workers && Ahead(s.workers[b]).To? && Reaches(s.next, Ahead(s.workers[b]).e, x)
    && (s.workers[b].Seen? ==> s.workers[b].at != x)
  }

  /** The entry is on the chain and marked. */
  ghost predicate MarkedOn(s: State, b: Bucket, x: Entry)
  {
    b in s.chains && x in s.chains[b] && x in s.marks && s.marks[x] == Marked
  }

  // ----- steps of others

  predicate WorksOn(step: Step, b: Bucket)
  {
    (step.WorkStart? || step.WorkStop? || step.WorkTest? || step.WorkPass? || step.WorkUnlink?) && step.b == b
  }

  lemma OtherWorkers(s: State, step: Step, b: Bucket)
    requires Enabled(s, step) && !WorksOn(step, b) && b in s.workers
    ensures b in Next(s, step).workers && Next(s, step).workers[b] == s.workers[b]
  {
    if step.WorkStart? || step.WorkStop? || step.WorkTest? || step.WorkPass? || step.WorkUnlink? {
      assert step.b != b;
    } else {
      NoWork(s, step);
    }
  }

  lemma NoWork(s: State, step: Step)
    requires Enabled(s, step)
    requires !(step.WorkStart? || step.WorkStop? || step.WorkTest? || step.WorkPass? || step.WorkUnlink?)
    ensures Next(s, step).workers == s.workers
  {
    if step.PopCas? {
      assert AfterPop(s, step.t).workers == s.workers;
    } else if step.LinkCas? {
      assert AfterLink(s, step.t).workers == s.workers;
    }
  }

  lemma ChainKept(s: State, step: Step, b: Bucket, y: Entry)
    requires Inv(s) && Enabled(s, step) && !step.WorkUnlink? && b in s.chains && y in s.chains[b] && y in s.next
    ensures y in Next(s, step).next && Next(s, step).next[y] == s.next[y]
  {
    assert ChainOk(s.next, s.place, s.marks, s.heads[b], s.chains[b], b);
    if Stores(step) { StoredOffChain(s, step, b, y); } else { NoStore(s, step); }
  }

  lemma StoredOffChain(s: State, step: Step, b: Bucket, y: Entry)
    requires Inv(s) && Enabled(s, step) && Stores(step) && !step.WorkUnlink?
    requires y in s.place && s.place[y] == Chained(b) && y in s.next
    ensures y in Next(s, step).next && Next(s, step).next[y] == s.next[y]
  {
    if step.CountUp? || step.LinkLoad? {
      assert SectionOk(s.place, s.next, s.marks, step.t, s.pcs[step.t]);
      assert y != s.pcs[step.t].e;
    } else {
      assert y != step.e;
    }
  }

  lemma ChainClosed(s: State, step: Step, b: Bucket, all: iset<Entry>)
    requires Inv(s) && Enabled(s, step) && !step.WorkUnlink? && b in s.chains
    requires forall y :: y in all <==> y in s.chains[b]
    ensures Closed(s.next, Next(s, step).next, all)
  {
    forall y | y in all
      ensures y in s.next && y in Next(s, step).next && Next(s, step).next[y] == s.next[y]
      ensures s.next[y].To? ==> s.next[y].e in all
    {
      assert ChainOk(s.next, s.place, s.marks, s.heads[b], s.chains[b], b);
      ChainNext(s, b, y);
      ChainKept(s, step, b, y);
    }
  }

  /** What is reached along the chain still is after any step that leaves it there. */
  lemma ChainReach(s: State, step: Step, b: Bucket, e: Entry, x: Entry)
    requires Inv(s) && Enabled(s, step) && Safe(s, step) && b in s.chains && e in s.chains[b] && Reaches(s.next, e, x)
    requires x in s.chains[b] && b in Next(s, step).chains && x in Next(s, step).chains[b]
    ensures Reaches(Next(s, step).next, e, x)
  {
    var p :| Leads(s.next, p, e, x);
    if step.WorkUnlink? {
      UnlinkReach(s, step.b, b, p, e, x);
    } else {
      var all := iset y | y in s.chains[b];
      ChainClosed(s, step, b, all);
      KeptPath(s.next, Next(s, step).next, all, p, e, x);
    }
  }

  lemma AheadOnChain(s: State, b: Bucket)
    requires Inv(s) && b in s.workers && Ahead(s.workers[b]).To?
    ensures b in s.chains && Ahead(s.workers[b]).e in s.chains[b]
  {
    assert WorkerOk(s.marks, s.chains[b], s.workers[b]);
  }

  lemma OtherStep(s: State, step: Step, b: Bucket, x: Entry)
    requires Inv(s) && Enabled(s, step) && Safe(s, step) && !WorksOn(step, b) && Awaits(s, b, x)
    requires MarkedOn(s, b, x) && MarkedOn(Next(s, step), b, x)
    ensures Awaits(Next(s, step), b, x)
  {
    AheadOnChain(s, b);
    OtherWorkers(s, step, b);
    ChainReach(s, step, b, Ahead(s.workers[b]).e, x);
  }

  // ----- steps of the worker

  lemma HeadReaches(s: State, b: Bucket, x: Entry)
    requires Inv(s) && b in s.chains && x in s.chains[b]
    ensures b in s.heads && s.heads[b].To? && Reaches(s.next, s.heads[b].e, x)
  {
    assert ChainOk(s.next, s.place, s.marks, s.heads[b], s.chains[b], b);
    ListReaches(s.next, s.heads[b], s.chains[b], x);
  }

  lemma StartStep(s: State, b: Bucket, x: Entry)
    requires Inv(s) && Enabled(s, WorkStart(b)) && MarkedOn(s, b, x)
    ensures Awaits(Next(s, WorkStart(b)), b, x)
  {
    HeadReaches(s, b, x);
  }

  lemma TestStep(s: State, b: Bucket, x: Entry)
    requires Enabled(s, WorkTest(b)) && Awaits(s, b, x) && MarkedOn(s, b, x)
    ensures Awaits(Next(s, WorkTest(b)), b, x)
  {
  }

  lemma PassStep(s: State, b: Bucket, x: Entry)
    requires Enabled(s, WorkPass(b)) && Awaits(s, b, x)
    ensures Awaits(Next(s, WorkPass(b)), b, x)
  {
    ReachOn(s.next, s.workers[b].at, x);
  }

  lemma UnlinkStep(s: State, b: Bucket, x: Entry)
    requires Inv(s) && Enabled(s, WorkUnlink(b)) && Safe(s, WorkUnlink(b)) && Awaits(s, b, x)
    requires MarkedOn(s, b, x) && MarkedOn(Next(s, WorkUnlink(b)), b, x)
    ensures Awaits(Next(s, WorkUnlink(b)), b, x)
  {
    var Doomed(prev, at) := s.workers[b];
    if prev.Null? && s.heads[b] != To(at) {
      HeadReaches(s, b, x);
    } else {
      NotTaken(s, b, x);
      ReachOn(s.next, at, x);
      var p :| Leads(s.next, p, s.next[at].e, x);
      UnlinkReach(s, b, b, p, s.next[at].e, x);
    }
  }

  lemma NotTaken(s: State, b: Bucket, x: Entry)
    requires Inv(s) && Enabled(s, WorkUnlink(b)) && x in s.chains[b] && x in Next(s, WorkUnlink(b)).chains[b]
    requires !(s.workers[b].prev.Null? && s.heads[b] != To(s.workers[b].at))
    ensures x != s.workers[b].at
  {
    assert ChainOk(s.next, s.place, s.marks, s.heads[b], s.chains[b], b);
    WithoutMember(s.next, s.heads[b], s.chains[b], s.workers[b].at, x);
  }

  lemma SweepStep(s: State, step: Step, b: Bucket, x: Entry)
    requires Inv(s) && Enabled(s, step) && Safe(s, step) && Awaits(s, b, x) && step != WorkStop(b)
    requires MarkedOn(s, b, x) && MarkedOn(Next(s, step), b, x)
    ensures Awaits(Next(s, step), b, x)
  {
    if !WorksOn(step, b) {
      OtherStep(s, step, b, x);
    } else if step.WorkTest? {
      TestStep(s, b, x);
    } else if step.WorkPass? {
      PassStep(s, b, x);
    } else if step.WorkUnlink? {
      UnlinkStep(s, b, x);
    }
  }

  // ----- a mark stays until the entry is taken out

  lemma MarkStays(s: State, step: Step, b: Bucket, x: Entry)
    requires Inv(s) && Enabled(s, step) && MarkedOn(s, b, x)
    requires b in Next(s, step).chains && x in Next(s, step).chains[b]
    ensures MarkedOn(Next(s, step), b, x)
  {
    assert ChainOk(s.next, s.place, s.marks, s.heads[b], s.chains[b], b);
    if step.LinkLoad? {
      assert SectionOk(s.place, s.next, s.marks, step.t, s.pcs[step.t]);
    } else if step.WorkUnlink? {
      UnlinkMarks(s, step.b, b, x);
    } else {
      MarksKept(s, step, x);
    }
  }

  lemma MarksKept(s: State, step: Step, x: Entry)
    requires Enabled(s, step) && !step.LinkLoad? && !step.WorkUnlink?
    requires x in s.marks && s.marks[x] == Marked && x in s.place && s.place[x].Chained?
    ensures x in Next(s, step).marks && Next(s, step).marks[x] == Marked
  {
    if !step.MarkDelete? && !step.GraceEnd? { NoMark(s, step); }
  }

  lemma NoMark(s: State, step: Step)
    requires Enabled(s, step) && !step.LinkLoad? && !step.WorkUnlink? && !step.MarkDelete? && !step.GraceEnd?
    ensures Next(s, step).marks == s.marks
  {
    if step.PopCas? {
      assert AfterPop(s, step.t).marks == s.marks;
    } else if step.LinkCas? {
      assert AfterLink(s, step.t).marks == s.marks;
    }
  }

  lemma UnlinkMarks(s: State, d: Bucket, b: Bucket, x: Entry)
    requires Inv(s) && Enabled(s, WorkUnlink(d)) && MarkedOn(s, b, x) && x in Next(s, WorkUnlink(d)).chains[b]
    ensures x in Next(s, WorkUnlink(d)).marks && Next(s, WorkUnlink(d)).marks[x] == Marked
  {
    var at := s.workers[d].at;
    if !(s.workers[d].prev.Null? && s.heads[d] != To(at)) {
      if b == d { NotTaken(s, b, x); } else { OtherChain(s, d, b, x); }
    }
  }

  lemma OtherChain(s: State, d: Bucket, b: Bucket, x: Entry)
    requires Inv(s) && Enabled(s, WorkUnlink(d)) && b in s.chains && x in s.chains[b] && b != d
    ensures x != s.workers[d].at
  {
    assert WorkerOk(s.marks, s.chains[d], s.workers[d]);
    assert ChainOk(s.next, s.place, s.marks, s.heads[d], s.chains[d], d);
    assert ChainOk(s.next, s.place, s.marks, s.heads[b], s.chains[b], b);
  }

  // ----- whole walks

  /** The worker of the bucket wakes up in step `j` and is at work until state `i`. */
  ghost predicate Sweep(states: seq<State>, steps: seq<Step>, j: nat, i: nat, b: Bucket)
    requires i < |states| == |steps| + 1
  {
    && j < i && steps[j] == WorkStart(b)
    && forall k {:trigger states[k]} :: j < k <= i ==> b in states[k].workers && !states[k].workers[b].Asleep?
  }

  lemma {:induction false} SweepCovers(states: seq<State>, steps: seq<Step>, size: nat, buckets: set<Bucket>,
                                       j: nat, i: nat, b: Bucket, x: Entry)
    requires Run(states, steps, size, buckets) && i <= |steps| && Sweep(states, steps, j, i, b)
    requires MarkedOn(states[j], b, x) && OnChain(states, j, i, b, x)
    ensures Awaits(states[i], b, x) && MarkedOn(states[i], b, x)
  {
    var h := i - 1;
    if h > j { SweepCovers(states, steps, size, buckets, j, h, b, x); }
    RunInv(states, steps, size, buckets, h);
    assert Takes(states[h], steps[h], states[h + 1]) && Safe(states[h], steps[h]);
    assert OnStep(states[h], states[h + 1], b, x);
    SweepOn(states[h], steps[h], states[h + 1], b, x, h == j);
  }

  lemma SweepOn(s: State, step: Step, u: State, b: Bucket, x: Entry, first: bool)
    requires Inv(s) && Takes(s, step, u) && Safe(s, step) && OnStep(s, u, b, x) && MarkedOn(s, b, x)
    requires if first then step == WorkStart(b) else Awaits(s, b, x)
    requires b in u.workers && !u.workers[b].Asleep?
    ensures Awaits(u, b, x) && MarkedOn(u, b, x)
  {
    MarkStays(s, step, b, x);
    if first {
      StartStep(s, b, x);
    } else {
      assert step != WorkStop(b);
      SweepStep(s, step, b, x);
    }
  }

  /**
   * In every safe run, when the worker of a bucket has come to the end of the chain, every entry that was on it and
   * marked when the worker woke up has been taken out since, whatever was linked or marked meanwhile.
   */
  lemma SweepTakesMarked(states: seq<State>, steps: seq<Step>, size: nat, buckets: set<Bucket>,
                         j: nat, i: nat, b: Bucket, x: Entry)
    requires Run(states, steps, size, buckets) && i <= |steps| && Sweep(states, steps, j, i, b)
    requires MarkedOn(states[j], b, x) && Ahead(states[i].workers[b]).Null?
    ensures exists k {:trigger states[k]} :: j <= k <= i && !(b in states[k].chains && x in states[k].chains[b])
  {
    if OnChain(states, j, i, b, x) { SweepCovers(states, steps, size, buckets, j, i, b, x); }
  }

  // ----- the way back

  /** An entry whose grace period is over, if nobody interferes, goes to the head of the free list. */
  lemma ReturnsToFree(s: State, e: Entry) returns (a: State, b: State, c: State)
    requires Enabled(s, GraceEnd(e))
    ensures Takes(s, GraceEnd(e), a) && Takes(a, PushLoad(e), b) && Takes(b, PushCas(e), c)
    ensures c.free == [e] + s.free && c.freeHead == To(e) && c.owedDown == s.owedDown + 1
    ensures e in c.next && c.next[e] == s.freeHead && e in c.place && c.place[e] == Free
    ensures e in c.marks && c.marks[e] == Clear
  {
    a := Next(s, GraceEnd(e));
    b := Next(a, PushLoad(e));
    c := Next(b, PushCas(e));
  }
}
