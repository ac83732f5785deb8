/**
 * The overflow entries of the hash table under concurrency: allocation from a lock-free
 * free list, linking at the head of a bucket's chain, marking, unlinking by the bucket's
 * delete worker, and the return to the free list after a grace period. Reads and
 * compare-and-swaps are separate steps, in any interleaving.
 */
module HtableProtocol {

  import opened Lists

  type Section = nat
  type Bucket = nat

  datatype Mark = Clear | Valid | Marked | Processed

  /** Where a read-side section of the datapath is, working on bucket `b`. */
  datatype Pc =
    | Running(b: Bucket)
    | GotHead(b: Bucket, e: Entry)              // has read the free-list head
    | GotNext(b: Bucket, e: Entry, n: Ptr)      // has read that entry's successor
    | Popped(b: Bucket, e: Entry)               // owns the entry, usage counter not yet incremented
    | Owner(b: Bucket, e: Entry)
    | Linking(b: Bucket, e: Entry, n: Ptr)      // has set the entry's successor to the chain head it read
    | Reading(b: Bucket, e: Entry)              // a lookup that has come to this entry of the chain

  /** Where the delete worker of a bucket is in its walk. `Null` as previous means the bucket head. */
  datatype Worker =
    | Asleep
    | Walk(prev: Ptr, ent: Ptr)
    | Seen(prev: Ptr, at: Entry)                // first test found the entry not marked
    | Doomed(prev: Ptr, at: Entry)              // first test found the entry marked

  /** Where an entry is. */
  datatype Place =
    | Free
    | Transit(t: Section)
    | Chained(b: Bucket)
    | Grace(b: Bucket, waiting: set<Section>)   // unlinked, waiting for these sections to end
    | Returning(tmp: Ptr, ready: bool)          // being pushed; `ready` once its successor is set to `tmp`

  /** Pointers, flags and counters; and, from `sections` on, what they stand for. */
  datatype State = State(
    next: map<Entry, Ptr>,
    marks: map<Entry, Mark>,
    freeHead: Ptr,
    heads: map<Bucket, Ptr>,
    pcs: map<Section, Pc>,
    workers: map<Bucket, Worker>,
    used: int,
    sections: set<Section>,
    owedUp: set<Section>,
    owedDown: nat,
    place: map<Entry, Place>,
    free: seq<Entry>,
    chains: map<Bucket, seq<Entry>>)

  // ----- steps

  datatype Step =
    | Enter(t: Section, b: Bucket)
    | Leave(t: Section)
    | LoadHead(t: Section)
    | LoadNext(t: Section)
    | PopCas(t: Section)
    | CountUp(t: Section)
    | LinkLoad(t: Section)
    | LinkCas(t: Section)
    | StartRead(t: Section)
    | Advance(t: Section)
    | MarkDelete(e: Entry)
    | WorkStart(b: Bucket)
    | WorkStop(b: Bucket)
    | WorkTest(b: Bucket)
    | WorkPass(b: Bucket)
    | WorkUnlink(b: Bucket)
    | GraceEnd(e: Entry)
    | PushLoad(e: Entry)
    | PushCas(e: Entry)
    | CountDown

  predicate At(s: State, t: Section)
  {
    t in s.pcs && s.pcs[t].b in s.heads && s.pcs[t].b in s.chains && (!s.pcs[t].Running? ==> s.pcs[t].e in s.next)
  }

  predicate WorkerAt(s: State, b: Bucket)
  {
    && b in s.workers && b in s.heads && b in s.chains
    && (s.workers[b].Seen? || s.workers[b].Doomed? ==> s.workers[b].at in s.next && s.workers[b].at in s.marks)
  }

  predicate EntryAt(s: State, e: Entry)
  {
    e in s.next && e in s.marks && e in s.place
  }

  predicate Enabled(s: State, step: Step)
  {
    match step
    case Enter(t, b) => t !in s.pcs && t !in s.sections && b in s.heads
    case Leave(t) => At(s, t) && s.pcs[t].Running?
    case LoadHead(t) => At(s, t) && s.pcs[t].Running?
    case LoadNext(t) => At(s, t) && s.pcs[t].GotHead?
    case PopCas(t) => At(s, t) && s.pcs[t].GotNext?
    case CountUp(t) => At(s, t) && s.pcs[t].Popped?
    case LinkLoad(t) => At(s, t) && s.pcs[t].Owner?
    case LinkCas(t) => At(s, t) && s.pcs[t].Linking?
    case StartRead(t) => At(s, t) && s.pcs[t].Running?
    case Advance(t) => At(s, t) && s.pcs[t].Reading?
    case MarkDelete(e) => EntryAt(s, e) && s.place[e].Chained? && s.marks[e] == Valid
    case WorkStart(b) => WorkerAt(s, b) && s.workers[b].Asleep?
    case WorkStop(b) => WorkerAt(s, b) && s.workers[b].Walk?
    case WorkTest(b) => WorkerAt(s, b) && s.workers[b].Walk? && s.workers[b].ent.To? && s.workers[b].ent.e in s.marks
    case WorkPass(b) => WorkerAt(s, b) && s.workers[b].Seen?
    case WorkUnlink(b) => WorkerAt(s, b) && s.workers[b].Doomed?
    case GraceEnd(e) => EntryAt(s, e) && s.place[e].Grace? && s.place[e].waiting !! s.pcs.Keys
    case PushLoad(e) => EntryAt(s, e) && s.place[e].Returning? && !s.place[e].ready
    case PushCas(e) => EntryAt(s, e) && s.place[e].Returning? && s.place[e].ready
    case CountDown => s.owedDown > 0
  }

  function SetPc(s: State, t: Section, pc: Pc): State
  {
    s.(pcs := s.pcs[t := pc])
  }

  function SetWorker(s: State, b: Bucket, w: Worker): State
  {
    s.(workers := s.workers[b := w])
  }

  function AfterPop(s: State, t: Section): State
    requires Enabled(s, PopCas(t))
  {
    var GotNext(b, e, n) := s.pcs[t];
    if s.freeHead == To(e) then
      SetPc(s, t, Popped(b, e)).(
        freeHead := n,
        owedUp := s.owedUp + {t},
        place := s.place[e := Transit(t)],
        free := if s.free == [] then [] else s.free[1..])
    else SetPc(s, t, Running(b))
  }

  function AfterLink(s: State, t: Section): State
    requires Enabled(s, LinkCas(t))
  {
    var Linking(b, e, n) := s.pcs[t];
    if s.heads[b] == n then
      SetPc(s, t, Running(b)).(
        heads := s.heads[b := To(e)],
        place := s.place[e := Chained(b)],
        chains := s.chains[b := [e] + s.chains[b]])
    else SetPc(s, t, Owner(b, e))
  }

  /** The worker takes the entry out: by compare-and-swap at the head, by a plain store further on. */
  function AfterUnlink(s: State, b: Bucket): State
    requires Enabled(s, WorkUnlink(b))
  {
    var Doomed(prev, e) := s.workers[b];
    if prev.Null? && s.heads[b] != To(e) then SetWorker(s, b, Walk(Null, s.heads[b]))
    else
      s.(workers := s.workers[b := Walk(prev, s.next[e])],
         heads := if prev.Null? then s.heads[b := s.next[e]] else s.heads,
         next := if prev.Null? then s.next else s.next[prev.e := s.next[e]],
         marks := s.marks[e := Processed],
         place := s.place[e := Grace(b, s.pcs.Keys)],
         chains := s.chains[b := Without(s.chains[b], e)])
  }

  function Next(s: State, step: Step): State
    requires Enabled(s, step)
  {
    match step
    case Enter(t, b) => SetPc(s, t, Running(b)).(sections := s.sections + {t})
    case Leave(t) => s.(pcs := s.pcs - {t})
    case LoadHead(t) => if s.freeHead.Null? then s else SetPc(s, t, GotHead(s.pcs[t].b, s.freeHead.e))
    case LoadNext(t) => SetPc(s, t, GotNext(s.pcs[t].b, s.pcs[t].e, s.next[s.pcs[t].e]))
    case PopCas(t) => AfterPop(s, t)
    case CountUp(t) =>
      var Popped(b, e) := s.pcs[t];
      SetPc(s, t, Owner(b, e)).(used := s.used + 1, owedUp := s.owedUp - {t}, next := s.next[e := Null])
    case LinkLoad(t) =>
      var Owner(b, e) := s.pcs[t];
      SetPc(s, t, Linking(b, e, s.heads[b])).(next := s.next[e := s.heads[b]], marks := s.marks[e := Valid])
    case LinkCas(t) => AfterLink(s, t)
    case StartRead(t) => if s.heads[s.pcs[t].b].Null? then s
      else SetPc(s, t, Reading(s.pcs[t].b, s.heads[s.pcs[t].b].e))
    case Advance(t) =>
      var Reading(b, e) := s.pcs[t];
      SetPc(s, t, if s.next[e].Null? then Running(b) else Reading(b, s.next[e].e))
    case MarkDelete(e) => s.(marks := s.marks[e := Marked])
    case WorkStart(b) => SetWorker(s, b, Walk(Null, s.heads[b]))
    case WorkStop(b) => SetWorker(s, b, Asleep)
    case WorkTest(b) =>
      var Walk(prev, ent) := s.workers[b];
      SetWorker(s, b, if s.marks[ent.e] == Marked then Doomed(prev, ent.e) else Seen(prev, ent.e))
    case WorkPass(b) =>
      var Seen(prev, e) := s.workers[b];
      SetWorker(s, b, Walk(if s.marks[e].Marked? || s.marks[e].Processed? then prev else To(e), s.next[e]))
    case WorkUnlink(b) => AfterUnlink(s, b)
    case GraceEnd(e) =>
      s.(next := s.next[e := Null], marks := s.marks[e := Clear], place := s.place[e := Returning(Null, false)])
    case PushLoad(e) => s.(next := s.next[e := s.freeHead], place := s.place[e := Returning(s.freeHead, true)])
    case PushCas(e) =>
      if s.freeHead == s.place[e].tmp then
        s.(freeHead := To(e), free := [e] + s.free, place := s.place[e := Free], owedDown := s.owedDown + 1)
      else s.(place := s.place[e := Returning(Null, false)])
    case CountDown => s.(used := s.used - 1, owedDown := s.owedDown - 1)
  }

  // ----- what every step keeps

  ghost predicate FreeOk(next: map<Entry, Ptr>, place: map<Entry, Place>, head: Ptr, free: seq<Entry>)
  {
    && List(next, head, free)
    && forall e {:trigger e in free} :: e in free <==> e in place && place[e].Free?
  }

  ghost predicate ChainOk(next: map<Entry, Ptr>, place: map<Entry, Place>, marks: map<Entry, Mark>,
                          head: Ptr, chain: seq<Entry>, b: Bucket)
  {
    && List(next, head, chain)
    && (forall e {:trigger e in chain} :: e in chain <==> e in place && place[e] == Chained(b))
    && forall e {:trigger e in chain} :: e in chain ==> e in marks && (marks[e] == Valid || marks[e] == Marked)
  }

  /** The entry a section has read from the free list cannot come back there while the section lasts. */
  ghost predicate Shielded(place: map<Entry, Place>, t: Section, e: Entry)
  {
    e in place && !place[e].Returning? && (place[e].Grace? ==> t in place[e].waiting)
  }

  /** The entry belongs to the chain of `b`, or left it while the section was already there. */
  ghost predicate ReadSafe(place: map<Entry, Place>, t: Section, b: Bucket, e: Entry)
  {
    e in place && (place[e] == Chained(b) || (place[e].Grace? && place[e].b == b && t in place[e].waiting))
  }

  ghost predicate SectionOk(place: map<Entry, Place>, next: map<Entry, Ptr>, marks: map<Entry, Mark>, t: Section,
                            pc: Pc)
  {
    match pc
    case Running(_) => true
    case GotHead(_, e) => Shielded(place, t, e)
    case GotNext(_, e, n) => Shielded(place, t, e) && e in next && (place[e].Free? ==> next[e] == n)
    case Popped(_, e) => e in place && place[e] == Transit(t)
    case Owner(_, e) => e in place && place[e] == Transit(t)
    case Linking(_, e, n) =>
      e in place && place[e] == Transit(t) && e in next && next[e] == n && e in marks && marks[e] == Valid
    case Reading(b, e) => ReadSafe(place, t, b, e)
  }

  predicate Owns(pc: Pc, e: Entry)
  {
    (pc.Popped? || pc.Owner? || pc.Linking?) && pc.e == e
  }

  /** From an unlinked entry one only comes to its old chain or to an entry unlinked later. */
  ghost predicate LimboNext(place: map<Entry, Place>, active: set<Section>, b: Bucket, w: set<Section>, f: Entry)
  {
    && f in place
    && (place[f] == Chained(b) || (place[f].Grace? && place[f].b == b && w * active <= place[f].waiting))
  }

  ghost predicate EntryOk(place: map<Entry, Place>, next: map<Entry, Ptr>, pcs: map<Section, Pc>,
                          sections: set<Section>, e: Entry)
  {
    && e in place && e in next
    && match place[e]
       case Transit(t) => t in pcs && Owns(pcs[t], e)
       case Grace(b, w) =>
         w <= sections && (next[e].To? && !(w !! pcs.Keys) ==> LimboNext(place, pcs.Keys, b, w, next[e].e))
       case Returning(tmp, ready) => ready ==> next[e] == tmp
       case _ => true
  }

  /** The walk is inside the chain; that the previous entry precedes the current one is not said. */
  ghost predicate WalkOk(chain: seq<Entry>, prev: Ptr, ent: Ptr)
  {
    (ent.To? ==> ent.e in chain) && (prev.To? ==> prev.e in chain)
  }

  ghost predicate WorkerOk(marks: map<Entry, Mark>, chain: seq<Entry>, w: Worker)
  {
    match w
    case Asleep => true
    case Walk(prev, ent) => WalkOk(chain, prev, ent)
    case Seen(prev, e) => WalkOk(chain, prev, To(e))
    case Doomed(prev, e) => WalkOk(chain, prev, To(e)) && e in marks && marks[e] == Marked
  }

  ghost predicate CounterOk(s: State)
  {
    && s.used == |s.place| - |s.free| - |s.owedUp| + s.owedDown
    && forall t {:trigger t in s.owedUp} :: t in s.owedUp <==> t in s.pcs && s.pcs[t].Popped?
  }

  ghost predicate Domains(s: State)
  {
    && s.place.Keys == s.next.Keys == s.marks.Keys
    && s.heads.Keys == s.chains.Keys == s.workers.Keys
    && s.pcs.Keys <= s.sections
    && forall t {:trigger s.pcs[t]} :: t in s.pcs ==> s.pcs[t].b in s.heads
  }

  ghost predicate Chains(s: State)
    requires Domains(s)
  {
    forall b {:trigger s.chains[b]} :: b in s.chains ==> ChainOk(s.next, s.place, s.marks, s.heads[b], s.chains[b], b)
  }

  ghost predicate Sections(s: State)
  {
    forall t {:trigger s.pcs[t]} :: t in s.pcs ==> SectionOk(s.place, s.next, s.marks, t, s.pcs[t])
  }

  ghost predicate Entries(s: State)
  {
    forall e {:trigger EntryOk(s.place, s.next, s.pcs, s.sections, e)} ::
      e in s.place ==> EntryOk(s.place, s.next, s.pcs, s.sections, e)
  }

  ghost predicate Workers(s: State)
    requires Domains(s)
  {
    forall b {:trigger s.workers[b]} :: b in s.workers ==> WorkerOk(s.marks, s.chains[b], s.workers[b])
  }

  ghost predicate Inv(s: State)
  {
    && Domains(s)
    && CounterOk(s)
    && FreeOk(s.next, s.place, s.freeHead, s.free)
    && Chains(s)
    && Sections(s)
    && Entries(s)
    && Workers(s)
  }

  /**
   * The store that takes an entry out is right: at the head of the bucket it is a compare-and-swap, further
   * on the previous entry must still point to the one taken out.
   */
  predicate UnlinkSafe(s: State, b: Bucket)
    requires Enabled(s, WorkUnlink(b))
  {
    var Doomed(prev, e) := s.workers[b];
    prev.To? ==> prev.e in s.next && s.next[prev.e] == To(e)
  }

  predicate Safe(s: State, step: Step)
    requires Enabled(s, step)
  {
    step.WorkUnlink? ==> UnlinkSafe(s, step.b)
  }

  // ----- a section moves

  /** The entry a moving section comes to is one it may be at. */
  ghost predicate MayBeAt(s: State, t: Section, pc: Pc)
  {
    SectionOk(s.place, s.next, s.marks, t, pc) && pc.b in s.heads && !pc.Popped?
  }

  predicate HoldsNothing(pc: Pc)
  {
    pc.Running? || pc.GotHead? || pc.GotNext? || pc.Reading?
  }

  /** Entries only care about the sections that own one, and about which old sections are still active. */
  lemma PcsEntry(s: State, u: State, e: Entry)
    requires Inv(s) && e in s.place && u.place == s.place && u.next == s.next && s.sections <= u.sections
    requires forall t :: t in u.pcs && t in s.sections ==> t in s.pcs
    requires forall t :: t in s.pcs && !HoldsNothing(s.pcs[t]) ==> t in u.pcs && u.pcs[t] == s.pcs[t]
    ensures EntryOk(u.place, u.next, u.pcs, u.sections, e)
  {
    assert EntryOk(s.place, s.next, s.pcs, s.sections, e);
    if s.place[e].Grace? {
      var w := s.place[e].waiting;
      assert w * u.pcs.Keys <= w * s.pcs.Keys;
    }
  }

  lemma MoveEntries(s: State, t: Section, pc: Pc)
    requires Inv(s) && t in s.pcs && HoldsNothing(s.pcs[t]) && HoldsNothing(pc)
    ensures Entries(SetPc(s, t, pc))
  {
    var u := SetPc(s, t, pc);
    forall e | e in u.place ensures EntryOk(u.place, u.next, u.pcs, u.sections, e) { PcsEntry(s, u, e); }
  }

  lemma MoveSections(s: State, t: Section, pc: Pc)
    requires Inv(s) && t in s.pcs && MayBeAt(s, t, pc)
    ensures Sections(SetPc(s, t, pc)) && Domains(SetPc(s, t, pc))
  {
    var u := SetPc(s, t, pc);
    forall r | r in u.pcs ensures SectionOk(u.place, u.next, u.marks, r, u.pcs[r]) && u.pcs[r].b in u.heads {
      if r != t { assert s.pcs[r] == u.pcs[r]; }
    }
  }

  lemma MoveInv(s: State, t: Section, pc: Pc)
    requires Inv(s) && t in s.pcs && HoldsNothing(s.pcs[t]) && HoldsNothing(pc) && MayBeAt(s, t, pc)
    ensures Inv(SetPc(s, t, pc))
  {
    MoveEntries(s, t, pc);
    MoveSections(s, t, pc);
  }

  lemma EnterSections(s: State, t: Section, b: Bucket)
    requires Inv(s) && Enabled(s, Enter(t, b))
    ensures Sections(Next(s, Enter(t, b))) && Domains(Next(s, Enter(t, b)))
  {
  }

  lemma EnterEntries(s: State, t: Section, b: Bucket)
    requires Inv(s) && Enabled(s, Enter(t, b))
    ensures Entries(Next(s, Enter(t, b)))
  {
    var u := Next(s, Enter(t, b));
    forall e | e in u.place ensures EntryOk(u.place, u.next, u.pcs, u.sections, e) { PcsEntry(s, u, e); }
  }

  lemma EnterInv(s: State, t: Section, b: Bucket)
    requires Inv(s) && Enabled(s, Enter(t, b))
    ensures Inv(Next(s, Enter(t, b)))
  {
    EnterSections(s, t, b);
    EnterEntries(s, t, b);
  }

  lemma LeaveInv(s: State, t: Section)
    requires Inv(s) && Enabled(s, Leave(t))
    ensures Inv(Next(s, Leave(t)))
  {
    var u := Next(s, Leave(t));
    assert u.pcs.Keys == s.pcs.Keys - {t};
    assert Entries(u) by {
      forall e | e in u.place ensures EntryOk(u.place, u.next, u.pcs, u.sections, e) { PcsEntry(s, u, e); }
    }
    assert Sections(u) by {
      forall r | r in u.pcs ensures SectionOk(u.place, u.next, u.marks, r, u.pcs[r]) { assert s.pcs[r] == u.pcs[r]; }
    }
  }

  lemma LoadHeadInv(s: State, t: Section)
    requires Inv(s) && Enabled(s, LoadHead(t))
    ensures Inv(Next(s, LoadHead(t)))
  {
    if s.freeHead.To? {
      assert s.free[0] in s.free;
      MoveInv(s, t, GotHead(s.pcs[t].b, s.freeHead.e));
    }
  }

  lemma LoadNextInv(s: State, t: Section)
    requires Inv(s) && Enabled(s, LoadNext(t))
    ensures Inv(Next(s, LoadNext(t)))
  {
    MoveInv(s, t, GotNext(s.pcs[t].b, s.pcs[t].e, s.next[s.pcs[t].e]));
  }

  lemma StartReadInv(s: State, t: Section)
    requires Inv(s) && Enabled(s, StartRead(t))
    ensures Inv(Next(s, StartRead(t)))
  {
    var b := s.pcs[t].b;
    if s.heads[b].To? {
      var c := s.chains[b];
      assert ChainOk(s.next, s.place, s.marks, s.heads[b], c, b);
      assert c[0] in c;
      MoveInv(s, t, Reading(b, s.heads[b].e));
    }
  }

  /** Following the pointer of an entry a lookup may be on leads to another such entry. */
  lemma AdvanceInv(s: State, t: Section)
    requires Inv(s) && Enabled(s, Advance(t))
    ensures Inv(Next(s, Advance(t)))
  {
    var Reading(b, e) := s.pcs[t];
    assert EntryOk(s.place, s.next, s.pcs, s.sections, e);
    if s.next[e].To? {
      var f := s.next[e].e;
      if s.place[e] == Chained(b) {
        ChainNext(s, b, e);
      }
      assert ReadSafe(s.place, t, b, f);
      MoveInv(s, t, Reading(b, f));
    } else {
      MoveInv(s, t, Running(b));
    }
  }

  lemma ChainNext(s: State, b: Bucket, e: Entry)
    requires Inv(s) && b in s.chains && e in s.place && s.place[e] == Chained(b)
    ensures e in s.chains[b] && e in s.next
    ensures s.next[e].To? ==> s.next[e].e in s.chains[b] && s.next[e].e != e
                              && s.next[e].e in s.place && s.place[s.next[e].e] == Chained(b)
  {
    assert ChainOk(s.next, s.place, s.marks, s.heads[b], s.chains[b], b);
    assert e in s.chains[b];
    ListNext(s.next, s.heads[b], s.chains[b], e);
    if s.next[e].To? {
      assert s.next[e].e in s.chains[b];
    }
  }

  // ----- a worker moves, or an entry is marked

  lemma SetWorkerInv(s: State, b: Bucket, w: Worker)
    requires Inv(s) && b in s.workers && WorkerOk(s.marks, s.chains[b], w)
    ensures Inv(SetWorker(s, b, w))
  {
  }

  lemma RestartInv(s: State, b: Bucket)
    requires Inv(s) && b in s.workers
    ensures Inv(SetWorker(s, b, Walk(Null, s.heads[b])))
  {
  }

  lemma WorkTestInv(s: State, b: Bucket)
    requires Inv(s) && Enabled(s, WorkTest(b))
    ensures Inv(Next(s, WorkTest(b)))
  {
  }

  lemma WorkPassInv(s: State, b: Bucket)
    requires Inv(s) && Enabled(s, WorkPass(b))
    ensures Inv(Next(s, WorkPass(b)))
  {
    var Seen(prev, e) := s.workers[b];
    assert e in s.chains[b];
    assert ChainOk(s.next, s.place, s.marks, s.heads[b], s.chains[b], b);
    ChainNext(s, b, e);
    SetWorkerInv(s, b, Next(s, WorkPass(b)).workers[b]);
  }

  lemma MarkDeleteInv(s: State, e: Entry)
    requires Inv(s) && Enabled(s, MarkDelete(e))
    ensures Inv(Next(s, MarkDelete(e)))
  {
    var u := Next(s, MarkDelete(e));
    assert Chains(u) by {
      forall b | b in u.chains ensures ChainOk(u.next, u.place, u.marks, u.heads[b], u.chains[b], b) {
        assert ChainOk(s.next, s.place, s.marks, s.heads[b], s.chains[b], b);
      }
    }
    assert Workers(u) by {
      forall b | b in u.workers ensures WorkerOk(u.marks, u.chains[b], u.workers[b]) {
        assert WorkerOk(s.marks, s.chains[b], s.workers[b]);
      }
    }
    assert Sections(u) by {
      forall r | r in u.pcs ensures SectionOk(u.place, u.next, u.marks, r, u.pcs[r]) {
        assert SectionOk(s.place, s.next, s.marks, r, s.pcs[r]);
      }
    }
  }

  // ----- work on an entry that is on no list

  predicate OnList(p: Place)
  {
    p.Free? || p.Chained?
  }

  /** `u` differs from `s` in the pointer, flags and place of an entry that was and is on no list, and in nothing
      else that lists and workers care about. */
  ghost predicate OffListChange(s: State, u: State, e: Entry)
  {
    && e in s.place && e in u.place && !OnList(s.place[e]) && !OnList(u.place[e])
    && AgreeOff(s.next, u.next, e) && AgreeOff(s.marks, u.marks, e) && AgreeOff(s.place, u.place, e)
    && u.heads == s.heads && u.chains == s.chains && u.workers == s.workers
    && u.free == s.free && u.freeHead == s.freeHead
  }

  lemma OffListChain(s: State, u: State, e: Entry, b: Bucket)
    requires Inv(s) && OffListChange(s, u, e) && b in s.chains
    ensures ChainOk(u.next, u.place, u.marks, u.heads[b], u.chains[b], b)
  {
    assert ChainOk(s.next, s.place, s.marks, s.heads[b], s.chains[b], b);
    assert e !in s.chains[b];
    ListAgree(s.next, u.next, s.heads[b], s.chains[b], e);
  }

  lemma OffListFree(s: State, u: State, e: Entry)
    requires Inv(s) && OffListChange(s, u, e)
    ensures FreeOk(u.next, u.place, u.freeHead, u.free)
  {
    assert e !in s.free;
    ListAgree(s.next, u.next, s.freeHead, s.free, e);
  }

  lemma OffListWorker(s: State, u: State, e: Entry, b: Bucket)
    requires Inv(s) && OffListChange(s, u, e) && b in s.workers
    ensures WorkerOk(u.marks, u.chains[b], u.workers[b])
  {
  }

  lemma OffListInv(s: State, u: State, e: Entry)
    requires Inv(s) && OffListChange(s, u, e) && Domains(u) && CounterOk(u) && Entries(u) && Sections(u)
    ensures Inv(u)
  {
    OffListFree(s, u, e);
    forall b | b in u.chains ensures ChainOk(u.next, u.place, u.marks, u.heads[b], u.chains[b], b) {
      OffListChain(s, u, e, b);
    }
    forall b | b in u.workers ensures WorkerOk(u.marks, u.chains[b], u.workers[b]) {
      OffListWorker(s, u, e, b);
    }
  }

  /** An owner works on its entry and on its own program counter only. */
  ghost predicate OwnChange(s: State, u: State, t: Section, e: Entry)
  {
    && t in s.pcs && t in u.pcs && Owns(s.pcs[t], e) && Owns(u.pcs[t], e) && u.pcs[t].b == s.pcs[t].b
    && u.pcs == s.pcs[t := u.pcs[t]]
    && (u.pcs[t].Linking? ==> e in u.next && u.pcs[t].n == u.next[e] && e in u.marks && u.marks[e] == Valid)
    && u.place == s.place && u.sections == s.sections
  }

  lemma OwnerPlace(s: State, t: Section, e: Entry)
    requires Inv(s) && t in s.pcs && Owns(s.pcs[t], e)
    ensures e in s.place && s.place[e] == Transit(t)
  {
  }

  lemma OwnEntry(s: State, u: State, t: Section, e: Entry, x: Entry)
    requires Inv(s) && OwnChange(s, u, t, e) && AgreeOff(s.next, u.next, e) && x in s.place
    ensures EntryOk(u.place, u.next, u.pcs, u.sections, x)
  {
    OwnerPlace(s, t, e);
    assert EntryOk(s.place, s.next, s.pcs, s.sections, x);
    assert u.pcs.Keys == s.pcs.Keys;
  }

  lemma OwnSection(s: State, u: State, t: Section, e: Entry, r: Section)
    requires Inv(s) && OwnChange(s, u, t, e) && AgreeOff(s.next, u.next, e) && AgreeOff(s.marks, u.marks, e)
      && r in s.pcs
    ensures SectionOk(u.place, u.next, u.marks, r, u.pcs[r]) && u.pcs[r].b in s.heads
  {
    OwnerPlace(s, t, e);
    assert SectionOk(s.place, s.next, s.marks, r, s.pcs[r]);
  }

  lemma OwnInv(s: State, u: State, t: Section, e: Entry)
    requires Inv(s) && OwnChange(s, u, t, e) && OffListChange(s, u, e) && CounterOk(u)
    ensures Inv(u)
  {
    assert u.pcs.Keys == s.pcs.Keys;
    assert Entries(u) by {
      forall x | x in u.place ensures EntryOk(u.place, u.next, u.pcs, u.sections, x) { OwnEntry(s, u, t, e, x); }
    }
    forall r | r in u.pcs ensures SectionOk(u.place, u.next, u.marks, r, u.pcs[r]) && u.pcs[r].b in u.heads {
      OwnSection(s, u, t, e, r);
    }
    OffListInv(s, u, e);
  }

  lemma CountUpCounter(s: State, t: Section)
    requires Inv(s) && Enabled(s, CountUp(t))
    ensures CounterOk(Next(s, CountUp(t)))
  {
    assert t in s.owedUp;
  }

  lemma CountUpInv(s: State, t: Section)
    requires Inv(s) && Enabled(s, CountUp(t))
    ensures Inv(Next(s, CountUp(t)))
  {
    OwnerPlace(s, t, s.pcs[t].e);
    CountUpCounter(s, t);
    OwnInv(s, Next(s, CountUp(t)), t, s.pcs[t].e);
  }

  lemma LinkLoadInv(s: State, t: Section)
    requires Inv(s) && Enabled(s, LinkLoad(t))
    ensures Inv(Next(s, LinkLoad(t)))
  {
    OwnerPlace(s, t, s.pcs[t].e);
    var u := Next(s, LinkLoad(t));
    assert CounterOk(u);
    OwnInv(s, u, t, s.pcs[t].e);
  }

  // ----- the return to the free list

  /** The entry of a finished grace period is known to no active section. */
  lemma GraceEndEntry(s: State, e: Entry, x: Entry)
    requires Inv(s) && Enabled(s, GraceEnd(e)) && x in s.place
    ensures EntryOk(s.place[e := Returning(Null, false)], s.next[e := Null], s.pcs, s.sections, x)
  {
    assert EntryOk(s.place, s.next, s.pcs, s.sections, x);
  }

  lemma GraceEndSection(s: State, e: Entry, r: Section)
    requires Inv(s) && Enabled(s, GraceEnd(e)) && r in s.pcs
    ensures SectionOk(s.place[e := Returning(Null, false)], s.next[e := Null], s.marks[e := Clear], r, s.pcs[r])
  {
  }

  lemma SamePlaces(s: State, u: State)
    requires u.place.Keys == s.place.Keys
    ensures |u.place| == |s.place|
  {
  }

  /** Once no section that might know an unlinked entry is left, taking it over disturbs nobody. */
  lemma GraceEndInv(s: State, e: Entry)
    requires Inv(s) && Enabled(s, GraceEnd(e))
    ensures Inv(Next(s, GraceEnd(e)))
  {
    var u := Next(s, GraceEnd(e));
    assert u.place.Keys == s.place.Keys;
    SamePlaces(s, u);
    assert Entries(u) by {
      forall x | x in u.place ensures EntryOk(u.place, u.next, u.pcs, u.sections, x) { GraceEndEntry(s, e, x); }
    }
    assert Sections(u) by {
      forall r | r in u.pcs ensures SectionOk(u.place, u.next, u.marks, r, u.pcs[r]) { GraceEndSection(s, e, r); }
    }
    OffListInv(s, u, e);
  }

  ghost predicate ReturnChange(s: State, u: State, e: Entry)
  {
    && e in s.place && s.place[e].Returning?
    && e in u.place && e in u.next
    && (u.place[e].Free? || (u.place[e].Returning? && (u.place[e].ready ==> u.next[e] == u.place[e].tmp)))
    && AgreeOff(s.next, u.next, e) && AgreeOff(s.place, u.place, e)
    && u.marks == s.marks && u.pcs == s.pcs && u.sections == s.sections
  }

  lemma ReturnEntry(s: State, u: State, e: Entry, x: Entry)
    requires Inv(s) && ReturnChange(s, u, e) && x in s.place
    ensures EntryOk(u.place, u.next, u.pcs, u.sections, x)
  {
    assert EntryOk(s.place, s.next, s.pcs, s.sections, x);
  }

  lemma ReturnSection(s: State, u: State, e: Entry, r: Section)
    requires Inv(s) && ReturnChange(s, u, e) && r in s.pcs
    ensures SectionOk(u.place, u.next, u.marks, r, u.pcs[r])
  {
  }

  lemma ReturnParts(s: State, u: State, e: Entry)
    requires Inv(s) && ReturnChange(s, u, e)
    ensures Entries(u) && Sections(u)
  {
    forall x | x in u.place ensures EntryOk(u.place, u.next, u.pcs, u.sections, x) { ReturnEntry(s, u, e, x); }
    forall r | r in u.pcs ensures SectionOk(u.place, u.next, u.marks, r, u.pcs[r]) { ReturnSection(s, u, e, r); }
  }

  lemma PushLoadInv(s: State, e: Entry)
    requires Inv(s) && Enabled(s, PushLoad(e))
    ensures Inv(Next(s, PushLoad(e)))
  {
    var u := Next(s, PushLoad(e));
    ReturnParts(s, u, e);
    SamePlaces(s, u);
    OffListInv(s, u, e);
  }

  // ----- the free list itself

  /** A pop never acts on a stale successor: the entry at the head is one whose successor was read rightly. */
  lemma PopIsFresh(s: State, t: Section)
    requires Inv(s) && Enabled(s, PopCas(t)) && s.freeHead == To(s.pcs[t].e)
    ensures s.free != [] && s.free[0] == s.pcs[t].e && s.next[s.pcs[t].e] == s.pcs[t].n
    ensures s.pcs[t].e in s.place && s.place[s.pcs[t].e].Free?
  {
    assert SectionOk(s.place, s.next, s.marks, t, s.pcs[t]);
    assert s.free[0] in s.free;
  }

  lemma PopEntry(s: State, t: Section, x: Entry)
    requires Inv(s) && Enabled(s, PopCas(t)) && s.freeHead == To(s.pcs[t].e) && x in s.place
    ensures var u := AfterPop(s, t); EntryOk(u.place, u.next, u.pcs, u.sections, x)
  {
    PopIsFresh(s, t);
    assert EntryOk(s.place, s.next, s.pcs, s.sections, x);
    assert AfterPop(s, t).pcs.Keys == s.pcs.Keys;
  }

  lemma PopSection(s: State, t: Section, r: Section)
    requires Inv(s) && Enabled(s, PopCas(t)) && s.freeHead == To(s.pcs[t].e) && r in s.pcs
    ensures var u := AfterPop(s, t); SectionOk(u.place, u.next, u.marks, r, u.pcs[r])
  {
    PopIsFresh(s, t);
    assert SectionOk(s.place, s.next, s.marks, r, s.pcs[r]);
  }

  lemma PopFree(s: State, t: Section)
    requires Inv(s) && Enabled(s, PopCas(t)) && s.freeHead == To(s.pcs[t].e)
    ensures var u := AfterPop(s, t); FreeOk(u.next, u.place, u.freeHead, u.free) && CounterOk(u)
  {
    PopIsFresh(s, t);
    var u, e := AfterPop(s, t), s.pcs[t].e;
    forall x ensures x in u.free <==> x in u.place && u.place[x].Free? {
      assert x in s.free <==> x == s.free[0] || x in s.free[1..];
    }
    assert u.place.Keys == s.place.Keys;
    SamePlaces(s, u);
    assert t !in s.owedUp;
  }

  lemma PopChain(s: State, t: Section, b: Bucket)
    requires Inv(s) && Enabled(s, PopCas(t)) && s.freeHead == To(s.pcs[t].e) && b in s.chains
    ensures var u := AfterPop(s, t); ChainOk(u.next, u.place, u.marks, u.heads[b], u.chains[b], b)
  {
    PopIsFresh(s, t);
    assert ChainOk(s.next, s.place, s.marks, s.heads[b], s.chains[b], b);
  }

  lemma PopParts(s: State, t: Section)
    requires Inv(s) && Enabled(s, PopCas(t)) && s.freeHead == To(s.pcs[t].e)
    ensures var u := AfterPop(s, t); Domains(u) && Chains(u) && Entries(u) && Sections(u)
  {
    PopIsFresh(s, t);
    var u := AfterPop(s, t);
    assert u.pcs.Keys == s.pcs.Keys && u.place.Keys == s.place.Keys;
    forall b | b in u.chains ensures ChainOk(u.next, u.place, u.marks, u.heads[b], u.chains[b], b)
    {
      PopChain(s, t, b);
    }
    forall x | x in u.place ensures EntryOk(u.place, u.next, u.pcs, u.sections, x) { PopEntry(s, t, x); }
    forall r | r in u.pcs ensures SectionOk(u.place, u.next, u.marks, r, u.pcs[r]) { PopSection(s, t, r); }
  }

  lemma PopCasInv(s: State, t: Section)
    requires Inv(s) && Enabled(s, PopCas(t))
    ensures Inv(Next(s, PopCas(t)))
  {
    if s.freeHead != To(s.pcs[t].e) {
      MoveInv(s, t, Running(s.pcs[t].b));
    } else {
      PopFree(s, t);
      PopParts(s, t);
    }
  }

  lemma PushFree(s: State, e: Entry)
    requires Inv(s) && Enabled(s, PushCas(e)) && s.freeHead == s.place[e].tmp
    ensures var u := Next(s, PushCas(e)); FreeOk(u.next, u.place, u.freeHead, u.free) && CounterOk(u)
  {
    var u := Next(s, PushCas(e));
    assert EntryOk(s.place, s.next, s.pcs, s.sections, e);
    assert e !in s.free;
    ListPush(s.next, s.freeHead, s.free, e);
    forall x ensures x in u.free <==> x in u.place && u.place[x].Free? {
      assert x in u.free <==> x == e || x in s.free;
    }
    assert u.place.Keys == s.place.Keys;
    SamePlaces(s, u);
  }

  lemma PushChains(s: State, e: Entry)
    requires Inv(s) && Enabled(s, PushCas(e)) && s.freeHead == s.place[e].tmp
    ensures Domains(Next(s, PushCas(e))) && Chains(Next(s, PushCas(e)))
  {
    var u := Next(s, PushCas(e));
    forall b | b in u.chains ensures ChainOk(u.next, u.place, u.marks, u.heads[b], u.chains[b], b) {
      assert ChainOk(s.next, s.place, s.marks, s.heads[b], s.chains[b], b);
    }
  }

  lemma PushCasInv(s: State, e: Entry)
    requires Inv(s) && Enabled(s, PushCas(e))
    ensures Inv(Next(s, PushCas(e)))
  {
    var u := Next(s, PushCas(e));
    ReturnParts(s, u, e);
    if s.freeHead != s.place[e].tmp {
      SamePlaces(s, u);
      OffListInv(s, u, e);
    } else {
      PushFree(s, e);
      PushChains(s, e);
    }
  }

  // ----- linking at the head of a chain

  predicate LinkWins(s: State, t: Section)
  {
    Enabled(s, LinkCas(t)) && s.heads[s.pcs[t].b] == s.pcs[t].n
  }

  lemma LinkOwn(s: State, t: Section)
    requires Inv(s) && LinkWins(s, t)
    ensures var e := s.pcs[t].e;
            && e in s.place && s.place[e] == Transit(t) && e !in s.free
            && e in s.next && s.next[e] == s.heads[s.pcs[t].b] && e in s.marks && s.marks[e] == Valid
    ensures forall b :: b in s.chains ==> s.pcs[t].e !in s.chains[b]
  {
  }

  lemma LinkChain(s: State, t: Section, b: Bucket)
    requires Inv(s) && LinkWins(s, t) && b in s.chains
    ensures var u := AfterLink(s, t); ChainOk(u.next, u.place, u.marks, u.heads[b], u.chains[b], b)
  {
    var u, e := AfterLink(s, t), s.pcs[t].e;
    LinkOwn(s, t);
    assert ChainOk(s.next, s.place, s.marks, s.heads[b], s.chains[b], b);
    if b == s.pcs[t].b {
      ListPush(s.next, s.heads[b], s.chains[b], e);
      forall x ensures x in u.chains[b] <==> x == e || x in s.chains[b] {
      }
    }
  }

  lemma LinkWorker(s: State, t: Section, b: Bucket)
    requires Inv(s) && LinkWins(s, t) && b in s.workers
    ensures var u := AfterLink(s, t); WorkerOk(u.marks, u.chains[b], u.workers[b])
  {
  }

  lemma LinkEntry(s: State, t: Section, x: Entry)
    requires Inv(s) && LinkWins(s, t) && x in s.place
    ensures var u := AfterLink(s, t); EntryOk(u.place, u.next, u.pcs, u.sections, x)
  {
    LinkOwn(s, t);
    assert EntryOk(s.place, s.next, s.pcs, s.sections, x);
    assert AfterLink(s, t).pcs.Keys == s.pcs.Keys;
  }

  lemma LinkSection(s: State, t: Section, r: Section)
    requires Inv(s) && LinkWins(s, t) && r in s.pcs
    ensures var u := AfterLink(s, t); SectionOk(u.place, u.next, u.marks, r, u.pcs[r])
  {
    LinkOwn(s, t);
    assert SectionOk(s.place, s.next, s.marks, r, s.pcs[r]);
  }

  lemma LinkFree(s: State, t: Section)
    requires Inv(s) && LinkWins(s, t)
    ensures var u := AfterLink(s, t); FreeOk(u.next, u.place, u.freeHead, u.free)
  {
    LinkOwn(s, t);
  }

  lemma LinkCounter(s: State, t: Section)
    requires Inv(s) && LinkWins(s, t)
    ensures var u := AfterLink(s, t); CounterOk(u) && Domains(u)
  {
    var u := AfterLink(s, t);
    LinkOwn(s, t);
    assert u.place.Keys == s.place.Keys && u.pcs.Keys == s.pcs.Keys;
    SamePlaces(s, u);
  }

  lemma LinkWinsInv(s: State, t: Section)
    requires Inv(s) && LinkWins(s, t)
    ensures Inv(AfterLink(s, t))
  {
    var u := AfterLink(s, t);
    LinkFree(s, t);
    LinkCounter(s, t);
    forall b | b in u.chains ensures ChainOk(u.next, u.place, u.marks, u.heads[b], u.chains[b], b)
    {
      LinkChain(s, t, b);
    }
    forall b | b in u.workers ensures WorkerOk(u.marks, u.chains[b], u.workers[b]) { LinkWorker(s, t, b); }
    forall x | x in u.place ensures EntryOk(u.place, u.next, u.pcs, u.sections, x) { LinkEntry(s, t, x); }
    forall r | r in u.pcs ensures SectionOk(u.place, u.next, u.marks, r, u.pcs[r]) { LinkSection(s, t, r); }
  }

  lemma LinkCasInv(s: State, t: Section)
    requires Inv(s) && Enabled(s, LinkCas(t))
    ensures Inv(Next(s, LinkCas(t)))
  {
    if LinkWins(s, t) {
      LinkWinsInv(s, t);
    } else {
      var u := Next(s, LinkCas(t));
      OwnerPlace(s, t, s.pcs[t].e);
      assert CounterOk(u);
      OwnInv(s, u, t, s.pcs[t].e);
    }
  }

  // ----- unlinking

  predicate UnlinkWins(s: State, b: Bucket)
  {
    && Enabled(s, WorkUnlink(b)) && UnlinkSafe(s, b)
    && (s.workers[b].prev.Null? ==> s.heads[b] == To(s.workers[b].at))
  }

  lemma UnlinkFacts(s: State, b: Bucket)
    requires Inv(s) && UnlinkWins(s, b)
    ensures var Doomed(prev, e) := s.workers[b];
            && e in s.chains[b] && e in s.place && s.place[e] == Chained(b)
            && ChainOk(s.next, s.place, s.marks, s.heads[b], s.chains[b], b)
            && (prev.To? ==> prev.e in s.chains[b] && prev.e in s.place && s.place[prev.e] == Chained(b)
                             && prev.e in s.next && s.next[prev.e] == To(e) && prev.e != e)
  {
    var Doomed(prev, e) := s.workers[b];
    assert WorkerOk(s.marks, s.chains[b], s.workers[b]);
    assert ChainOk(s.next, s.place, s.marks, s.heads[b], s.chains[b], b);
    assert e in s.chains[b];
    if prev.To? {
      ListNext(s.next, s.heads[b], s.chains[b], prev.e);
    }
  }

  lemma UnlinkOwnList(s: State, b: Bucket)
    requires Inv(s) && UnlinkWins(s, b)
    ensures var u := AfterUnlink(s, b); List(u.next, u.heads[b], u.chains[b])
  {
    var Doomed(prev, e) := s.workers[b];
    UnlinkFacts(s, b);
    if prev.To? {
      ListBypass(s.next, s.heads[b], s.chains[b], prev.e, e);
    }
  }

  lemma UnlinkOwnChain(s: State, b: Bucket)
    requires Inv(s) && UnlinkWins(s, b)
    ensures var u := AfterUnlink(s, b); ChainOk(u.next, u.place, u.marks, u.heads[b], u.chains[b], b)
  {
    var u, e := AfterUnlink(s, b), s.workers[b].at;
    UnlinkOwnList(s, b);
    UnlinkFacts(s, b);
    ChainWithout(s.next, s.place, s.marks, s.heads[b], s.chains[b], b, e, u.place[e]);
  }

  lemma ChainWithout(next: map<Entry, Ptr>, place: map<Entry, Place>, marks: map<Entry, Mark>, head: Ptr,
                     chain: seq<Entry>, b: Bucket, e: Entry, p: Place)
    requires ChainOk(next, place, marks, head, chain, b) && !p.Chained?
    ensures forall x {:trigger x in Without(chain, e)} ::
              x in Without(chain, e) <==> x in place[e := p] && place[e := p][x] == Chained(b)
    ensures forall x {:trigger x in Without(chain, e)} ::
              x in Without(chain, e) ==> x != e && x in marks && (marks[x] == Valid || marks[x] == Marked)
  {
    forall x ensures x in Without(chain, e) <==> x in chain && x != e {
      WithoutMember(next, head, chain, e, x);
    }
  }

  lemma UnlinkOtherChain(s: State, b: Bucket, d: Bucket)
    requires Inv(s) && UnlinkWins(s, b) && d in s.chains && d != b
    ensures var u := AfterUnlink(s, b); ChainOk(u.next, u.place, u.marks, u.heads[d], u.chains[d], d)
  {
    var Doomed(prev, e) := s.workers[b];
    UnlinkFacts(s, b);
    assert ChainOk(s.next, s.place, s.marks, s.heads[d], s.chains[d], d);
    assert e !in s.chains[d];
    if prev.To? {
      assert prev.e !in s.chains[d];
      ListFrame(s.next, s.heads[d], s.chains[d], prev.e, s.next[e]);
    }
  }

  lemma UnlinkFreeList(s: State, b: Bucket)
    requires Inv(s) && UnlinkWins(s, b)
    ensures var u := AfterUnlink(s, b); FreeOk(u.next, u.place, u.freeHead, u.free)
  {
    var Doomed(prev, e) := s.workers[b];
    UnlinkFacts(s, b);
    if prev.To? {
      assert prev.e !in s.free;
      ListFrame(s.next, s.freeHead, s.free, prev.e, s.next[e]);
    }
  }

  lemma UnlinkDomains(s: State, b: Bucket)
    requires Inv(s) && UnlinkWins(s, b)
    ensures Domains(AfterUnlink(s, b))
  {
    UnlinkFacts(s, b);
  }

  lemma UnlinkCounter(s: State, b: Bucket)
    requires Inv(s) && UnlinkWins(s, b)
    ensures CounterOk(AfterUnlink(s, b))
  {
  }

  lemma UnlinkEntry(s: State, b: Bucket, x: Entry)
    requires Inv(s) && UnlinkWins(s, b) && x in s.place
    ensures var u := AfterUnlink(s, b); EntryOk(u.place, u.next, u.pcs, u.sections, x)
  {
    UnlinkFacts(s, b);
    assert EntryOk(s.place, s.next, s.pcs, s.sections, x);
    if x == s.workers[b].at {
      ChainNext(s, b, x);
    }
  }

  lemma UnlinkSection(s: State, b: Bucket, r: Section)
    requires Inv(s) && UnlinkWins(s, b) && r in s.pcs
    ensures var u := AfterUnlink(s, b); SectionOk(u.place, u.next, u.marks, r, u.pcs[r])
  {
    UnlinkFacts(s, b);
    assert SectionOk(s.place, s.next, s.marks, r, s.pcs[r]);
  }

  lemma UnlinkOwnWorker(s: State, b: Bucket)
    requires Inv(s) && UnlinkWins(s, b)
    ensures var u := AfterUnlink(s, b); WorkerOk(u.marks, u.chains[b], u.workers[b])
  {
    var Doomed(prev, e) := s.workers[b];
    UnlinkFacts(s, b);
    ChainNext(s, b, e);
    if s.next[e].To? {
      WithoutMember(s.next, s.heads[b], s.chains[b], e, s.next[e].e);
    }
    if prev.To? {
      WithoutMember(s.next, s.heads[b], s.chains[b], e, prev.e);
    }
  }

  lemma UnlinkOtherWorker(s: State, b: Bucket, d: Bucket)
    requires Inv(s) && UnlinkWins(s, b) && d in s.workers && d != b
    ensures var u := AfterUnlink(s, b); WorkerOk(u.marks, u.chains[d], u.workers[d])
  {
    var Doomed(prev, e) := s.workers[b];
    UnlinkFacts(s, b);
    assert WorkerOk(s.marks, s.chains[d], s.workers[d]);
    assert ChainOk(s.next, s.place, s.marks, s.heads[d], s.chains[d], d);
    assert e !in s.chains[d];
    if prev.To? {
      assert prev.e !in s.chains[d];
    }
  }

  lemma UnlinkWinsInv(s: State, b: Bucket)
    requires Inv(s) && UnlinkWins(s, b)
    ensures Inv(AfterUnlink(s, b))
  {
    var u := AfterUnlink(s, b);
    UnlinkFreeList(s, b);
    UnlinkDomains(s, b);
    UnlinkCounter(s, b);
    forall d | d in u.chains ensures ChainOk(u.next, u.place, u.marks, u.heads[d], u.chains[d], d) {
      if d == b { UnlinkOwnChain(s, b); } else { UnlinkOtherChain(s, b, d); }
    }
    forall d | d in u.workers ensures WorkerOk(u.marks, u.chains[d], u.workers[d]) {
      if d == b { UnlinkOwnWorker(s, b); } else { UnlinkOtherWorker(s, b, d); }
    }
    forall x | x in u.place ensures EntryOk(u.place, u.next, u.pcs, u.sections, x) { UnlinkEntry(s, b, x); }
    forall r | r in u.pcs ensures SectionOk(u.place, u.next, u.marks, r, u.pcs[r]) { UnlinkSection(s, b, r); }
  }

  /** A store into an entry that does not precede the one taken out leaves a chain that is no list. */
  lemma UnlinkUnsafe(s: State, b: Bucket)
    requires Inv(s) && Enabled(s, WorkUnlink(b)) && !UnlinkSafe(s, b)
    ensures !Inv(Next(s, WorkUnlink(b)))
  {
    var Doomed(prev, e) := s.workers[b];
    var u := AfterUnlink(s, b);
    assert WorkerOk(s.marks, s.chains[b], s.workers[b]);
    assert ChainOk(s.next, s.place, s.marks, s.heads[b], s.chains[b], b);
    ListNext(s.next, s.heads[b], s.chains[b], prev.e);
    BypassExact(s.next, s.heads[b], s.chains[b], prev.e, e);
    assert !ChainOk(u.next, u.place, u.marks, u.heads[b], u.chains[b], b);
  }

  lemma WorkUnlinkInv(s: State, b: Bucket)
    requires Inv(s) && Enabled(s, WorkUnlink(b)) && UnlinkSafe(s, b)
    ensures Inv(Next(s, WorkUnlink(b)))
  {
    if UnlinkWins(s, b) {
      UnlinkWinsInv(s, b);
    } else {
      RestartInv(s, b);
    }
  }

  lemma UnlinkIff(s: State, b: Bucket)
    requires Inv(s) && Enabled(s, WorkUnlink(b))
    ensures Inv(Next(s, WorkUnlink(b))) <==> UnlinkSafe(s, b)
  {
    if UnlinkSafe(s, b) { WorkUnlinkInv(s, b); } else { UnlinkUnsafe(s, b); }
  }

  // ----- whole runs

  lemma SectionStepInv(s: State, step: Step)
    requires Inv(s) && Enabled(s, step)
    requires step.Enter? || step.Leave? || step.LoadHead? || step.LoadNext? || step.StartRead? || step.Advance?
    ensures Inv(Next(s, step))
  {
    match step
    case Enter(t, b) => EnterInv(s, t, b);
    case Leave(t) => LeaveInv(s, t);
    case LoadHead(t) => LoadHeadInv(s, t);
    case LoadNext(t) => LoadNextInv(s, t);
    case StartRead(t) => StartReadInv(s, t);
    case Advance(t) => AdvanceInv(s, t);
  }

  lemma AllocStepInv(s: State, step: Step)
    requires Inv(s) && Enabled(s, step) && (step.PopCas? || step.CountUp? || step.LinkLoad? || step.LinkCas?)
    ensures Inv(Next(s, step))
  {
    match step
    case PopCas(t) => PopCasInv(s, t);
    case CountUp(t) => CountUpInv(s, t);
    case LinkLoad(t) => LinkLoadInv(s, t);
    case LinkCas(t) => LinkCasInv(s, t);
  }

  lemma WorkStepInv(s: State, step: Step)
    requires Inv(s) && Enabled(s, step)
    requires WorkerStep(step) && !step.WorkUnlink?
    ensures Inv(Next(s, step))
  {
    match step
    case WorkStart(b) => RestartInv(s, b);
    case WorkStop(b) => SetWorkerInv(s, b, Asleep);
    case WorkTest(b) => WorkTestInv(s, b);
    case WorkPass(b) => WorkPassInv(s, b);
  }

  lemma ReturnStepInv(s: State, step: Step)
    requires Inv(s) && Enabled(s, step) && (step.GraceEnd? || step.PushLoad? || step.PushCas? || step.CountDown?)
    ensures Inv(Next(s, step))
  {
    match step
    case GraceEnd(e) => GraceEndInv(s, e);
    case PushLoad(e) => PushLoadInv(s, e);
    case PushCas(e) => PushCasInv(s, e);
    case CountDown => CountDownInv(s);
  }

  predicate WorkerStep(step: Step)
  {
    step.WorkStart? || step.WorkStop? || step.WorkTest? || step.WorkPass? || step.WorkUnlink?
  }

  lemma OtherStepInv(s: State, step: Step)
    requires Inv(s) && Enabled(s, step) && !WorkerStep(step)
    ensures Inv(Next(s, step))
  {
    if step.MarkDelete? {
      MarkDeleteInv(s, step.e);
    } else if step.PopCas? || step.CountUp? || step.LinkLoad? || step.LinkCas? {
      AllocStepInv(s, step);
    } else if step.GraceEnd? || step.PushLoad? || step.PushCas? || step.CountDown? {
      ReturnStepInv(s, step);
    } else {
      SectionStepInv(s, step);
    }
  }

  /** Every step keeps the invariant exactly if it is safe; only a worker's plain store can be unsafe. */
  lemma StepInvIff(s: State, step: Step)
    requires Inv(s) && Enabled(s, step)
    ensures Inv(Next(s, step)) <==> Safe(s, step)
  {
    if step.WorkUnlink? {
      UnlinkIff(s, step.b);
    } else if WorkerStep(step) {
      WorkStepInv(s, step);
    } else {
      OtherStepInv(s, step);
    }
  }

  lemma CountDownInv(s: State)
    requires Inv(s) && Enabled(s, CountDown)
    ensures Inv(Next(s, CountDown))
  {
  }

  /** A fresh table: all overflow entries on the free list in order, all chains empty, nobody at work. */
  ghost predicate Fresh(s: State, size: nat, buckets: set<Bucket>)
  {
    && s.next == Linked(0, size, Null) && s.free == seq(size, i => i)
    && s.freeHead == (if size > 0 then To(0) else Null)
    && s.marks == Filled(0, size, Clear) && s.place == Filled(0, size, Free)
    && s.heads.Keys == s.chains.Keys == s.workers.Keys == buckets
    && (forall b {:trigger s.heads[b]} {:trigger s.chains[b]} {:trigger s.workers[b]} ::
          b in buckets ==> s.heads[b] == Null && s.chains[b] == [] && s.workers[b] == Asleep)
    && s.pcs == map[] && s.used == 0 && s.sections == {} && s.owedUp == {} && s.owedDown == 0
  }

  lemma {:induction false} FilledSize<V>(n: nat, v: V)
    ensures |Filled(0, n, v)| == n
  {
    if n > 0 { FilledSize(n - 1, v); }
  }

  lemma FreshFree(s: State, size: nat, buckets: set<Bucket>)
    requires Fresh(s, size, buckets)
    ensures FreeOk(s.next, s.place, s.freeHead, s.free) && |s.place| == |s.free|
  {
    InitList(s.next, size, 0);
    assert s.free == seq(size, i => i + 0);
    FilledSize(size, Free);
    forall e ensures e in s.free <==> e in s.place && s.place[e].Free? {
      if e in s.place { assert s.free[e] == e; }
    }
  }

  lemma FreshDomains(s: State, size: nat, buckets: set<Bucket>)
    requires Fresh(s, size, buckets)
    ensures Domains(s)
  {
  }

  lemma FreshInv(s: State, size: nat, buckets: set<Bucket>)
    requires Fresh(s, size, buckets)
    ensures Inv(s)
  {
    FreshFree(s, size, buckets);
    FreshDomains(s, size, buckets);
    assert Chains(s) by {
      forall b | b in s.chains ensures ChainOk(s.next, s.place, s.marks, s.heads[b], s.chains[b], b) {
        assert List(s.next, Null, []);
      }
    }
  }

  ghost predicate Takes(s: State, step: Step, t: State)
  {
    Enabled(s, step) && t == Next(s, step)
  }

  ghost predicate Path(states: seq<State>, steps: seq<Step>, size: nat, buckets: set<Bucket>)
  {
    && |states| == |steps| + 1
    && Fresh(states[0], size, buckets)
    && forall i :: 0 <= i < |steps| ==> Takes(states[i], steps[i], states[i + 1])
  }

  /** A run all of whose plain stores are into an entry that points to the one taken out. */
  ghost predicate Run(states: seq<State>, steps: seq<Step>, size: nat, buckets: set<Bucket>)
  {
    && Path(states, steps, size, buckets)
    && forall i :: 0 <= i < |steps| ==> Enabled(states[i], steps[i]) && Safe(states[i], steps[i])
  }

  lemma {:induction false} RunInv(states: seq<State>, steps: seq<Step>, size: nat, buckets: set<Bucket>, i: nat)
    requires Run(states, steps, size, buckets) && i <= |steps|
    ensures Inv(states[i])
  {
    if i > 0 {
      RunInv(states, steps, size, buckets, i - 1);
      assert Takes(states[i - 1], steps[i - 1], states[i]);
      StepInvIff(states[i - 1], steps[i - 1]);
    } else {
      FreshInv(states[0], size, buckets);
    }
  }

  /** A run keeps the invariant throughout exactly if all its steps are safe. */
  lemma RunInvIff(states: seq<State>, steps: seq<Step>, size: nat, buckets: set<Bucket>)
    requires Path(states, steps, size, buckets)
    ensures Run(states, steps, size, buckets) <==> forall i :: 0 <= i < |states| ==> Inv(states[i])
  {
    if Run(states, steps, size, buckets) {
      forall i | 0 <= i < |states| ensures Inv(states[i]) { RunInv(states, steps, size, buckets, i); }
    }
    if forall i :: 0 <= i < |states| ==> Inv(states[i]) {
      forall i | 0 <= i < |steps| ensures Enabled(states[i], steps[i]) && Safe(states[i], steps[i]) {
        assert Takes(states[i], steps[i], states[i + 1]) && Inv(states[i]) && Inv(states[i + 1]);
        StepInvIff(states[i], steps[i]);
      }
    }
  }

  /**
   * In every state of every run, the free list and every chain are null-terminated lists without repeats,
   * and each entry is on the free list if its place says so, on exactly the chain its place names, or on none.
   */
  lemma EachEntryOnce(states: seq<State>, steps: seq<Step>, size: nat, buckets: set<Bucket>, i: nat, e: Entry)
    requires Run(states, steps, size, buckets) && i <= |steps| && e in states[i].place
    ensures var s := states[i];
            && List(s.next, s.freeHead, s.free)
            && (e in s.free <==> s.place[e].Free?)
            && s.heads.Keys == s.chains.Keys
            && forall b :: b in s.chains ==>
                 List(s.next, s.heads[b], s.chains[b]) && (e in s.chains[b] <==> s.place[e] == Chained(b))
  {
    RunInv(states, steps, size, buckets, i);
    var s := states[i];
    assert e in s.free <==> s.place[e].Free?;
    forall b | b in s.chains
      ensures List(s.next, s.heads[b], s.chains[b]) && (e in s.chains[b] <==> s.place[e] == Chained(b))
    {
      assert ChainOk(s.next, s.place, s.marks, s.heads[b], s.chains[b], b);
    }
  }

  /** The usage counter differs from the number of entries off the free list only by updates under way. */
  lemma UsedCounter(states: seq<State>, steps: seq<Step>, size: nat, buckets: set<Bucket>, i: nat)
    requires Run(states, steps, size, buckets) && i <= |steps|
    ensures var s := states[i];
            && s.used == |s.place| - |s.free| - |s.owedUp| + s.owedDown
            && (s.owedUp == {} && s.owedDown == 0 ==> s.used == |s.place| - |s.free|)
  {
    RunInv(states, steps, size, buckets, i);
  }

  /** A lookup is always on an entry of its own bucket, linked or just unlinked, never on a recycled one. */
  lemma LookupStaysInBucket(states: seq<State>, steps: seq<Step>, size: nat, buckets: set<Bucket>, i: nat, t: Section)
    requires Run(states, steps, size, buckets) && i <= |steps| && t in states[i].pcs && states[i].pcs[t].Reading?
    ensures ReadSafe(states[i].place, t, states[i].pcs[t].b, states[i].pcs[t].e)
  {
    RunInv(states, steps, size, buckets, i);
    assert SectionOk(states[i].place, states[i].next, states[i].marks, t, states[i].pcs[t]);
  }

  // ----- the race the worker's two tests leave open

  lemma {:induction false} NotFirst(next: map<Entry, Ptr>, head: Ptr, s: seq<Entry>, e: Entry)
    requires List(next, head, s) && e in s && e in next
    ensures next[e] != head
    decreases |s|
  {
    if e == s[0] {
      ListNext(next, head, s, e);
    } else {
      assert e in s[1..];
      ListNext(next, next[s[0]], s[1..], e);
    }
  }

  lemma {:induction false} ListUnique(next: map<Entry, Ptr>, head: Ptr, s: seq<Entry>, r: seq<Entry>)
    requires List(next, head, s) && List(next, head, r)
    ensures s == r
    decreases |s|
  {
    if s != [] {
      ListUnique(next, next[s[0]], s[1..], r[1..]);
      assert s == [s[0]] + s[1..] && r == [r[0]] + r[1..];
    }
  }

  /** The plain store takes exactly `e` out of the list if and only if `p` points to `e`. */
  lemma {:induction false} BypassExact(next: map<Entry, Ptr>, head: Ptr, s: seq<Entry>, p: Entry, e: Entry)
    requires List(next, head, s) && p in s && e in s && p in next && e in next
    ensures List(next[p := next[e]], head, Without(s, e)) <==> next[p] == To(e)
    decreases |s|
  {
    if p == e {
      ListNext(next, head, s, e);
      assert next[p := next[e]] == next;
      if List(next, head, Without(s, e)) {
        ListUnique(next, head, s, Without(s, e));
        WithoutMember(next, head, s, e, e);
      }
    } else if next[p] == To(e) {
      ListBypass(next, head, s, p, e);
    } else if s[0] == p {
      var r := s[1..];
      assert e in r && r[0] != e;
      NotFirst(next, To(r[0]), r, e);
      assert Without(s, e)[1..] == Without(r, e);
    } else if s[0] != e {
      var r := s[1..];
      assert p in r && e in r;
      BypassExact(next, next[s[0]], r, p, e);
      assert Without(s, e)[1..] == Without(r, e);
    } else {
      assert s[1..] != [] && s[1..][0] != e;
    }
  }

  // ----- what is enough for the steps to be safe

  /** No entry is marked between the two tests a worker makes of it. */
  predicate MarkMissesWorkers(s: State, step: Step)
  {
    step.MarkDelete? ==> forall b {:trigger s.workers[b]} ::
                           b in s.workers && s.workers[b].Seen? ==> s.workers[b].at != step.e
  }

  /** The previous entry of a walk points to the current one, and an entry that passed the first test is not marked. */
  ghost predicate InStep(next: map<Entry, Ptr>, marks: map<Entry, Mark>, w: Worker)
  {
    match w
    case Asleep => true
    case Walk(prev, ent) => prev.To? ==> prev.e in next && next[prev.e] == ent
    case Seen(prev, e) => (prev.To? ==> prev.e in next && next[prev.e] == To(e)) && e in marks && marks[e] == Valid
    case Doomed(prev, e) => prev.To? ==> prev.e in next && next[prev.e] == To(e)
  }

  ghost predicate AllInStep(s: State)
  {
    forall b {:trigger s.workers[b]} :: b in s.workers ==> InStep(s.next, s.marks, s.workers[b])
  }

  /** A change to an entry that is on no chain is not seen by a worker. */
  lemma OffChain(s: State, b: Bucket, e: Entry, u: State)
    requires Domains(s) && b in s.workers && InStep(s.next, s.marks, s.workers[b])
    requires WorkerOk(s.marks, s.chains[b], s.workers[b])
    requires ChainOk(s.next, s.place, s.marks, s.heads[b], s.chains[b], b)
    requires e in s.place && !s.place[e].Chained? && AgreeOff(s.next, u.next, e) && AgreeOff(s.marks, u.marks, e)
    ensures InStep(u.next, u.marks, s.workers[b])
  {
    assert e !in s.chains[b];
  }

  lemma OwnerInStep(s: State, step: Step, b: Bucket)
    requires Inv(s) && AllInStep(s) && Enabled(s, step) && (step.CountUp? || step.LinkLoad?) && b in s.workers
    ensures var u := Next(s, step); b in u.workers && InStep(u.next, u.marks, u.workers[b])
  {
    OwnerPlace(s, step.t, s.pcs[step.t].e);
    OffChain(s, b, s.pcs[step.t].e, Next(s, step));
  }

  lemma ReturnInStep(s: State, step: Step, b: Bucket)
    requires Inv(s) && AllInStep(s) && Enabled(s, step) && (step.GraceEnd? || step.PushLoad?) && b in s.workers
    ensures var u := Next(s, step); b in u.workers && InStep(u.next, u.marks, u.workers[b])
  {
    OffChain(s, b, step.e, Next(s, step));
  }

  /** And what has passed a worker's first test. */
  lemma OthersInStep(s: State, step: Step, b: Bucket)
    requires AllInStep(s) && Enabled(s, step) && MarkMissesWorkers(s, step) && b in s.workers
    requires !WorkerStep(step) && !step.CountUp? && !step.LinkLoad? && !step.GraceEnd? && !step.PushLoad?
    ensures var u := Next(s, step); b in u.workers && InStep(u.next, u.marks, u.workers[b])
  {
    assert InStep(s.next, s.marks, s.workers[b]);
  }

  lemma WorkerInStep(s: State, step: Step, b: Bucket)
    requires AllInStep(s) && Enabled(s, step) && b in s.workers && WorkerStep(step) && !step.WorkUnlink?
    requires step.WorkTest? ==> var e := s.workers[step.b].ent.e; s.marks[e] == Valid || s.marks[e] == Marked
    ensures var u := Next(s, step); b in u.workers && InStep(u.next, u.marks, u.workers[b])
  {
    assert InStep(s.next, s.marks, s.workers[b]);
  }

  lemma TestedMark(s: State, b: Bucket)
    requires Inv(s) && Enabled(s, WorkTest(b))
    ensures var e := s.workers[b].ent.e; s.marks[e] == Valid || s.marks[e] == Marked
  {
    assert WorkerOk(s.marks, s.chains[b], s.workers[b]);
    assert ChainOk(s.next, s.place, s.marks, s.heads[b], s.chains[b], b);
    assert s.workers[b].ent.e in s.chains[b];
  }

  lemma UnlinkInStep(s: State, d: Bucket, b: Bucket)
    requires Inv(s) && AllInStep(s) && Enabled(s, WorkUnlink(d)) && b in s.workers
    ensures UnlinkSafe(s, d)
    ensures var u := Next(s, WorkUnlink(d)); b in u.workers && InStep(u.next, u.marks, u.workers[b])
  {
    assert InStep(s.next, s.marks, s.workers[d]) && InStep(s.next, s.marks, s.workers[b]);
    if UnlinkWins(s, d) {
      UnlinkFacts(s, d);
      assert WorkerOk(s.marks, s.chains[b], s.workers[b]);
      assert ChainOk(s.next, s.place, s.marks, s.heads[b], s.chains[b], b);
    }
  }

  lemma BucketInStep(s: State, step: Step, b: Bucket)
    requires Inv(s) && AllInStep(s) && Enabled(s, step) && MarkMissesWorkers(s, step) && b in s.workers
    ensures var u := Next(s, step); b in u.workers && InStep(u.next, u.marks, u.workers[b])
  {
    if step.WorkUnlink? {
      UnlinkInStep(s, step.b, b);
    } else if WorkerStep(step) {
      if step.WorkTest? { TestedMark(s, step.b); }
      WorkerInStep(s, step, b);
    } else if step.CountUp? || step.LinkLoad? {
      OwnerInStep(s, step, b);
    } else if step.GraceEnd? || step.PushLoad? {
      ReturnInStep(s, step, b);
    } else {
      OthersInStep(s, step, b);
    }
  }

  lemma SameWorkers(s: State, step: Step)
    requires Enabled(s, step)
    ensures Next(s, step).workers.Keys == s.workers.Keys
  {
    if WorkerStep(step) {
      assert Next(s, step).workers == s.workers[step.b := Next(s, step).workers[step.b]];
    } else if SectionStep(step) {
      SectionsLeaveWorkers(s, step);
    } else {
      EntriesLeaveWorkers(s, step);
    }
  }

  predicate SectionStep(step: Step)
  {
    || step.Enter? || step.Leave? || step.LoadHead? || step.LoadNext? || step.PopCas? || step.CountUp?
    || step.LinkLoad? || step.LinkCas? || step.StartRead? || step.Advance?
  }

  lemma SectionsLeaveWorkers(s: State, step: Step)
    requires Enabled(s, step) && SectionStep(step)
    ensures Next(s, step).workers == s.workers
  {
  }

  lemma EntriesLeaveWorkers(s: State, step: Step)
    requires Enabled(s, step) && !SectionStep(step) && !WorkerStep(step)
    ensures Next(s, step).workers == s.workers
  {
  }

  lemma InStepNext(s: State, step: Step)
    requires Inv(s) && AllInStep(s) && Enabled(s, step) && MarkMissesWorkers(s, step)
    ensures Safe(s, step) && AllInStep(Next(s, step))
  {
    var u := Next(s, step);
    SameWorkers(s, step);
    if step.WorkUnlink? { UnlinkInStep(s, step.b, step.b); }
    forall b | b in u.workers ensures InStep(u.next, u.marks, u.workers[b]) { BucketInStep(s, step, b); }
  }

  /** If no mark falls between the two tests a worker makes of an entry, all steps are safe. */
  lemma {:induction false} NoMarkInWindowIsSafe(states: seq<State>, steps: seq<Step>, size: nat,
                                                buckets: set<Bucket>, i: nat)
    requires Path(states, steps, size, buckets) && i <= |steps|
    requires forall k {:trigger states[k]} :: 0 <= k < |steps| ==> MarkMissesWorkers(states[k], steps[k])
    ensures Inv(states[i]) && AllInStep(states[i])
    ensures i < |steps| ==> Enabled(states[i], steps[i]) && Safe(states[i], steps[i])
  {
    if i > 0 {
      NoMarkInWindowIsSafe(states, steps, size, buckets, i - 1);
      assert Takes(states[i - 1], steps[i - 1], states[i]);
      StepInvIff(states[i - 1], steps[i - 1]);
      InStepNext(states[i - 1], steps[i - 1]);
    } else {
      FreshInv(states[0], size, buckets);
    }
    if i < |steps| {
      assert Takes(states[i], steps[i], states[i + 1]);
      InStepNext(states[i], steps[i]);
    }
  }

  // ----- a run with a mark in the window

  ghost predicate Reachable(s: State, size: nat, buckets: set<Bucket>)
  {
    exists states, steps :: Path(states, steps, size, buckets) && states[|steps|] == s
  }

  lemma ReachFresh(s: State, size: nat, buckets: set<Bucket>)
    requires Fresh(s, size, buckets)
    ensures Reachable(s, size, buckets)
  {
    assert Path([s], [], size, buckets);
  }

  lemma ReachStep(s: State, step: Step, t: State, size: nat, buckets: set<Bucket>)
    requires Reachable(s, size, buckets) && Takes(s, step, t)
    ensures Reachable(t, size, buckets)
  {
    var states, steps :| Path(states, steps, size, buckets) && states[|steps|] == s;
    PathStep(states, steps, size, buckets, step, t);
    assert (states + [t])[|steps + [step]|] == t;
  }

  lemma PathStep(states: seq<State>, steps: seq<Step>, size: nat, buckets: set<Bucket>, step: Step, t: State)
    requires Path(states, steps, size, buckets) && Takes(states[|steps|], step, t)
    ensures Path(states + [t], steps + [step], size, buckets)
  {
    var longer, more := states + [t], steps + [step];
    forall i | 0 <= i < |more| ensures Takes(longer[i], more[i], longer[i + 1]) {
      if i < |steps| { assert Takes(states[i], steps[i], states[i + 1]); }
    }
  }

  /** What a section 0 that allocates entry `e` undisturbed and links it in bucket 0 makes of the table. */
  function Allocated(s: State, e: Entry): State
    requires 0 in s.heads && 0 in s.chains && e in s.next && s.free != []
  {
    s.(next := s.next[e := s.heads[0]],
       marks := s.marks[e := Valid],
       freeHead := s.next[e],
       heads := s.heads[0 := To(e)],
       used := s.used + 1,
       place := s.place[e := Chained(0)],
       free := s.free[1..],
       chains := s.chains[0 := [e] + s.chains[0]])
  }

  predicate Quiet(s: State, e: Entry)
  {
    && 0 in s.heads && 0 in s.chains && e in s.next && s.free != [] && s.freeHead == To(e)
    && s.pcs == map[0 := Running(0)] && s.owedUp == {}
  }

  /** The state after `k` of the six steps of an undisturbed allocation. */
  function AllocAt(s: State, e: Entry, k: nat): State
    requires Quiet(s, e) && k <= 6
  {
    var popped := s.(freeHead := s.next[e], place := s.place[e := Transit(0)], free := s.free[1..]);
    var owned := popped.(next := s.next[e := Null], used := s.used + 1);
    if k == 0 then s
    else if k == 1 then s.(pcs := map[0 := GotHead(0, e)])
    else if k == 2 then s.(pcs := map[0 := GotNext(0, e, s.next[e])])
    else if k == 3 then popped.(pcs := map[0 := Popped(0, e)], owedUp := {0})
    else if k == 4 then owned.(pcs := map[0 := Owner(0, e)])
    else if k == 5 then
      owned.(pcs := map[0 := Linking(0, e, s.heads[0])], next := s.next[e := s.heads[0]], marks := s.marks[e := Valid])
    else Allocated(s, e)
  }

  function AllocStep(k: nat): Step
  {
    match k
    case 0 => LoadHead(0)
    case 1 => LoadNext(0)
    case 2 => PopCas(0)
    case 3 => CountUp(0)
    case 4 => LinkLoad(0)
    case _ => LinkCas(0)
  }

  lemma AllocReadsHead(s: State, e: Entry)
    requires Quiet(s, e)
    ensures Takes(AllocAt(s, e, 0), LoadHead(0), AllocAt(s, e, 1))
  {
    assert Next(s, LoadHead(0)).pcs == map[0 := GotHead(0, e)];
  }

  lemma AllocReadsNext(s: State, e: Entry)
    requires Quiet(s, e)
    ensures Takes(AllocAt(s, e, 1), LoadNext(0), AllocAt(s, e, 2))
  {
    assert Next(AllocAt(s, e, 1), LoadNext(0)).pcs == map[0 := GotNext(0, e, s.next[e])];
  }

  lemma AllocPops(s: State, e: Entry)
    requires Quiet(s, e)
    ensures Takes(AllocAt(s, e, 2), PopCas(0), AllocAt(s, e, 3))
  {
    assert Next(AllocAt(s, e, 2), PopCas(0)).pcs == AllocAt(s, e, 3).pcs;
  }

  lemma AllocCounts(s: State, e: Entry)
    requires Quiet(s, e)
    ensures Takes(AllocAt(s, e, 3), CountUp(0), AllocAt(s, e, 4))
  {
  }

  lemma AllocLoads(s: State, e: Entry)
    requires Quiet(s, e)
    ensures Takes(AllocAt(s, e, 4), LinkLoad(0), AllocAt(s, e, 5))
  {
    var u := Next(AllocAt(s, e, 4), LinkLoad(0));
    assert u.next == s.next[e := s.heads[0]];
    assert u.pcs == map[0 := Linking(0, e, s.heads[0])];
  }

  lemma AllocLinks(s: State, e: Entry)
    requires Quiet(s, e)
    ensures Takes(AllocAt(s, e, 5), LinkCas(0), AllocAt(s, e, 6))
  {
    var u := Next(AllocAt(s, e, 5), LinkCas(0));
    assert u.pcs == s.pcs;
    assert u.place == s.place[e := Chained(0)];
  }

  lemma {:induction false} AllocReach(s: State, e: Entry, size: nat, buckets: set<Bucket>, k: nat)
    requires Reachable(s, size, buckets) && Quiet(s, e) && k <= 6
    ensures Reachable(AllocAt(s, e, k), size, buckets)
  {
    if k > 0 {
      AllocReach(s, e, size, buckets, k - 1);
      if k == 1 {
        AllocReadsHead(s, e);
      } else if k == 2 {
        AllocReadsNext(s, e);
      } else if k == 3 {
        AllocPops(s, e);
      } else if k == 4 {
        AllocCounts(s, e);
      } else if k == 5 {
        AllocLoads(s, e);
      } else {
        AllocLinks(s, e);
      }
      ReachStep(AllocAt(s, e, k - 1), AllocStep(k - 1), AllocAt(s, e, k), size, buckets);
    }
  }

  /** One bucket and three overflow entries; what varies while they are linked, marked and unlinked. */
  function RaceState(next: map<Entry, Ptr>, marks: map<Entry, Mark>, pcs: map<Section, Pc>, w: Worker,
                     place: map<Entry, Place>, chain: seq<Entry>): State
  {
    State(next, marks, Null, map[0 := To(2)], pcs, map[0 := w], 3, {0}, {}, 0, place, [], map[0 := chain])
  }

  const LINKED: map<Entry, Ptr> := map[0 := Null, 1 := To(0), 2 := To(1)]
  const ALL_CHAINED: map<Entry, Place> := map[0 := Chained(0), 1 := Chained(0), 2 := Chained(0)]

  /** The chain 2, 1, 0, the last of which is marked or not. */
  function RaceLinked(pcs: map<Section, Pc>, last: Mark, w: Worker): State
  {
    RaceState(LINKED, map[0 := last, 1 := Valid, 2 := Valid], pcs, w, ALL_CHAINED, [2, 1, 0])
  }

  function RaceMarked(w: Worker): State
  {
    RaceState(LINKED, map[0 := Marked, 1 := Marked, 2 := Valid], map[], w, ALL_CHAINED, [2, 1, 0])
  }

  function RaceEnd(): State
  {
    RaceState(map[0 := Null, 1 := To(0), 2 := Null], map[0 := Processed, 1 := Marked, 2 := Valid], map[],
              Walk(To(2), Null), map[0 := Grace(0, {}), 1 := Chained(0), 2 := Chained(0)], [2, 1])
  }

  /** The table with three overflow entries while section 0 is in it and has linked the first `n`. */
  function RaceBuilt(n: nat): State
    requires n <= 2
  {
    State(
      if n == 0 then map[0 := To(1), 1 := To(2), 2 := Null]
      else if n == 1 then map[0 := Null, 1 := To(2), 2 := Null] else map[0 := Null, 1 := To(0), 2 := Null],
      map[0 := if n > 0 then Valid else Clear, 1 := if n > 1 then Valid else Clear, 2 := Clear],
      To(n), map[0 := if n == 0 then Null else To(n - 1)], map[0 := Running(0)], map[0 := Asleep], n, {0}, {}, 0,
      map[0 := if n > 0 then Chained(0) else Free, 1 := if n > 1 then Chained(0) else Free, 2 := Free],
      if n == 0 then [0, 1, 2] else if n == 1 then [1, 2] else [2],
      map[0 := if n == 0 then [] else if n == 1 then [0] else [1, 0]])
  }

  function RaceFresh(): State
  {
    RaceBuilt(0).(pcs := map[], sections := {})
  }

  lemma RaceFreshIs()
    ensures Fresh(RaceFresh(), 3, {0})
  {
    var r := RaceFresh();
    assert r.next == Linked(0, 3, Null);
    assert r.marks == Filled(0, 3, Clear);
    assert r.place == Filled(0, 3, Free);
    assert r.free == seq(3, i => i);
  }

  lemma RaceEnters()
    ensures Takes(RaceFresh(), Enter(0, 0), RaceBuilt(0))
  {
    assert Next(RaceFresh(), Enter(0, 0)).pcs == RaceBuilt(0).pcs;
  }

  lemma RaceEnter()
    ensures Reachable(RaceBuilt(0), 3, {0})
  {
    RaceFreshIs();
    ReachFresh(RaceFresh(), 3, {0});
    RaceEnters();
    ReachStep(RaceFresh(), Enter(0, 0), RaceBuilt(0), 3, {0});
  }

  lemma RaceAllocated(n: nat)
    requires n < 2
    ensures Quiet(RaceBuilt(n), n) && Allocated(RaceBuilt(n), n) == RaceBuilt(n + 1)
  {
    var u, r := Allocated(RaceBuilt(n), n), RaceBuilt(n + 1);
    assert u.next == r.next && u.marks == r.marks;
    assert u.place == r.place && u.free == r.free;
    assert [0] + [] == [0] && [1] + [0] == [1, 0];
    assert u.heads == r.heads && u.chains == r.chains;
  }

  lemma RaceAllAllocated()
    ensures Quiet(RaceBuilt(2), 2)
    ensures Allocated(RaceBuilt(2), 2) == RaceLinked(map[0 := Running(0)], Valid, Asleep)
  {
    var u, r := Allocated(RaceBuilt(2), 2), RaceLinked(map[0 := Running(0)], Valid, Asleep);
    assert u.next == r.next && u.marks == r.marks;
    assert u.place == r.place && u.free == r.free;
    assert [2] + [1, 0] == [2, 1, 0];
    assert u.heads == r.heads && u.chains == r.chains;
  }

  lemma {:induction false} RaceBuild(n: nat)
    requires n <= 2
    ensures Reachable(RaceBuilt(n), 3, {0})
  {
    if n == 0 {
      RaceEnter();
    } else {
      RaceBuild(n - 1);
      RaceAllocated(n - 1);
      AllocReach(RaceBuilt(n - 1), n - 1, 3, {0}, 6);
    }
  }

  /** The states from there on: section 0 leaves, entry 0 is marked, the worker walks, entry 1 is marked. */
  function RaceAt(k: nat): State
    requires k <= 9
  {
    if k == 0 then RaceLinked(map[0 := Running(0)], Valid, Asleep)
    else if k == 1 then RaceLinked(map[], Valid, Asleep)
    else if k == 2 then RaceLinked(map[], Marked, Asleep)
    else if k == 3 then RaceLinked(map[], Marked, Walk(Null, To(2)))
    else if k == 4 then RaceLinked(map[], Marked, Seen(Null, 2))
    else if k == 5 then RaceLinked(map[], Marked, Walk(To(2), To(1)))
    else if k == 6 then RaceLinked(map[], Marked, Seen(To(2), 1))
    else if k == 7 then RaceMarked(Seen(To(2), 1))
    else if k == 8 then RaceMarked(Walk(To(2), To(0)))
    else RaceMarked(Doomed(To(2), 0))
  }

  function RaceStep(k: nat): Step
  {
    match k
    case 0 => Leave(0)
    case 1 => MarkDelete(0)
    case 2 => WorkStart(0)
    case 3 => WorkTest(0)
    case 4 => WorkPass(0)
    case 5 => WorkTest(0)
    case 6 => MarkDelete(1)
    case 7 => WorkPass(0)
    case _ => WorkTest(0)
  }

  lemma RaceNextMarks(k: nat)
    requires k == 0 || k == 1 || k == 6
    ensures Takes(RaceAt(k), RaceStep(k), RaceAt(k + 1))
  {
    var u, r := Next(RaceAt(k), RaceStep(k)), RaceAt(k + 1);
    assert u.marks == r.marks && u.pcs == r.pcs;
  }

  lemma RaceNextTests(k: nat)
    requires k == 3 || k == 5 || k == 8
    ensures Takes(RaceAt(k), RaceStep(k), RaceAt(k + 1))
  {
    assert Next(RaceAt(k), RaceStep(k)).workers == RaceAt(k + 1).workers;
  }

  lemma RaceNextWalks(k: nat)
    requires k == 2 || k == 4 || k == 7
    ensures Takes(RaceAt(k), RaceStep(k), RaceAt(k + 1))
  {
    assert Next(RaceAt(k), RaceStep(k)).workers == RaceAt(k + 1).workers;
  }

  lemma {:induction false} RaceReach(k: nat)
    requires k <= 9
    ensures Reachable(RaceAt(k), 3, {0})
  {
    if k == 0 {
      RaceBuild(2);
      RaceAllAllocated();
      AllocReach(RaceBuilt(2), 2, 3, {0}, 6);
    } else {
      RaceReach(k - 1);
      RaceNext(k - 1);
      ReachStep(RaceAt(k - 1), RaceStep(k - 1), RaceAt(k), 3, {0});
    }
  }

  lemma RaceNext(k: nat)
    requires k < 9
    ensures Takes(RaceAt(k), RaceStep(k), RaceAt(k + 1))
  {
    if k == 0 || k == 1 || k == 6 {
      RaceNextMarks(k);
    } else if k == 3 || k == 5 || k == 8 {
      RaceNextTests(k);
    } else {
      RaceNextWalks(k);
    }
  }

  lemma RaceWithout()
    ensures Without([2, 1, 0], 0) == [2, 1]
  {
    assert [2, 1, 0][1..] == [1, 0] && [1, 0][1..] == [0] && [0][1..] == [];
    assert Without([0], 0) == [];
    assert Without([1, 0], 0) == [1];
  }

  lemma RaceUnlink()
    ensures Takes(RaceMarked(Doomed(To(2), 0)), WorkUnlink(0), RaceEnd())
  {
    var s := RaceMarked(Doomed(To(2), 0));
    RaceWithout();
    var u := Next(s, WorkUnlink(0));
    assert s.pcs.Keys == {};
    assert u.next == RaceEnd().next;
    assert u.marks == RaceEnd().marks;
    assert u.place == RaceEnd().place;
    assert u.workers == RaceEnd().workers;
  }

  /**
   * Marking an entry between the worker's tests can lose it: at the end of a run from a fresh table, entry 1
   * is marked for deletion, but the pointers no longer lead to it and no grace period of it is running.
   */
  lemma MarkInWindowLosesEntry()
    ensures Reachable(RaceMarked(Doomed(To(2), 0)), 3, {0}) && Reachable(RaceEnd(), 3, {0})
    ensures Enabled(RaceMarked(Doomed(To(2), 0)), WorkUnlink(0)) && !UnlinkSafe(RaceMarked(Doomed(To(2), 0)), 0)
    ensures List(RaceEnd().next, RaceEnd().heads[0], [2]) && RaceEnd().freeHead == Null
    ensures RaceEnd().marks[1] == Marked && RaceEnd().place[1] == Chained(0)
  {
    RaceMarkedReach();
    RaceEndReach();
    RaceLost();
  }

  lemma RaceMarkedReach()
    ensures Reachable(RaceMarked(Doomed(To(2), 0)), 3, {0})
  {
    RaceReach(9);
  }

  lemma RaceEndReach()
    ensures Reachable(RaceEnd(), 3, {0})
  {
    RaceMarkedReach();
    RaceUnlink();
    ReachStep(RaceMarked(Doomed(To(2), 0)), WorkUnlink(0), RaceEnd(), 3, {0});
  }

  lemma RaceLost()
    ensures Enabled(RaceMarked(Doomed(To(2), 0)), WorkUnlink(0)) && !UnlinkSafe(RaceMarked(Doomed(To(2), 0)), 0)
    ensures List(RaceEnd().next, RaceEnd().heads[0], [2]) && RaceEnd().freeHead == Null
    ensures RaceEnd().marks[1] == Marked && RaceEnd().place[1] == Chained(0)
  {
    var one := [2];
    assert one[1..] == [];
    assert List(RaceEnd().next, Null, []);
    assert List(RaceEnd().next, To(2), one);
  }
}
