/** What holds in every run of the eviction protocol, and exactly when. */
module FlowEvictRuns {
  import opened FlowEvict
  import opened Numbers

  // ----- whole runs

  /** A table without flows and nobody at work on it. */
  ghost predicate Start(s: State)
  {
    && s.flows.Keys == s.owner.Keys
    && (forall f {:trigger s.flows[f]} :: f in s.flows ==> s.flows[f] == Blank(0) && s.owner[f] == Nobody)
    && s.markers == map[] && s.works == map[] && s.agent == Idle && s.deletes == {}
  }

  lemma StartInv(s: State)
    requires Start(s)
    ensures Inv(s)
  {
  }

  ghost predicate Takes(s: State, step: Step, t: State)
  {
    Enabled(s, step) && t == Next(s, step)
  }

  ghost predicate Path(states: seq<State>, steps: seq<Step>)
  {
    && |states| == |steps| + 1
    && Start(states[0])
    && forall i :: 0 <= i < |steps| ==> Takes(states[i], steps[i], states[i + 1])
  }

  /** A run all of whose steps are safe. */
  ghost predicate Run(states: seq<State>, steps: seq<Step>)
  {
    && Path(states, steps)
    && forall i :: 0 <= i < |steps| ==> Enabled(states[i], steps[i]) && Safe(states[i], steps[i])
  }

  lemma {:induction false} RunInv(states: seq<State>, steps: seq<Step>, i: nat)
    requires Run(states, steps) && i <= |steps|
    ensures Inv(states[i])
  {
    if i > 0 {
      RunInv(states, steps, i - 1);
      assert Takes(states[i - 1], steps[i - 1], states[i]);
      StepInvIff(states[i - 1], steps[i - 1]);
    } else {
      StartInv(states[0]);
    }
  }

  /** A run keeps the invariant throughout exactly if all its steps are safe. */
  lemma RunInvIff(states: seq<State>, steps: seq<Step>)
    requires Path(states, steps)
    ensures Run(states, steps) <==> forall i :: 0 <= i < |states| ==> Inv(states[i])
  {
    if Run(states, steps) {
      forall i | 0 <= i < |states| ensures Inv(states[i]) { RunInv(states, steps, i); }
    }
    if forall i :: 0 <= i < |states| ==> Inv(states[i]) {
      forall i | 0 <= i < |steps| ensures Enabled(states[i], steps[i]) && Safe(states[i], steps[i]) {
        assert Takes(states[i], steps[i], states[i + 1]) && Inv(states[i]) && Inv(states[i + 1]);
        StepInvIff(states[i], steps[i]);
      }
    }
  }

  lemma {:induction false} RunKeys(states: seq<State>, steps: seq<Step>, i: nat)
    requires Path(states, steps) && i <= |steps|
    ensures states[i].flows.Keys == states[i].owner.Keys == states[0].flows.Keys
  {
    if i > 0 {
      RunKeys(states, steps, i - 1);
      assert Takes(states[i - 1], steps[i - 1], states[i]);
      StepKeys(states[i - 1], steps[i - 1]);
    }
  }

  // ----- one party at a time

  /** The parties that work on an entry, told from where each of them is and the entry's flags. */
  ghost predicate WorksOn(s: State, p: Owner, f: Index)
  {
    match p
    case Nobody => false
    case Marker(m) => m in s.markers && Grips(s.markers[m], f)
    case Doomed => f in s.flows && s.flows[f].candidate && forall m :: m in s.markers ==> !Grips(s.markers[m], f)
    case Leaving(w) => w in s.works && Leaves(s.works[w], f)
    case Agent => s.agent == Holding(f)
    case Deletion => f in s.deletes
  }

  lemma OwnerWorks(s: State, p: Owner, f: Index)
    requires Inv(s) && f in s.flows && WorksOn(s, p, f)
    ensures s.owner[f] == p
  {
    assert FlowOk(s.flows[f], s.owner[f]) && Held(s.markers, s.works, s.agent, s.deletes, f, s.owner[f]);
    if p.Marker? { assert MarkerOk(s.flows, s.owner, p.m, s.markers[p.m], s.seen[p.m]); }
    if p.Leaving? { assert WorkOk(s.flows, s.owner, s.markers, p.w, s.works[p.w]); }
  }

  lemma DoomedIsFree(s: State, f: Index, m: MarkerId)
    requires Inv(s) && f in s.flows && s.owner[f] == Doomed && m in s.markers
    ensures !Grips(s.markers[m], f)
  {
    assert MarkerOk(s.flows, s.owner, m, s.markers[m], s.seen[m]);
  }

  lemma OwnerAtWork(s: State, p: Owner, f: Index)
    requires Inv(s) && f in s.flows && s.owner[f] == p && p != Nobody
    ensures WorksOn(s, p, f)
  {
    assert FlowOk(s.flows[f], s.owner[f]) && Held(s.markers, s.works, s.agent, s.deletes, f, s.owner[f]);
    if p.Doomed? {
      forall m | m in s.markers ensures !Grips(s.markers[m], f) { DoomedIsFree(s, f, m); }
    }
  }

  /** In every run, the MODIFIED bit of an entry is set exactly while some party works on it, and then only one does. */
  lemma OneParty(states: seq<State>, steps: seq<Step>, i: nat, f: Index, p: Owner, q: Owner)
    requires Run(states, steps) && i <= |steps| && f in states[0].flows
    ensures f in states[i].flows
    ensures states[i].flows[f].modified <==> exists o :: WorksOn(states[i], o, f)
    ensures WorksOn(states[i], p, f) && WorksOn(states[i], q, f) ==> p == q
  {
    RunInv(states, steps, i);
    RunKeys(states, steps, i);
    var t := states[i];
    assert FlowOk(t.flows[f], t.owner[f]);
    if t.owner[f] != Nobody { OwnerAtWork(t, t.owner[f], f); }
    forall o | WorksOn(t, o, f) ensures t.owner[f] == o { OwnerWorks(t, o, f); }
  }

  lemma Busy(t: State, f: Index)
    requires Inv(t) && f in t.flows && t.flows[f].candidate
    ensures t.flows[f].modified && t.flows[f].valid
    ensures Enabled(t, AgentTake(f)) ==> Next(t, AgentTake(f)) == t
  {
    assert FlowOk(t.flows[f], t.owner[f]);
  }

  /** In every run, a candidate is under the MODIFIED bit, and the agent cannot get it. */
  lemma CandidateIsBusy(states: seq<State>, steps: seq<Step>, i: nat, f: Index)
    requires Run(states, steps) && i <= |steps| && f in states[i].flows && states[i].flows[f].candidate
    ensures states[i].flows[f].modified && states[i].flows[f].valid
    ensures Enabled(states[i], AgentTake(f)) ==> Next(states[i], AgentTake(f)) == states[i]
  {
    RunInv(states, steps, i);
    Busy(states[i], f);
  }

  /** In every run, the flow a marker works on is the one it looked up. */
  lemma MarkerKeepsItsFlow(states: seq<State>, steps: seq<Step>, i: nat, m: MarkerId)
    requires Run(states, steps) && i <= |steps| && m in states[i].markers
    ensures m in states[i].seen && SameFlow(states[i].flows, states[i].markers[m].f, states[i].seen[m])
  {
    RunInv(states, steps, i);
    assert MarkerOk(states[i].flows, states[i].owner, m, states[i].markers[m], states[i].seen[m]);
  }

  // ----- what the grace period is good for

  /**
   * The callback of an eviction work whose flow is still in the entry is safe, and no marker has looked the
   * flow up; so only callbacks of agent sets, or on entries that have been reused, evict under a marker.
   */
  lemma GraceProtects(states: seq<State>, steps: seq<Step>, i: nat, w: WorkId)
    requires Run(states, steps) && i <= |steps| && Enabled(states[i], EvictSelf(w))
    requires var pc := states[i].works[w]; pc.evict && states[i].flows[pc.f].gen == pc.gen
    ensures EvictSafe(states[i], states[i].works[w].f)
    ensures Evictable(states[i].flows[states[i].works[w].f]) ==> DropSafe(states[i], states[i].works[w].f)
  {
    RunInv(states, steps, i);
    GraceOver(states[i], w);
  }

  lemma GraceOver(s: State, w: WorkId)
    requires Inv(s) && Enabled(s, EvictSelf(w)) && s.works[w].evict && s.flows[s.works[w].f].gen == s.works[w].gen
    ensures EvictSafe(s, s.works[w].f)
    ensures Evictable(s.flows[s.works[w].f]) ==> DropSafe(s, s.works[w].f)
  {
    var f := s.works[w].f;
    assert WorkOk(s.flows, s.owner, s.markers, w, s.works[w]) && FlowOk(s.flows[f], s.owner[f]);
    if Evictable(s.flows[f]) {
      assert s.owner[f] == Doomed;
      forall m | m in s.markers ensures !Grips(s.markers[m], f) && s.markers[m].f != f { DoomedIsFree(s, f, m); }
    }
  }

  /** Flags do not tell whether an eviction is safe: scheduling changes none and makes the difference. */
  lemma FlagsDoNotTell(s: State, m: MarkerId, w: WorkId)
    requires Inv(s) && Enabled(s, Schedule(m, w))
    ensures var u, f := Next(s, Schedule(m, w)), s.markers[m].f;
            u.flows == s.flows && !EvictSafe(s, f) && EvictSafe(u, f)
  {
    var u, f := Next(s, Schedule(m, w)), s.markers[m].f;
    OwnFacts(s, m);
    assert Grips(s.markers[m], f);
    forall n | n in u.markers ensures !Grips(u.markers[n], f) {
      assert MarkerOk(s.flows, s.owner, n, s.markers[n], s.seen[n]);
    }
  }

  // ----- held flows

  /** No candidate is on hold. */
  ghost predicate NoneHeld(s: State)
  {
    forall f {:trigger s.flows[f]} :: f in s.flows && s.flows[f].candidate ==> !s.flows[f].hold
  }

  /** The step marks a flow that is on hold. */
  predicate MarksHeld(s: State, step: Step)
    requires Enabled(s, step)
  {
    step.MarkSelf? && var f := s.markers[step.m].f; s.flows[f].active && !s.flows[f].candidate && s.flows[f].hold
  }

  /** A marker makes a held flow a candidate exactly if the flow it marks is on hold at that step. */
  lemma HeldIff(s: State, step: Step)
    requires Inv(s) && NoneHeld(s) && Enabled(s, step)
    ensures NoneHeld(Next(s, step)) <==> !MarksHeld(s, step)
  {
    var u := Next(s, step);
    StepKeys(s, step);
    if MarksHeld(s, step) {
      assert u.flows[s.markers[step.m].f].candidate;
    } else {
      forall f | f in u.flows ensures u.flows[f].candidate ==> !u.flows[f].hold { StaysUnheld(s, step, f); }
    }
  }

  lemma StaysUnheld(s: State, step: Step, f: Index)
    requires Inv(s) && Enabled(s, step) && !MarksHeld(s, step) && f in s.flows
    requires s.flows[f].candidate ==> !s.flows[f].hold
    ensures var u := Next(s, step); f in u.flows && (u.flows[f].candidate ==> !u.flows[f].hold)
  {
    if step.MarkPeer? || step.MarkSelf? {
      MarkUnheld(s, step, f);
    } else if Risky(step) {
      EvictUnheld(s, step, f);
    } else if step.Look? || step.Take? || step.FindPeer? || step.TakePeer? {
      TakeUnheld(s, step, f);
    } else if step.ReleasePeer? || step.ReleaseSelf? {
      ReleaseUnheld(s, step, f);
    } else if step.Schedule? || step.ScheduleFails? || step.Register? || step.ClearNew? || step.SetDead? {
      EndUnheld(s, step, f);
    } else if step.AgentStop? || step.AgentDelete? || step.Alloc? {
      StopUnheld(s, step, f);
    } else {
      AgentUnheld(s, step, f);
    }
  }

  lemma MarkUnheld(s: State, step: Step, f: Index)
    requires Enabled(s, step) && !MarksHeld(s, step) && f in s.flows && (step.MarkPeer? || step.MarkSelf?)
    requires s.flows[f].candidate ==> !s.flows[f].hold
    ensures var u := Next(s, step); f in u.flows && (u.flows[f].candidate ==> !u.flows[f].hold)
  {
  }

  lemma EvictUnheld(s: State, step: Step, f: Index)
    requires Enabled(s, step) && f in s.flows && Risky(step)
    requires s.flows[f].candidate ==> !s.flows[f].hold
    ensures var u := Next(s, step); f in u.flows && (u.flows[f].candidate ==> !u.flows[f].hold)
  {
  }

  lemma AgentUnheld(s: State, step: Step, f: Index)
    requires Flows(s) && Outside(s) && Enabled(s, step) && f in s.flows
    requires step.AgentTake? || step.AgentSet? || step.AgentWork?
    requires s.flows[f].candidate ==> !s.flows[f].hold
    ensures var u := Next(s, step); f in u.flows && (u.flows[f].candidate ==> !u.flows[f].hold)
  {
    assert FlowOk(s.flows[f], s.owner[f]);
  }

  lemma StopUnheld(s: State, step: Step, f: Index)
    requires Flows(s) && Outside(s) && Enabled(s, step) && f in s.flows
    requires step.AgentStop? || step.AgentDelete? || step.Alloc?
    requires s.flows[f].candidate ==> !s.flows[f].hold
    ensures var u := Next(s, step); f in u.flows && (u.flows[f].candidate ==> !u.flows[f].hold)
  {
    assert FlowOk(s.flows[f], s.owner[f]);
  }

  lemma TakeUnheld(s: State, step: Step, f: Index)
    requires Enabled(s, step) && f in s.flows && (step.Look? || step.Take? || step.FindPeer? || step.TakePeer?)
    requires s.flows[f].candidate ==> !s.flows[f].hold
    ensures var u := Next(s, step); f in u.flows && (u.flows[f].candidate ==> !u.flows[f].hold)
  {
  }

  lemma ReleaseUnheld(s: State, step: Step, f: Index)
    requires Enabled(s, step) && f in s.flows && (step.ReleasePeer? || step.ReleaseSelf?)
    requires s.flows[f].candidate ==> !s.flows[f].hold
    ensures var u := Next(s, step); f in u.flows && (u.flows[f].candidate ==> !u.flows[f].hold)
  {
    var pc := s.markers[step.m];
    var g := if step.ReleasePeer? then pc.peer else pc.f;
    assert Next(s, step).flows == s.flows[g := Dropped(s.flows[g], pc.Undo?)];
  }

  lemma EndUnheld(s: State, step: Step, f: Index)
    requires Enabled(s, step) && f in s.flows
    requires step.Schedule? || step.ScheduleFails? || step.Register? || step.ClearNew? || step.SetDead?
    requires s.flows[f].candidate ==> !s.flows[f].hold
    ensures var u := Next(s, step); f in u.flows && (u.flows[f].candidate ==> !u.flows[f].hold)
  {
  }

  ghost predicate MarksHeldAt(states: seq<State>, steps: seq<Step>, i: nat)
    requires i < |steps| < |states|
  {
    Enabled(states[i], steps[i]) && MarksHeld(states[i], steps[i])
  }

  lemma StartNoneHeld(s: State)
    requires Start(s)
    ensures NoneHeld(s)
  {
  }

  lemma HeldAt(states: seq<State>, steps: seq<Step>, i: nat)
    requires Run(states, steps) && i < |steps| && NoneHeld(states[i])
    ensures NoneHeld(states[i + 1]) <==> !MarksHeldAt(states, steps, i)
  {
    RunInv(states, steps, i);
    assert Takes(states[i], steps[i], states[i + 1]);
    HeldIff(states[i], steps[i]);
  }

  lemma {:induction false} NoneHeldUpTo(states: seq<State>, steps: seq<Step>, i: nat)
    requires Run(states, steps) && i <= |steps|
    requires forall k :: 0 <= k < i ==> !MarksHeldAt(states, steps, k)
    ensures NoneHeld(states[i])
  {
    if i > 0 {
      NoneHeldUpTo(states, steps, i - 1);
      HeldAt(states, steps, i - 1);
    } else {
      StartNoneHeld(states[0]);
    }
  }

  /** In a run, no candidate is ever on hold exactly if no marker marks a flow that is on hold. */
  lemma NoneHeldIff(states: seq<State>, steps: seq<Step>)
    requires Run(states, steps)
    ensures (forall i {:trigger states[i]} :: 0 <= i < |states| ==> NoneHeld(states[i]))
       <==> (forall i :: 0 <= i < |steps| ==> !MarksHeldAt(states, steps, i))
  {
    if forall i :: 0 <= i < |steps| ==> !MarksHeldAt(states, steps, i) {
      forall i | 0 <= i < |states| ensures NoneHeld(states[i]) { NoneHeldUpTo(states, steps, i); }
    }
    if forall i {:trigger states[i]} :: 0 <= i < |states| ==> NoneHeld(states[i]) {
      forall i | 0 <= i < |steps| ensures !MarksHeldAt(states, steps, i) {
        assert NoneHeld(states[i]) && NoneHeld(states[i + 1]);
        HeldAt(states, steps, i);
      }
    }
  }

  // ----- every flow is released once

  /** Whether a step gives the entry back to the hash table. */
  predicate Releases(s: State, step: Step, f: Index)
    requires Enabled(s, step)
  {
    match step
    case DropSelf(w) => s.works[w].f == f
    case DropPeer(w) => s.works[w].f == f
    case Reset(g) => g == f
    case _ => false
  }

  function Allocations(steps: seq<Step>, f: Index): nat
  {
    if steps == [] then 0 else Allocations(steps[..|steps| - 1], f) + One(steps[|steps| - 1] == Alloc(f))
  }

  ghost function Count(states: seq<State>, steps: seq<Step>, f: Index, i: nat): nat
    requires Path(states, steps) && i <= |steps|
  {
    if i == 0 then 0
    else
      assert Takes(states[i - 1], steps[i - 1], states[i]);
      Count(states, steps, f, i - 1) + One(Releases(states[i - 1], steps[i - 1], f))
  }

  /** Allocation and release are all that changes whether an entry is in use. */
  ghost predicate UseKept(s: State, step: Step, f: Index)
    requires Enabled(s, step)
  {
    && f in s.flows && f in Next(s, step).flows && (Releases(s, step, f) ==> s.flows[f].valid)
    && One(s.flows[f].valid) + One(step == Alloc(f)) == One(Releases(s, step, f)) + One(Next(s, step).flows[f].valid)
  }

  lemma UseOfEvictions(s: State, step: Step, f: Index)
    requires Enabled(s, step) && f in s.flows && (step.EvictSelf? || step.EvictPeer?)
    ensures UseKept(s, step, f)
  {
  }

  lemma UseOfReleases(s: State, step: Step, f: Index)
    requires Flows(s) && Works(s) && Enabled(s, step) && f in s.flows && (step.DropSelf? || step.DropPeer?)
    ensures UseKept(s, step, f)
  {
    assert WorkOk(s.flows, s.owner, s.markers, step.w, s.works[step.w]);
    assert FlowOk(s.flows[f], s.owner[f]);
  }

  lemma UseOfReset(s: State, g: Index, f: Index)
    requires Flows(s) && Outside(s) && Enabled(s, Reset(g)) && f in s.flows
    ensures UseKept(s, Reset(g), f)
  {
    assert FlowOk(s.flows[f], s.owner[f]) && g in s.deletes;
  }

  lemma UseOfMarkers(s: State, step: Step, f: Index)
    requires Enabled(s, step) && f in s.flows
    requires step.Look? || step.Take? || step.FindPeer? || step.TakePeer? || step.MarkPeer? || step.MarkSelf?
             || step.ReleasePeer? || step.ReleaseSelf?
    ensures UseKept(s, step, f)
  {
  }

  lemma UseOfOthers(s: State, step: Step, f: Index)
    requires Enabled(s, step) && f in s.flows && !Risky(step)
    requires !step.Look? && !step.Take? && !step.FindPeer? && !step.TakePeer? && !step.MarkPeer? && !step.MarkSelf?
             && !step.ReleasePeer? && !step.ReleaseSelf?
    ensures UseKept(s, step, f)
  {
  }

  /** Only a used entry is released, and only allocation and release change whether it is in use. */
  lemma UseChange(s: State, step: Step, f: Index)
    requires Inv(s) && Enabled(s, step) && f in s.flows
    ensures UseKept(s, step, f)
  {
    if step.EvictSelf? || step.EvictPeer? {
      UseOfEvictions(s, step, f);
    } else if step.DropSelf? || step.DropPeer? {
      UseOfReleases(s, step, f);
    } else if step.Reset? {
      UseOfReset(s, step.f, f);
    } else if step.Look? || step.Take? || step.FindPeer? || step.TakePeer? || step.MarkPeer? || step.MarkSelf?
              || step.ReleasePeer? || step.ReleaseSelf? {
      UseOfMarkers(s, step, f);
    } else {
      UseOfOthers(s, step, f);
    }
  }

  /** In every run, each flow put into an entry is released once, or is still there. */
  lemma {:induction false} ReleasedOnce(states: seq<State>, steps: seq<Step>, i: nat, f: Index)
    requires Run(states, steps) && i <= |steps| && f in states[0].flows
    ensures f in states[i].flows
    ensures Allocations(steps[..i], f) == Count(states, steps, f, i) + One(states[i].flows[f].valid)
  {
    if i > 0 {
      ReleasedOnce(states, steps, i - 1, f);
      RunInv(states, steps, i - 1);
      assert Takes(states[i - 1], steps[i - 1], states[i]);
      UseChange(states[i - 1], steps[i - 1], f);
      assert steps[..i][..i - 1] == steps[..i - 1];
    }
  }

  // ----- no doomed entry is forgotten

  /** The reverse index of an entry that is to be evicted or released; it does not change before that. */
  ghost predicate Through(s: State, f: Index, i: Index)
  {
    && f in s.flows && f in s.owner && (s.owner[f].Doomed? || s.owner[f].Leaving?)
    && s.flows[f].rflow == i
  }

  /** The callback of a work comes to an entry: as its forward entry, or as the reverse of one other than `not`. */
  ghost predicate Comes(s: State, pc: WorkPc, i: Index, not: int)
  {
    match pc
    case Queued(f, _, _) => f == i || (f != not && Through(s, f, i))
    case Grace(f, _, _, _) => f == i || (f != not && Through(s, f, i))
    case Leave(_, r) => r == i
    case PeerLeft(r) => r == i
    case LeavePeer(_) => false
  }

  ghost predicate Covered(s: State, i: Index, not: int)
  {
    exists w :: w in s.works && Comes(s, s.works[w], i, not)
  }

  /** Every doomed entry has a callback that comes to it. */
  ghost predicate AllCovered(s: State)
  {
    forall i {:trigger s.owner[i]} :: i in s.owner && s.owner[i].Doomed? ==> Covered(s, i, -1)
  }

  /** The step releases an entry through which alone a callback would have come to some doomed entry. */
  ghost predicate Strands(s: State, step: Step)
    requires Enabled(s, step)
  {
    && (step.DropSelf? || step.DropPeer?)
    && exists i {:trigger s.owner[i]} :: i in s.owner && s.owner[i].Doomed? && !Covered(s, i, s.works[step.w].f)
  }

  lemma ThroughMarkers(s: State, step: Step, f: Index, i: Index)
    requires Inv(s) && Enabled(s, step) && Through(s, f, i)
    requires step.Look? || step.Take? || step.FindPeer? || step.TakePeer? || step.MarkPeer? || step.MarkSelf?
    ensures Through(Next(s, step), f, i)
  {
    assert FlowOk(s.flows[f], s.owner[f]);
    if !step.Look? && !step.Take? { OwnFacts(s, step.m); }
  }

  lemma ThroughEnds(s: State, step: Step, f: Index, i: Index)
    requires Inv(s) && Enabled(s, step) && Through(s, f, i)
    requires step.Schedule? || step.ScheduleFails? || step.ReleasePeer? || step.ReleaseSelf? || step.Register?
    ensures Through(Next(s, step), f, i)
  {
    if !step.Register? { OwnFacts(s, step.m); }
  }

  lemma ThroughAgent(s: State, step: Step, f: Index, i: Index)
    requires Flows(s) && Outside(s) && Enabled(s, step) && Through(s, f, i)
    requires step.AgentTake? || step.AgentSet? || step.AgentWork?
    ensures Through(Next(s, step), f, i)
  {
    if step.AgentTake? { assert FlowOk(s.flows[f], s.owner[f]); }
  }

  lemma ThroughStops(s: State, step: Step, f: Index, i: Index)
    requires Flows(s) && Outside(s) && Enabled(s, step) && Through(s, f, i)
    requires step.AgentStop? || step.AgentDelete?
    ensures Through(Next(s, step), f, i)
  {
  }

  lemma ThroughOutside(s: State, step: Step, f: Index, i: Index)
    requires Flows(s) && Outside(s) && Enabled(s, step) && Through(s, f, i)
    requires step.Reset? || step.Alloc? || step.ClearNew? || step.SetDead?
    ensures Through(Next(s, step), f, i)
  {
    assert FlowOk(s.flows[f], s.owner[f]);
  }

  lemma ThroughEvicts(s: State, step: Step, f: Index, i: Index)
    requires Enabled(s, step) && Through(s, f, i) && (step.EvictSelf? || step.EvictPeer?)
    ensures Through(Next(s, step), f, i)
  {
  }

  lemma ThroughKept(s: State, step: Step, f: Index, i: Index)
    requires Inv(s) && Enabled(s, step) && Through(s, f, i) && !step.DropSelf? && !step.DropPeer?
    ensures Through(Next(s, step), f, i)
  {
    if step.Look? || step.Take? || step.FindPeer? || step.TakePeer? || step.MarkPeer? || step.MarkSelf? {
      ThroughMarkers(s, step, f, i);
    } else if step.Schedule? || step.ScheduleFails? || step.ReleasePeer? || step.ReleaseSelf? || step.Register? {
      ThroughEnds(s, step, f, i);
    } else if step.EvictSelf? || step.EvictPeer? {
      ThroughEvicts(s, step, f, i);
    } else if step.Reset? || step.Alloc? || step.ClearNew? || step.SetDead? {
      ThroughOutside(s, step, f, i);
    } else if step.AgentStop? || step.AgentDelete? {
      ThroughStops(s, step, f, i);
    } else {
      ThroughAgent(s, step, f, i);
    }
  }

  lemma ComesKept(s: State, step: Step, pc: WorkPc, i: Index)
    requires Inv(s) && Enabled(s, step) && !step.DropSelf? && !step.DropPeer? && Comes(s, pc, i, -1)
    ensures Comes(Next(s, step), pc, i, -1)
  {
    if (pc.Queued? || pc.Grace?) && pc.f != i { ThroughKept(s, step, pc.f, i); }
  }

  /** Steps that do not touch works leave covered entries covered. */
  lemma CoverSame(s: State, step: Step, i: Index)
    requires Inv(s) && Enabled(s, step) && !step.DropSelf? && !step.DropPeer? && Covered(s, i, -1)
    requires forall w {:trigger s.works[w]} :: w in s.works ==>
               w in Next(s, step).works && Next(s, step).works[w] == s.works[w]
    ensures Covered(Next(s, step), i, -1)
  {
    var w :| w in s.works && Comes(s, s.works[w], i, -1);
    ComesKept(s, step, s.works[w], i);
    assert Comes(Next(s, step), Next(s, step).works[w], i, -1);
  }

  predicate Pure(step: Step)
  {
    !Risky(step) && !step.Schedule? && !step.Register?
  }

  lemma PureWorks(s: State, step: Step)
    requires Enabled(s, step) && (Pure(step) || step.Reset?)
    ensures forall w {:trigger s.works[w]} :: w in s.works ==>
              w in Next(s, step).works && Next(s, step).works[w] == s.works[w]
  {
  }

  lemma PureDoomed(s: State, step: Step, i: Index)
    requires Enabled(s, step) && (Pure(step) || step.Reset?) && i in s.owner
    ensures i in Next(s, step).owner && (Next(s, step).owner[i].Doomed? ==> s.owner[i].Doomed?)
  {
  }

  lemma CoverPure(s: State, step: Step)
    requires Inv(s) && AllCovered(s) && Enabled(s, step) && (Pure(step) || step.Reset?)
    ensures AllCovered(Next(s, step))
  {
    var u := Next(s, step);
    StepKeys(s, step);
    PureWorks(s, step);
    forall i | i in u.owner && u.owner[i].Doomed? ensures Covered(u, i, -1) {
      PureDoomed(s, step, i);
      CoverSame(s, step, i);
    }
  }

  lemma CoverRegister(s: State, w: WorkId)
    requires Inv(s) && AllCovered(s) && Enabled(s, Register(w))
    ensures AllCovered(Next(s, Register(w)))
  {
    var u := Next(s, Register(w));
    forall i | i in u.owner && u.owner[i].Doomed? ensures Covered(u, i, -1) {
      assert Covered(s, i, -1);
      var v :| v in s.works && Comes(s, s.works[v], i, -1);
      ComesKept(s, Register(w), s.works[v], i);
      assert Comes(u, u.works[v], i, -1);
    }
  }

  lemma CoverSchedule(s: State, m: MarkerId, w: WorkId)
    requires Inv(s) && AllCovered(s) && Enabled(s, Schedule(m, w))
    ensures AllCovered(Next(s, Schedule(m, w)))
  {
    var u, f := Next(s, Schedule(m, w)), s.markers[m].f;
    OwnFacts(s, m);
    StepKeys(s, Schedule(m, w));
    forall i | i in u.owner && u.owner[i].Doomed? ensures Covered(u, i, -1) {
      HandoverOwner(s, u, m, w, i);
      if i == f || i == s.markers[m].peer {
        HandoverOwner(s, u, m, w, f);
        assert Comes(u, u.works[w], i, -1);
      } else {
        CoverSame(s, Schedule(m, w), i);
      }
    }
  }

  lemma DoomedValid(s: State, i: Index)
    requires Inv(s) && i in s.owner && s.owner[i].Doomed?
    ensures IsFlow(s, i) && s.flows[i].valid && Evictable(s.flows[i])
  {
    assert i in s.flows && FlowOk(s.flows[i], s.owner[i]);
  }

  lemma CoverEvictSelf(s: State, w: WorkId, i: Index)
    requires Inv(s) && AllCovered(s) && Enabled(s, EvictSelf(w)) && i in s.owner
    requires Next(s, EvictSelf(w)).owner[i].Doomed?
    ensures Covered(Next(s, EvictSelf(w)), i, -1)
  {
    var u, f := Next(s, EvictSelf(w)), s.works[w].f;
    assert s.owner[i].Doomed? && Covered(s, i, -1);
    DoomedValid(s, i);
    var v :| v in s.works && Comes(s, s.works[v], i, -1);
    if v == w {
      assert i != f && Reverse(s, f) == i;
      assert Comes(u, u.works[w], i, -1);
    } else {
      ComesKept(s, EvictSelf(w), s.works[v], i);
      assert Comes(u, u.works[v], i, -1);
    }
  }

  lemma CoverEvictPeer(s: State, w: WorkId, i: Index)
    requires Inv(s) && AllCovered(s) && Enabled(s, EvictPeer(w)) && i in s.owner
    requires Next(s, EvictPeer(w)).owner[i].Doomed?
    ensures Covered(Next(s, EvictPeer(w)), i, -1)
  {
    var u := Next(s, EvictPeer(w));
    assert s.owner[i].Doomed? && Covered(s, i, -1);
    DoomedValid(s, i);
    var v :| v in s.works && Comes(s, s.works[v], i, -1);
    assert v != w;
    ComesKept(s, EvictPeer(w), s.works[v], i);
    assert Comes(u, u.works[v], i, -1);
  }

  lemma CoverEvictions(s: State, step: Step)
    requires Inv(s) && AllCovered(s) && Enabled(s, step) && (step.EvictSelf? || step.EvictPeer?)
    ensures AllCovered(Next(s, step))
  {
    var u := Next(s, step);
    StepKeys(s, step);
    forall i | i in u.owner && u.owner[i].Doomed? ensures Covered(u, i, -1) {
      if step.EvictSelf? { CoverEvictSelf(s, step.w, i); } else { CoverEvictPeer(s, step.w, i); }
    }
  }

  /** After the release of `f` the callbacks come where they came without it. */
  lemma ComesAfterDrop(s: State, u: State, f: Index, w: WorkId, i: Index)
    requires Inv(s) && Dropping(s, u, f, w) && (s.works[w].LeavePeer? ==> w !in u.works)
    requires s.works[w].Leave? ==> w in u.works && u.works[w] == PeerLeft(s.works[w].r)
    ensures Covered(u, i, -1) <==> Covered(s, i, f)
  {
    forall v | v in u.works && v != w ensures Comes(u, u.works[v], i, -1) <==> Comes(s, s.works[v], i, f) {
      assert u.works[v] == s.works[v];
    }
    if Covered(u, i, -1) {
      var v :| v in u.works && Comes(u, u.works[v], i, -1);
      assert v in s.works && Comes(s, s.works[v], i, f);
    }
    if Covered(s, i, f) {
      var v :| v in s.works && Comes(s, s.works[v], i, f);
      assert v in u.works && Comes(u, u.works[v], i, -1);
    }
  }

  lemma CoverDrops(s: State, step: Step)
    requires Inv(s) && AllCovered(s) && Enabled(s, step) && (step.DropSelf? || step.DropPeer?)
    ensures AllCovered(Next(s, step)) <==> !Strands(s, step)
  {
    var u, f := Next(s, step), s.works[step.w].f;
    assert WorkOk(s.flows, s.owner, s.markers, step.w, s.works[step.w]);
    forall i | i in s.owner
      ensures i in u.owner && (u.owner[i].Doomed? <==> s.owner[i].Doomed?)
      ensures Covered(u, i, -1) <==> Covered(s, i, f)
    {
      ComesAfterDrop(s, u, f, step.w, i);
    }
    StepKeys(s, step);
    if Strands(s, step) {
      var i :| i in s.owner && s.owner[i].Doomed? && !Covered(s, i, f);
      assert u.owner[i].Doomed?;
    }
  }

  /** A step leaves every doomed entry a callback that comes to it exactly if it strands none. */
  lemma CoverIff(s: State, step: Step)
    requires Inv(s) && AllCovered(s) && Enabled(s, step)
    ensures AllCovered(Next(s, step)) <==> !Strands(s, step)
  {
    if step.DropSelf? || step.DropPeer? {
      CoverDrops(s, step);
    } else if step.EvictSelf? || step.EvictPeer? {
      CoverEvictions(s, step);
    } else if step.Schedule? {
      CoverSchedule(s, step.m, step.w);
    } else if step.Register? {
      CoverRegister(s, step.w);
    } else {
      CoverPure(s, step);
    }
  }

  ghost predicate StrandsAt(states: seq<State>, steps: seq<Step>, i: nat)
    requires i < |steps| < |states|
  {
    Enabled(states[i], steps[i]) && Strands(states[i], steps[i])
  }

  lemma CoverAt(states: seq<State>, steps: seq<Step>, i: nat)
    requires Run(states, steps) && i < |steps| && AllCovered(states[i])
    ensures AllCovered(states[i + 1]) <==> !StrandsAt(states, steps, i)
  {
    RunInv(states, steps, i);
    assert Takes(states[i], steps[i], states[i + 1]);
    CoverIff(states[i], steps[i]);
  }

  lemma {:induction false} CoveredUpTo(states: seq<State>, steps: seq<Step>, i: nat)
    requires Run(states, steps) && i <= |steps|
    requires forall k :: 0 <= k < i ==> !StrandsAt(states, steps, k)
    ensures AllCovered(states[i])
  {
    if i > 0 {
      CoveredUpTo(states, steps, i - 1);
      CoverAt(states, steps, i - 1);
    }
  }

  /** In a run, every doomed entry always has a callback that comes to it exactly if no release strands one. */
  lemma CoveredIff(states: seq<State>, steps: seq<Step>)
    requires Run(states, steps)
    ensures (forall i {:trigger states[i]} :: 0 <= i < |states| ==> AllCovered(states[i]))
       <==> (forall i :: 0 <= i < |steps| ==> !StrandsAt(states, steps, i))
  {
    if forall i :: 0 <= i < |steps| ==> !StrandsAt(states, steps, i) {
      forall i | 0 <= i < |states| ensures AllCovered(states[i]) { CoveredUpTo(states, steps, i); }
    }
    if forall i {:trigger states[i]} :: 0 <= i < |states| ==> AllCovered(states[i]) {
      forall i | 0 <= i < |steps| ensures !StrandsAt(states, steps, i) {
        assert AllCovered(states[i]) && AllCovered(states[i + 1]);
        CoverAt(states, steps, i);
      }
    }
  }
}
