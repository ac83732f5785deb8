/** Runs of the eviction protocol in which a step is not safe, from an empty table on. */
module FlowEvictRaces {
  import opened FlowEvict
  import opened FlowEvictRuns

  /** A state that some run, safe or not, reaches. */
  ghost predicate Reachable(t: State)
  {
    exists states, steps :: Path(states, steps) && states[|steps|] == t
  }

  lemma ReachStart(s: State)
    requires Start(s)
    ensures Reachable(s)
  {
    assert Path([s], []);
  }

  lemma PathStep(states: seq<State>, steps: seq<Step>, step: Step, t: State)
    requires Path(states, steps) && Takes(states[|steps|], step, t)
    ensures Path(states + [t], steps + [step])
  {
    var longer, more := states + [t], steps + [step];
    forall i | 0 <= i < |more| ensures Takes(longer[i], more[i], longer[i + 1]) {
      if i < |steps| { assert Takes(states[i], steps[i], states[i + 1]); }
    }
  }

  lemma ReachStep(s: State, step: Step, t: State)
    requires Reachable(s) && Takes(s, step, t)
    ensures Reachable(t)
  {
    var states, steps :| Path(states, steps) && states[|steps|] == s;
    PathStep(states, steps, step, t);
    assert (states + [t])[|steps + [step]|] == t;
  }

  // ----- one entry

  /** One entry, the party its bit is set for, and the others at work. */
  function Lone(fl: Flow, o: Owner, markers: map<MarkerId, Pc>, works: map<WorkId, WorkPc>,
                seen: map<MarkerId, nat>): State
  {
    State(map[0 := fl], map[0 := o], markers, works, if o.Agent? then Holding(0) else Idle,
          if o.Deletion? then {0} else {}, seen)
  }

  /** A flow that forwards, of a connection that goes on. */
  function LiveFlow(gen: nat): Flow
  {
    Flow(true, false, false, false, false, false, true, false, false, -1, gen)
  }

  function DeadFlow(gen: nat): Flow
  {
    LiveFlow(gen).(dead := true)
  }

  /** A flow on hold, as the datapath makes it. */
  function HeldFlow(gen: nat): Flow
  {
    Flow(true, false, false, true, false, false, true, true, false, -1, gen)
  }

  // ----- steps on one entry

  lemma GoAlloc(fl: Flow, markers: map<MarkerId, Pc>, works: map<WorkId, WorkPc>, seen: map<MarkerId, nat>)
    requires Reachable(Lone(fl, Nobody, markers, works, seen)) && !fl.valid
    ensures Reachable(Lone(Fresh(fl), Nobody, markers, works, seen))
  {
    ReachStep(Lone(fl, Nobody, markers, works, seen), Alloc(0),
              Lone(Fresh(fl), Nobody, markers, works, seen));
  }

  lemma GoClear(fl: Flow, markers: map<MarkerId, Pc>, works: map<WorkId, WorkPc>, seen: map<MarkerId, nat>)
    requires Reachable(Lone(fl, Nobody, markers, works, seen))
    ensures Reachable(Lone(fl.(isNew := false), Nobody, markers, works, seen))
  {
    var s, t := Lone(fl, Nobody, markers, works, seen), Lone(fl.(isNew := false), Nobody, markers, works, seen);
    assert Takes(s, ClearNew(0), t) by { assert Next(s, ClearNew(0)).flows == t.flows; }
    ReachStep(s, ClearNew(0), t);
  }

  lemma GoDead(fl: Flow, markers: map<MarkerId, Pc>, works: map<WorkId, WorkPc>, seen: map<MarkerId, nat>)
    requires Reachable(Lone(fl, Nobody, markers, works, seen))
    ensures Reachable(Lone(fl.(dead := true), Nobody, markers, works, seen))
  {
    var s, t := Lone(fl, Nobody, markers, works, seen), Lone(fl.(dead := true), Nobody, markers, works, seen);
    assert Takes(s, SetDead(0), t) by { assert Next(s, SetDead(0)).flows == t.flows; }
    ReachStep(s, SetDead(0), t);
  }

  lemma GoAgentTake(fl: Flow, markers: map<MarkerId, Pc>, works: map<WorkId, WorkPc>, seen: map<MarkerId, nat>)
    requires Reachable(Lone(fl, Nobody, markers, works, seen)) && fl.valid && Takeable(fl)
    ensures Reachable(Lone(fl.(modified := true), Agent, markers, works, seen))
  {
    ReachStep(Lone(fl, Nobody, markers, works, seen), AgentTake(0),
              Lone(fl.(modified := true), Agent, markers, works, seen));
  }

  lemma GoAgentSet(hold: bool, fl: Flow, markers: map<MarkerId, Pc>, works: map<WorkId, WorkPc>,
                   seen: map<MarkerId, nat>)
    requires Reachable(Lone(fl, Agent, markers, works, seen))
    ensures Reachable(Lone(fl.(hold := hold, rflow := -1), Agent, markers, works, seen))
  {
    ReachStep(Lone(fl, Agent, markers, works, seen), AgentSet(hold, -1),
              Lone(fl.(hold := hold, rflow := -1), Agent, markers, works, seen));
  }

  lemma GoAgentWork(w: WorkId, fl: Flow, markers: map<MarkerId, Pc>, works: map<WorkId, WorkPc>,
                    seen: map<MarkerId, nat>)
    requires Reachable(Lone(fl, Agent, markers, works, seen)) && w !in works
    ensures Reachable(Lone(fl, Agent, markers, works[w := Queued(0, false, fl.gen)], seen))
  {
    ReachStep(Lone(fl, Agent, markers, works, seen), AgentWork(w),
              Lone(fl, Agent, markers, works[w := Queued(0, false, fl.gen)], seen));
  }

  lemma GoAgentStop(fl: Flow, markers: map<MarkerId, Pc>, works: map<WorkId, WorkPc>, seen: map<MarkerId, nat>)
    requires Reachable(Lone(fl, Agent, markers, works, seen))
    ensures Reachable(Lone(fl.(modified := false), Nobody, markers, works, seen))
  {
    ReachStep(Lone(fl, Agent, markers, works, seen), AgentStop,
              Lone(fl.(modified := false), Nobody, markers, works, seen));
  }

  lemma GoAgentDelete(fl: Flow, markers: map<MarkerId, Pc>, works: map<WorkId, WorkPc>, seen: map<MarkerId, nat>)
    requires Reachable(Lone(fl, Agent, markers, works, seen))
    ensures Reachable(Lone(fl.(deleteMarked := true, hold := false), Deletion, markers, works, seen))
  {
    ReachStep(Lone(fl, Agent, markers, works, seen), AgentDelete,
              Lone(fl.(deleteMarked := true, hold := false), Deletion, markers, works, seen));
  }

  lemma GoReset(fl: Flow, markers: map<MarkerId, Pc>, works: map<WorkId, WorkPc>, seen: map<MarkerId, nat>)
    requires Reachable(Lone(fl, Deletion, markers, works, seen))
    ensures Reachable(Lone(Blank(fl.gen), Nobody, markers, works, seen))
  {
    ReachStep(Lone(fl, Deletion, markers, works, seen), Reset(0),
              Lone(Blank(fl.gen), Nobody, markers, works, seen));
  }

  lemma GoLook(m: MarkerId, o: Owner, fl: Flow, markers: map<MarkerId, Pc>, works: map<WorkId, WorkPc>,
               seen: map<MarkerId, nat>)
    requires Reachable(Lone(fl, o, markers, works, seen))
    requires m !in markers && fl.valid && fl.active && !fl.deleteMarked && !fl.candidate && fl.dead
    ensures Reachable(Lone(fl, o, markers[m := Looked(0)], works, seen[m := fl.gen]))
  {
    ReachStep(Lone(fl, o, markers, works, seen), Look(m, 0),
              Lone(fl, o, markers[m := Looked(0)], works, seen[m := fl.gen]));
  }

  lemma GoTake(m: MarkerId, fl: Flow, markers: map<MarkerId, Pc>, works: map<WorkId, WorkPc>,
               seen: map<MarkerId, nat>)
    requires Reachable(Lone(fl, Nobody, markers[m := Looked(0)], works, seen)) && Takeable(fl)
    ensures Reachable(Lone(fl.(modified := true), Marker(m), markers[m := Own(0)], works, seen))
  {
    ReachStep(Lone(fl, Nobody, markers[m := Looked(0)], works, seen), Take(m),
              Lone(fl.(modified := true), Marker(m), markers[m := Own(0)], works, seen));
  }

  lemma GoFindPeer(m: MarkerId, fl: Flow, markers: map<MarkerId, Pc>, works: map<WorkId, WorkPc>,
                   seen: map<MarkerId, nat>)
    requires Reachable(Lone(fl, Marker(m), markers[m := Own(0)], works, seen)) && fl.rflow < 0
    ensures Reachable(Lone(fl, Marker(m), markers[m := Ready(0, -1)], works, seen))
  {
    ReachStep(Lone(fl, Marker(m), markers[m := Own(0)], works, seen), FindPeer(m),
              Lone(fl, Marker(m), markers[m := Ready(0, -1)], works, seen));
  }

  lemma GoMarkSelf(m: MarkerId, fl: Flow, markers: map<MarkerId, Pc>, works: map<WorkId, WorkPc>,
                   seen: map<MarkerId, nat>)
    requires Reachable(Lone(fl, Marker(m), markers[m := Ready(0, -1)], works, seen)) && fl.active && !fl.candidate
    ensures Reachable(Lone(fl.(candidate := true), Marker(m), markers[m := Marked(0, -1)], works, seen))
  {
    ReachStep(Lone(fl, Marker(m), markers[m := Ready(0, -1)], works, seen), MarkSelf(m),
              Lone(fl.(candidate := true), Marker(m), markers[m := Marked(0, -1)], works, seen));
  }

  lemma GoFail(m: MarkerId, o: Owner, fl: Flow, markers: map<MarkerId, Pc>, works: map<WorkId, WorkPc>,
               seen: map<MarkerId, nat>)
    requires Reachable(Lone(fl, o, markers[m := Marked(0, -1)], works, seen))
    ensures Reachable(Lone(fl, o, markers[m := Undo(0, -1)], works, seen))
  {
    ReachStep(Lone(fl, o, markers[m := Marked(0, -1)], works, seen), ScheduleFails(m),
              Lone(fl, o, markers[m := Undo(0, -1)], works, seen));
  }

  lemma GoSchedule(m: MarkerId, w: WorkId, fl: Flow, markers: map<MarkerId, Pc>, works: map<WorkId, WorkPc>,
                   seen: map<MarkerId, nat>)
    requires Reachable(Lone(fl, Marker(m), markers[m := Marked(0, -1)], works, seen)) && w !in works && m !in markers
    ensures Reachable(Lone(fl, Doomed, markers, works[w := Queued(0, true, fl.gen)], seen))
  {
    assert markers[m := Marked(0, -1)] - {m} == markers;
    ReachStep(Lone(fl, Marker(m), markers[m := Marked(0, -1)], works, seen), Schedule(m, w),
              Lone(fl, Doomed, markers, works[w := Queued(0, true, fl.gen)], seen));
  }

  lemma GoRegister(w: WorkId, o: Owner, evict: bool, gen: nat, fl: Flow, markers: map<MarkerId, Pc>,
                   works: map<WorkId, WorkPc>, seen: map<MarkerId, nat>)
    requires Reachable(Lone(fl, o, markers, works[w := Queued(0, evict, gen)], seen))
    ensures Reachable(Lone(fl, o, markers, works[w := Grace(0, evict, gen, markers.Keys)], seen))
  {
    ReachStep(Lone(fl, o, markers, works[w := Queued(0, evict, gen)], seen), Register(w),
              Lone(fl, o, markers, works[w := Grace(0, evict, gen, markers.Keys)], seen));
  }

  lemma GoEvict(w: WorkId, o: Owner, evict: bool, gen: nat, waiting: set<MarkerId>, fl: Flow,
                markers: map<MarkerId, Pc>, works: map<WorkId, WorkPc>, seen: map<MarkerId, nat>)
    requires Reachable(Lone(fl, o, markers, works[w := Grace(0, evict, gen, waiting)], seen))
    requires waiting !! markers.Keys && Evictable(fl) && fl.rflow < 0 && !o.Agent? && !o.Deletion?
    ensures Reachable(Lone(fl.(candidate := false, evicted := true), Leaving(w), markers,
                           works[w := Leave(0, -1)], seen))
  {
    ReachStep(Lone(fl, o, markers, works[w := Grace(0, evict, gen, waiting)], seen), EvictSelf(w),
              Lone(fl.(candidate := false, evicted := true), Leaving(w), markers, works[w := Leave(0, -1)], seen));
  }

  lemma GoDrop(w: WorkId, fl: Flow, markers: map<MarkerId, Pc>, works: map<WorkId, WorkPc>, seen: map<MarkerId, nat>)
    requires Reachable(Lone(fl, Leaving(w), markers, works[w := Leave(0, -1)], seen))
    ensures Reachable(Lone(Released(fl), Nobody, markers, works[w := PeerLeft(-1)], seen))
  {
    ReachStep(Lone(fl, Leaving(w), markers, works[w := Leave(0, -1)], seen), DropSelf(w),
              Lone(Released(fl), Nobody, markers, works[w := PeerLeft(-1)], seen));
  }

  // ----- a flow put on hold under a marker

  /** The first flow of the entry, set by the agent with a work that has deferral data, or without. */
  lemma LiveReached(agent: bool)
    ensures Reachable(Lone(LiveFlow(1), Nobody, map[], if agent then map[5 := Queued(0, false, 1)] else map[], map[]))
  {
    ReachStart(Lone(Blank(0), Nobody, map[], map[], map[]));
    GoAlloc(Blank(0), map[], map[], map[]);
    GoClear(HeldFlow(1), map[], map[], map[]);
    GoAgentTake(HeldFlow(1).(isNew := false), map[], map[], map[]);
    GoAgentSet(false, HeldFlow(1).(isNew := false, modified := true), map[], map[], map[]);
    if agent {
      GoAgentWork(5, LiveFlow(1).(modified := true), map[], map[], map[]);
      GoAgentStop(LiveFlow(1).(modified := true), map[], map[5 := Queued(0, false, 1)], map[]);
    } else {
      GoAgentStop(LiveFlow(1).(modified := true), map[], map[], map[]);
    }
  }

  lemma LookingReached(agent: bool)
    ensures Reachable(Lone(DeadFlow(1), Nobody, map[7 := Looked(0)],
                           if agent then map[5 := Grace(0, false, 1, {})] else map[], map[7 := 1]))
  {
    LiveReached(agent);
    var none: map<MarkerId, Pc> := map[];
    assert none.Keys == {};
    if agent { GoRegister(5, Nobody, false, 1, LiveFlow(1), none, map[], map[]); }
    var works := if agent then map[5 := Grace(0, false, 1, {})] else map[];
    GoDead(LiveFlow(1), map[], works, map[]);
    GoLook(7, Nobody, DeadFlow(1), map[], works, map[]);
  }

  /** The agent turns a dead flow to HOLD after a marker has looked at it: the held flow becomes a candidate. */
  lemma HeldFlowMarked()
    ensures exists t :: Reachable(t) && 0 in t.flows && t.flows[0].candidate && t.flows[0].hold
  {
    LookingReached(false);
    var seen := map[7 := 1];
    var h := DeadFlow(1).(hold := true);
    GoAgentTake(DeadFlow(1), map[7 := Looked(0)], map[], seen);
    GoAgentSet(true, DeadFlow(1).(modified := true), map[7 := Looked(0)], map[], seen);
    GoAgentStop(h.(modified := true), map[7 := Looked(0)], map[], seen);
    MarkAlone(h, map[], seen);
    var t := Lone(h.(modified := true, candidate := true), Marker(7), map[7 := Marked(0, -1)], map[], seen);
    assert Reachable(t) && t.flows[0].candidate && t.flows[0].hold;
  }

  /** Marker 7, having looked at a flow without a reverse flow, marks it. */
  lemma MarkAlone(fl: Flow, works: map<WorkId, WorkPc>, seen: map<MarkerId, nat>)
    requires Reachable(Lone(fl, Nobody, map[7 := Looked(0)], works, seen))
    requires Takeable(fl) && fl.rflow < 0 && fl.active && !fl.candidate
    ensures Reachable(Lone(fl.(modified := true, candidate := true), Marker(7), map[7 := Marked(0, -1)], works, seen))
  {
    GoTake(7, fl, map[], works, seen);
    GoFindPeer(7, fl.(modified := true), map[], works, seen);
    GoMarkSelf(7, fl.(modified := true), map[], works, seen);
  }

  // ----- a delete that resets the entry under a marker

  /** The marker takes the bit of a flow it never looked up. */
  lemma ResetUnderMarker()
    ensures exists t :: Reachable(t) && 0 in t.owner && t.owner[0] == Marker(7) && 7 in t.seen && 0 in t.flows
                        && t.flows[0].gen != t.seen[7]
  {
    LookingReached(false);
    var look, seen, d := map[7 := Looked(0)], map[7 := 1], DeadFlow(1).(modified := true);
    GoAgentTake(DeadFlow(1), look, map[], seen);
    GoAgentDelete(d, look, map[], seen);
    GoReset(d.(deleteMarked := true), look, map[], seen);
    GoAlloc(Blank(1), look, map[], seen);
    GoClear(HeldFlow(2), look, map[], seen);
    GoTake(7, HeldFlow(2).(isNew := false), map[], map[], seen);
    var t := Lone(HeldFlow(2).(isNew := false, modified := true), Marker(7), map[7 := Own(0)], map[], seen);
    assert Reachable(t) && t.owner[0] == Marker(7);
  }

  // ----- the callback of an agent set evicts under a marker

  /** The entry after its eviction, and after its release. */
  function Gone(released: bool): Flow
  {
    var e := DeadFlow(1).(modified := true, evicted := true);
    if released then Released(e) else e
  }

  /** A marker has marked the flow and has not scheduled its work; the work of an agent set is past its grace period. */
  function Exposed(): State
  {
    Lone(DeadFlow(1).(modified := true, candidate := true), Marker(7), map[7 := Marked(0, -1)],
         map[5 := Grace(0, false, 1, {})], map[7 := 1])
  }

  lemma ExposedReached()
    ensures Reachable(Exposed()) && Enabled(Exposed(), EvictSelf(5)) && !EvictSafe(Exposed(), 0)
  {
    LookingReached(true);
    MarkAlone(DeadFlow(1), map[5 := Grace(0, false, 1, {})], map[7 := 1]);
    assert Grips(Exposed().markers[7], 0);
  }

  lemma ReusedUnderMarker()
    ensures Reachable(Lone(HeldFlow(2).(isNew := false, modified := true), Agent, map[7 := Marked(0, -1)],
                           map[5 := PeerLeft(-1)], map[7 := 1]))
  {
    ExposedReached();
    var marked, works, seen := map[7 := Marked(0, -1)], map[5 := PeerLeft(-1)], map[7 := 1];
    GoEvict(5, Marker(7), false, 1, {}, DeadFlow(1).(modified := true, candidate := true), marked, map[], seen);
    GoDrop(5, Gone(false), marked, map[], seen);
    GoAlloc(Gone(true), marked, works, seen);
    GoClear(HeldFlow(2), marked, works, seen);
    GoAgentTake(HeldFlow(2).(isNew := false), marked, works, seen);
  }

  /**
   * The callback of an agent set evicts a marker's candidate. The entry gets a new flow, and when the marker
   * fails to schedule its work it clears the MODIFIED bit the agent has set of that flow meanwhile.
   */
  lemma AgentLosesItsBit()
    ensures exists t :: Reachable(t) && 0 in t.flows && t.agent == Holding(0) && !t.flows[0].modified
  {
    ReusedUnderMarker();
    var n := HeldFlow(2).(isNew := false, modified := true);
    var works, seen := map[5 := PeerLeft(-1)], map[7 := 1];
    GoFail(7, Agent, n, map[], works, seen);
    var t := Lone(n.(modified := false), Nobody, map[], works, seen).(agent := Holding(0));
    ReachStep(Lone(n, Agent, map[7 := Undo(0, -1)], works, seen), ReleaseSelf(7), t);
    assert Reachable(t) && t.agent == Holding(0) && !t.flows[0].modified;
  }

  // ----- a lookup between eviction and release

  lemma WindowOpen()
    ensures Reachable(Lone(Gone(false), Leaving(5), map[], map[5 := Leave(0, -1)], map[7 := 1]))
  {
    LookingReached(false);
    var d, seen := DeadFlow(1).(modified := true, candidate := true), map[7 := 1];
    MarkAlone(DeadFlow(1), map[], seen);
    GoSchedule(7, 5, d, map[], map[], seen);
    var none: map<MarkerId, Pc> := map[];
    assert none.Keys == {};
    GoRegister(5, Doomed, true, 1, d, none, map[], seen);
    GoEvict(5, Doomed, true, 1, {}, d, map[], map[], seen);
  }

  /**
   * The grace period is over before the eviction: a packet that finds the flow after it, and before the entry
   * is released, leads to a marker that takes the bit of the next flow in the entry.
   */
  lemma LookInWindow()
    ensures exists t :: Reachable(t) && 0 in t.owner && t.owner[0] == Marker(8) && 8 in t.seen && 0 in t.flows
                        && t.flows[0].gen != t.seen[8]
  {
    WindowOpen();
    var look, works, seen := map[8 := Looked(0)], map[5 := PeerLeft(-1)], map[7 := 1, 8 := 1];
    GoLook(8, Leaving(5), Gone(false), map[], map[5 := Leave(0, -1)], map[7 := 1]);
    GoDrop(5, Gone(false), look, map[], seen);
    GoAlloc(Gone(true), look, works, seen);
    GoClear(HeldFlow(2), look, works, seen);
    GoTake(8, HeldFlow(2).(isNew := false), map[], works, seen);
    var t := Lone(HeldFlow(2).(isNew := false, modified := true), Marker(8), map[8 := Own(0)], works, seen);
    assert Reachable(t) && t.owner[0] == Marker(8);
  }

  // ----- two flows of one connection

  /** Two entries; work 5 of an agent set of entry 1 has found entry 0 as its reverse. */
  function Two(a: Flow, oa: Owner, b: Flow, ob: Owner, markers: map<MarkerId, Pc>, works: map<WorkId, WorkPc>,
               seen: map<MarkerId, nat>): State
  {
    State(map[0 := a, 1 := b], map[0 := oa, 1 := ob], markers, works,
          if oa.Agent? then Holding(0) else if ob.Agent? then Holding(1) else Idle, {}, seen)
  }

  function Forward(gen: nat): Flow
  {
    LiveFlow(gen).(rflow := 1)
  }

  function Backward(gen: nat): Flow
  {
    LiveFlow(gen).(rflow := 0)
  }

  /** The two flows are made and set by the agent, the second with a work that has deferral data; then both die. */
  function PairAt(k: nat): State
    requires k <= 16
  {
    var h, n := HeldFlow(1), HeldFlow(1).(isNew := false);
    var f, g := Forward(1), Backward(1);
    var w0, w1, w2 := map[5 := Queued(1, false, 1)], map[5 := Grace(1, false, 1, {})], map[5 := PeerLeft(0)];
    if k == 0 then Two(Blank(0), Nobody, Blank(0), Nobody, map[], map[], map[])
    else if k == 1 then Two(h, Nobody, Blank(0), Nobody, map[], map[], map[])
    else if k == 2 then Two(h, Nobody, h, Nobody, map[], map[], map[])
    else if k == 3 then Two(n, Nobody, h, Nobody, map[], map[], map[])
    else if k == 4 then Two(n, Nobody, n, Nobody, map[], map[], map[])
    else if k == 5 then Two(n.(modified := true), Agent, n, Nobody, map[], map[], map[])
    else if k == 6 then Two(f.(modified := true), Agent, n, Nobody, map[], map[], map[])
    else if k == 7 then Two(f, Nobody, n, Nobody, map[], map[], map[])
    else if k == 8 then Two(f, Nobody, n.(modified := true), Agent, map[], map[], map[])
    else if k == 9 then Two(f, Nobody, g.(modified := true), Agent, map[], map[], map[])
    else if k == 10 then Two(f, Nobody, g.(modified := true), Agent, map[], w0, map[])
    else if k == 11 then Two(f, Nobody, g, Nobody, map[], w0, map[])
    else if k == 12 then Two(f, Nobody, g, Nobody, map[], w1, map[])
    else if k == 13 then Two(f, Nobody, g, Nobody, map[], w2, map[])
    else if k == 14 then Two(f.(dead := true), Nobody, g, Nobody, map[], w2, map[])
    else if k == 15 then Two(f.(dead := true), Nobody, g.(dead := true), Nobody, map[], w2, map[])
    else Two(f.(dead := true), Nobody, g.(dead := true), Nobody, map[7 := Looked(0)], w2, map[7 := 1])
  }

  function PairStep(k: nat): Step
  {
    match k
    case 0 => Alloc(0)
    case 1 => Alloc(1)
    case 2 => ClearNew(0)
    case 3 => ClearNew(1)
    case 4 => AgentTake(0)
    case 5 => AgentSet(false, 1)
    case 6 => AgentStop
    case 7 => AgentTake(1)
    case 8 => AgentSet(false, 0)
    case 9 => AgentWork(5)
    case 10 => AgentStop
    case 11 => Register(5)
    case 12 => EvictSelf(5)
    case 13 => SetDead(0)
    case 14 => SetDead(1)
    case _ => Look(7, 0)
  }

  lemma PairMade(k: nat)
    requires k < 4
    ensures Takes(PairAt(k), PairStep(k), PairAt(k + 1))
  {
    assert Next(PairAt(k), PairStep(k)).flows == PairAt(k + 1).flows;
  }

  lemma PairSet(k: nat)
    requires 4 <= k < 7
    ensures Takes(PairAt(k), PairStep(k), PairAt(k + 1))
  {
    assert Next(PairAt(k), PairStep(k)).flows == PairAt(k + 1).flows;
    assert Next(PairAt(k), PairStep(k)).owner == PairAt(k + 1).owner;
  }

  lemma PairSetBack(k: nat)
    requires 7 <= k < 9
    ensures Takes(PairAt(k), PairStep(k), PairAt(k + 1))
  {
    assert Next(PairAt(k), PairStep(k)).flows == PairAt(k + 1).flows;
    assert Next(PairAt(k), PairStep(k)).owner == PairAt(k + 1).owner;
  }

  lemma PairScheduled(k: nat)
    requires 9 <= k < 11
    ensures Takes(PairAt(k), PairStep(k), PairAt(k + 1))
  {
    assert Next(PairAt(k), PairStep(k)).flows == PairAt(k + 1).flows;
    assert Next(PairAt(k), PairStep(k)).owner == PairAt(k + 1).owner;
    assert Next(PairAt(k), PairStep(k)).works == PairAt(k + 1).works;
  }

  lemma PairCallback(k: nat)
    requires 11 <= k < 13
    ensures Takes(PairAt(k), PairStep(k), PairAt(k + 1))
  {
    assert PairAt(k).markers.Keys == {};
    assert Next(PairAt(k), PairStep(k)).works == PairAt(k + 1).works;
  }

  lemma PairDies(k: nat)
    requires 13 <= k < 15
    ensures Takes(PairAt(k), PairStep(k), PairAt(k + 1))
  {
    assert Next(PairAt(k), PairStep(k)).flows == PairAt(k + 1).flows;
  }

  lemma PairLooks()
    ensures Takes(PairAt(15), Look(7, 0), PairAt(16))
  {
    assert Next(PairAt(15), Look(7, 0)).seen == PairAt(16).seen;
  }

  lemma {:induction false} PairReached(k: nat)
    requires k <= 16
    ensures Reachable(PairAt(k))
  {
    if k == 0 {
      ReachStart(PairAt(0));
    } else {
      PairReached(k - 1);
      if k <= 4 {
        PairMade(k - 1);
      } else if k <= 7 {
        PairSet(k - 1);
      } else if k <= 9 {
        PairSetBack(k - 1);
      } else if k <= 11 {
        PairScheduled(k - 1);
      } else if k <= 13 {
        PairCallback(k - 1);
      } else if k <= 15 {
        PairDies(k - 1);
      } else {
        PairLooks();
      }
      ReachStep(PairAt(k - 1), PairStep(k - 1), PairAt(k));
    }
  }

  /** Marker 7 takes both entries, marks both and schedules work 6, which registers its callback. */
  function MarkAt(k: nat): State
    requires k <= 7
  {
    var f, g := Forward(1).(dead := true, modified := true), Backward(1).(dead := true, modified := true);
    var c, d := f.(candidate := true), g.(candidate := true);
    var w, seen := map[5 := PeerLeft(0)], map[7 := 1];
    if k == 0 then PairAt(16)
    else if k == 1 then Two(f, Marker(7), Backward(1).(dead := true), Nobody, map[7 := Own(0)], w, seen)
    else if k == 2 then Two(f, Marker(7), Backward(1).(dead := true), Nobody, map[7 := Peer(0, 1)], w, seen)
    else if k == 3 then Two(f, Marker(7), g, Marker(7), map[7 := Both(0, 1)], w, seen)
    else if k == 4 then Two(f, Marker(7), d, Marker(7), map[7 := Ready(0, 1)], w, seen)
    else if k == 5 then Two(c, Marker(7), d, Marker(7), map[7 := Marked(0, 1)], w, seen)
    else if k == 6 then Two(c, Doomed, d, Doomed, map[], w[6 := Queued(0, true, 1)], seen)
    else Two(c, Doomed, d, Doomed, map[], w[6 := Grace(0, true, 1, {})], seen)
  }

  function MarkStep(k: nat): Step
  {
    match k
    case 0 => Take(7)
    case 1 => FindPeer(7)
    case 2 => TakePeer(7)
    case 3 => MarkPeer(7)
    case 4 => MarkSelf(7)
    case 5 => Schedule(7, 6)
    case _ => Register(6)
  }

  lemma TakesFirst(a: Flow, b: Flow, works: map<WorkId, WorkPc>, seen: map<MarkerId, nat>)
    requires Takeable(a)
    ensures Takes(Two(a, Nobody, b, Nobody, map[7 := Looked(0)], works, seen), Take(7),
                  Two(a.(modified := true), Marker(7), b, Nobody, map[7 := Own(0)], works, seen))
  {
    var s := Two(a, Nobody, b, Nobody, map[7 := Looked(0)], works, seen);
    var u := SetPc(SetFlow(s, 0, a.(modified := true), Marker(7)), 7, Own(0));
    assert Takes(s, Take(7), u);
    TwoFirst(a, Nobody, b, Nobody, map[7 := Looked(0)], works, seen, a.(modified := true), Marker(7), 7, Own(0));
  }

  lemma TwoFirst(a: Flow, oa: Owner, b: Flow, ob: Owner, markers: map<MarkerId, Pc>, works: map<WorkId, WorkPc>,
                 seen: map<MarkerId, nat>, a': Flow, oa': Owner, m: MarkerId, pc: Pc)
    requires !oa.Agent? && !oa'.Agent?
    ensures SetPc(SetFlow(Two(a, oa, b, ob, markers, works, seen), 0, a', oa'), m, pc)
         == Two(a', oa', b, ob, markers[m := pc], works, seen)
  {
    assert map[0 := a, 1 := b][0 := a'] == map[0 := a', 1 := b];
    assert map[0 := oa, 1 := ob][0 := oa'] == map[0 := oa', 1 := ob];
  }

  lemma MarkTakesOwn()
    ensures Takes(MarkAt(0), Take(7), MarkAt(1))
  {
    TakesFirst(Forward(1).(dead := true), Backward(1).(dead := true), map[5 := PeerLeft(0)], map[7 := 1]);
  }

  lemma MarkTakesPeer()
    ensures Takes(MarkAt(2), TakePeer(7), MarkAt(3))
  {
    var u := Next(MarkAt(2), TakePeer(7));
    assert u.flows == MarkAt(3).flows;
    assert u.owner == MarkAt(3).owner;
    assert u.markers == MarkAt(3).markers;
  }

  lemma MarkFinds()
    ensures Takes(MarkAt(1), FindPeer(7), MarkAt(2))
  {
    assert Next(MarkAt(1), FindPeer(7)).markers == MarkAt(2).markers;
  }

  lemma MarkMarksPeer()
    ensures Takes(MarkAt(3), MarkStep(3), MarkAt(4))
  {
    assert Next(MarkAt(3), MarkStep(3)).flows == MarkAt(4).flows;
    assert Next(MarkAt(3), MarkStep(3)).markers == MarkAt(4).markers;
  }

  lemma MarkMarksSelf()
    ensures Takes(MarkAt(4), MarkStep(4), MarkAt(5))
  {
    assert Next(MarkAt(4), MarkStep(4)).flows == MarkAt(5).flows;
    assert Next(MarkAt(4), MarkStep(4)).markers == MarkAt(5).markers;
  }

  lemma MarkHands()
    ensures Takes(MarkAt(5), MarkStep(5), MarkAt(6))
  {
    assert MarkAt(6).markers.Keys == {};
    assert Next(MarkAt(5), MarkStep(5)).owner == MarkAt(6).owner;
    assert Next(MarkAt(5), MarkStep(5)).markers == MarkAt(6).markers;
    assert Next(MarkAt(5), MarkStep(5)).works == MarkAt(6).works;
  }

  lemma MarkGraced()
    ensures Takes(MarkAt(6), MarkStep(6), MarkAt(7))
  {
    assert MarkAt(6).markers.Keys == {};
    assert Next(MarkAt(6), MarkStep(6)).owner == MarkAt(7).owner;
    assert Next(MarkAt(6), MarkStep(6)).markers == MarkAt(7).markers;
    assert Next(MarkAt(6), MarkStep(6)).works == MarkAt(7).works;
  }

  lemma {:induction false} MarkReached(k: nat)
    requires k <= 7
    ensures Reachable(MarkAt(k))
  {
    if k == 0 {
      PairReached(16);
    } else {
      MarkReached(k - 1);
      if k == 1 {
        MarkTakesOwn();
      } else if k == 2 {
        MarkFinds();
      } else if k == 3 {
        MarkTakesPeer();
      } else if k == 4 {
        MarkMarksPeer();
      } else if k == 5 {
        MarkMarksSelf();
      } else if k == 6 {
        MarkHands();
      } else {
        MarkGraced();
      }
      ReachStep(MarkAt(k - 1), MarkStep(k - 1), MarkAt(k));
    }
  }

  /** A callback evicts the candidate its reverse index names by then, under the marker that has marked it. */
  lemma CallbackTakesCandidate()
    ensures Reachable(MarkAt(5)) && Enabled(MarkAt(5), EvictPeer(5)) && !EvictSafe(MarkAt(5), 0)
    ensures var u := Next(MarkAt(5), EvictPeer(5));
            u.markers == map[7 := Marked(0, 1)] && u.flows[0].evicted && !u.flows[0].candidate
  {
    MarkReached(5);
    assert Grips(MarkAt(5).markers[7], 0);
  }

  // ----- a doomed entry that is forgotten

  /** Work 5 evicts and releases entry 0; work 6 finds neither that nor, through it, entry 1. */
  function LostAt(k: nat): State
    requires k <= 4
  {
    var e := Forward(1).(dead := true, modified := true, evicted := true);
    var d := Backward(1).(dead := true, modified := true, candidate := true);
    var seen := map[7 := 1];
    if k == 0 then MarkAt(7)
    else if k == 1 then Two(e, Leaving(5), d, Doomed, map[], map[5 := LeavePeer(0), 6 := Grace(0, true, 1, {})], seen)
    else if k == 2 then Two(Released(e), Nobody, d, Doomed, map[], map[6 := Grace(0, true, 1, {})], seen)
    else if k == 3 then Two(Released(e), Nobody, d, Doomed, map[], map[6 := PeerLeft(-1)], seen)
    else Two(Released(e), Nobody, d, Doomed, map[], map[], seen)
  }

  function LostStep(k: nat): Step
  {
    match k
    case 0 => EvictPeer(5)
    case 1 => DropPeer(5)
    case 2 => EvictSelf(6)
    case _ => EvictPeer(6)
  }

  lemma LostEvicts()
    ensures Takes(LostAt(0), EvictPeer(5), LostAt(1))
  {
    var u := Next(MarkAt(7), EvictPeer(5));
    assert u.flows == LostAt(1).flows;
    assert u.owner == LostAt(1).owner;
    assert u.works == LostAt(1).works;
  }

  lemma LostReleases()
    ensures Takes(LostAt(1), DropPeer(5), LostAt(2))
  {
    var u := Next(LostAt(1), DropPeer(5));
    assert u.flows == LostAt(2).flows;
    assert u.owner == LostAt(2).owner;
    assert u.works == LostAt(2).works;
  }

  lemma LostEnds(k: nat)
    requires 2 <= k < 4
    ensures Takes(LostAt(k), LostStep(k), LostAt(k + 1))
  {
    assert Next(LostAt(k), LostStep(k)).works == LostAt(k + 1).works;
  }

  lemma {:induction false} LostReached(k: nat)
    requires k <= 4
    ensures Reachable(LostAt(k))
  {
    if k == 0 {
      MarkReached(7);
    } else {
      LostReached(k - 1);
      if k == 1 {
        LostEvicts();
      } else if k == 2 {
        LostReleases();
      } else {
        LostEnds(k - 1);
      }
      ReachStep(LostAt(k - 1), LostStep(k - 1), LostAt(k));
    }
  }

  /**
   * Two callbacks that come to one entry: the second no longer finds the reverse entry, which keeps its
   * MODIFIED bit although no marker, work, agent or delete is left to drop it.
   */
  lemma BitLeftBehind()
    ensures exists t :: Reachable(t) && 1 in t.flows && t.flows[1].modified && t.flows[1].candidate
                        && t.markers == map[] && t.works == map[] && t.agent == Idle && t.deletes == {}
  {
    LostReached(4);
    var t := LostAt(4);
    assert Reachable(t) && t.flows[1].modified;
  }
}
