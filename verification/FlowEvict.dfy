/**
 * Eviction of dead flows against the agent: who may work on a flow entry is decided by its MODIFIED
 * bit alone. Datapath markers, works scheduled by markers and by the agent, their deferred callbacks,
 * the agent and pending deletes take and drop that bit in any interleaving; every compare-and-swap,
 * fetch-and-or and fetch-and-and is one step.
 */
module FlowEvict {

  type Index = nat
  type MarkerId = nat
  type WorkId = nat

  datatype Flow = Flow(
    active: bool, modified: bool, evicted: bool, isNew: bool, candidate: bool, deleteMarked: bool,
    valid: bool,       // the hash table entry is in use
    hold: bool, dead: bool,
    rflow: int,        // index of the reverse flow, or negative
    gen: nat)          // counts the flows the entry has held

  /** Who the MODIFIED bit of an entry is set for. */
  datatype Owner =
    | Nobody
    | Marker(m: MarkerId)
    | Doomed                         // marked and scheduled; a callback is to evict it
    | Leaving(w: WorkId)             // evicted by a callback that is to release the entry
    | Agent
    | Deletion

  /** Where a marker is. `peer` is the reverse entry whose bit it has set, or negative. */
  datatype Pc =
    | Looked(f: Index)               // found the flow and saw it dead
    | Own(f: Index)
    | Peer(f: Index, r: Index)       // has a dead reverse entry it does not own yet
    | Both(f: Index, r: Index)
    | Ready(f: Index, peer: int)     // is to mark the forward flow
    | Marked(f: Index, peer: int)    // has marked it, is to schedule the work
    | Undo(f: Index, peer: int)      // scheduling failed
    | Stop(f: Index, peer: int)      // gives up

  /**
   * Where a work with deferral data is. `evict` tells the works of markers from those of agent sets, and
   * `gen` which flow the work was scheduled for; the callback looks at neither.
   */
  datatype WorkPc =
    | Queued(f: Index, evict: bool, gen: nat)
    | Grace(f: Index, evict: bool, gen: nat, waiting: set<MarkerId>)
    | Leave(f: Index, r: int)        // has evicted the forward entry; the reverse entry it found
    | PeerLeft(r: int)               // done with the forward entry
    | LeavePeer(f: Index)            // has evicted the reverse entry

  datatype AgentPc = Idle | Holding(f: Index)

  datatype State = State(
    flows: map<Index, Flow>,
    owner: map<Index, Owner>,
    markers: map<MarkerId, Pc>,
    works: map<WorkId, WorkPc>,
    agent: AgentPc,
    deletes: set<Index>,
    seen: map<MarkerId, nat>)   // the generation a marker saw when it looked the flow up

  datatype Step =
    | Alloc(f: Index)
    | ClearNew(f: Index)
    | SetDead(f: Index)
    | Look(m: MarkerId, f: Index)
    | Take(m: MarkerId)
    | FindPeer(m: MarkerId)
    | TakePeer(m: MarkerId)
    | MarkPeer(m: MarkerId)
    | MarkSelf(m: MarkerId)
    | Schedule(m: MarkerId, w: WorkId)
    | ScheduleFails(m: MarkerId)
    | ReleasePeer(m: MarkerId)
    | ReleaseSelf(m: MarkerId)
    | Register(w: WorkId)
    | EvictSelf(w: WorkId)
    | DropSelf(w: WorkId)
    | EvictPeer(w: WorkId)
    | DropPeer(w: WorkId)
    | AgentTake(f: Index)
    | AgentSet(hold: bool, rflow: int)
    | AgentWork(w: WorkId)
    | AgentStop
    | AgentDelete
    | Reset(f: Index)

  /** The bit can be taken: the flow is not being modified, evicted or brand new. */
  predicate Takeable(fl: Flow)
  {
    !fl.modified && !fl.evicted && !fl.isNew
  }

  /** A callback evicts the entry if it finds it like this. */
  predicate Evictable(fl: Flow)
  {
    fl.active && fl.candidate
  }

  predicate IsFlow(s: State, i: int)
  {
    i >= 0 && i in s.flows && i in s.owner
  }

  predicate HasPeer(pc: Pc)
  {
    pc.Ready? || pc.Marked? || pc.Undo? || pc.Stop?
  }

  predicate At(s: State, m: MarkerId)
  {
    && m in s.markers && IsFlow(s, s.markers[m].f)
    && (s.markers[m].Peer? || s.markers[m].Both? ==> IsFlow(s, s.markers[m].r))
    && (HasPeer(s.markers[m]) && s.markers[m].peer >= 0 ==> IsFlow(s, s.markers[m].peer))
  }

  predicate WorkAt(s: State, w: WorkId)
  {
    w in s.works && (!s.works[w].PeerLeft? ==> IsFlow(s, s.works[w].f))
  }

  predicate Enabled(s: State, step: Step)
  {
    match step
    case Alloc(f) => IsFlow(s, f) && !s.flows[f].valid
    case ClearNew(f) => IsFlow(s, f)
    case SetDead(f) => IsFlow(s, f)
    case Look(m, f) =>
      && m !in s.markers && IsFlow(s, f) && s.flows[f].valid && s.flows[f].active
      && !s.flows[f].deleteMarked && !s.flows[f].candidate && s.flows[f].dead
    case Take(m) => At(s, m) && s.markers[m].Looked?
    case FindPeer(m) => At(s, m) && s.markers[m].Own?
    case TakePeer(m) => At(s, m) && s.markers[m].Peer?
    case MarkPeer(m) => At(s, m) && s.markers[m].Both?
    case MarkSelf(m) => At(s, m) && s.markers[m].Ready?
    case Schedule(m, w) => At(s, m) && s.markers[m].Marked? && w !in s.works
    case ScheduleFails(m) => At(s, m) && s.markers[m].Marked?
    case ReleasePeer(m) => At(s, m) && (s.markers[m].Undo? || s.markers[m].Stop?) && s.markers[m].peer >= 0
    case ReleaseSelf(m) => At(s, m) && (s.markers[m].Undo? || s.markers[m].Stop?) && s.markers[m].peer < 0
    case Register(w) => WorkAt(s, w) && s.works[w].Queued?
    case EvictSelf(w) => WorkAt(s, w) && s.works[w].Grace? && s.works[w].waiting !! s.markers.Keys
    case DropSelf(w) => WorkAt(s, w) && s.works[w].Leave?
    case EvictPeer(w) => WorkAt(s, w) && s.works[w].PeerLeft?
    case DropPeer(w) => WorkAt(s, w) && s.works[w].LeavePeer?
    case AgentTake(f) => s.agent.Idle? && IsFlow(s, f) && s.flows[f].valid
    case AgentSet(_, _) => s.agent.Holding? && IsFlow(s, s.agent.f)
    case AgentWork(w) => s.agent.Holding? && IsFlow(s, s.agent.f) && w !in s.works
    case AgentStop => s.agent.Holding? && IsFlow(s, s.agent.f)
    case AgentDelete => s.agent.Holding? && IsFlow(s, s.agent.f)
    case Reset(f) => IsFlow(s, f) && f in s.deletes
  }

  // ----- effects

  function SetFlow(s: State, f: Index, fl: Flow, o: Owner): State
  {
    s.(flows := s.flows[f := fl], owner := s.owner[f := o])
  }

  function SetPc(s: State, m: MarkerId, pc: Pc): State
  {
    s.(markers := s.markers[m := pc])
  }

  function SetWork(s: State, w: WorkId, pc: WorkPc): State
  {
    s.(works := s.works[w := pc])
  }

  function Blank(gen: nat): Flow
  {
    Flow(false, false, false, false, false, false, false, false, false, -1, gen)
  }

  /** A new flow in a free entry; an evicted entry keeps being active. */
  function Fresh(fl: Flow): Flow
  {
    if !fl.active then Flow(true, false, false, true, false, false, true, true, false, -1, fl.gen + 1)
    else if fl.evicted then
      fl.(evicted := false, isNew := true, valid := true, hold := true, dead := false, gen := fl.gen + 1)
    else fl.(valid := true, hold := true, gen := fl.gen + 1)
  }

  /** The callback has won the entry: the candidate bit becomes the evicted bit. */
  function Won(s: State, f: Index, w: WorkId): State
    requires IsFlow(s, f)
  {
    SetFlow(s, f, s.flows[f].(candidate := false, evicted := true), Leaving(w))
  }

  /** The entry is given back to the hash table. */
  function Released(fl: Flow): Flow
  {
    fl.(modified := false, valid := false, rflow := -1, hold := false, dead := false)
  }

  /** Clears the candidate and MODIFIED bits, or after giving up just the latter. */
  function Dropped(fl: Flow, undo: bool): Flow
  {
    if undo then fl.(candidate := false, modified := false) else fl.(modified := false)
  }

  predicate PeerEligible(s: State, f: Index, r: Index)
    requires IsFlow(s, r)
  {
    (s.flows[r].rflow == f || s.flows[r].rflow < 0) && !s.flows[r].hold
  }

  /** The reverse entry a callback finds. */
  function Reverse(s: State, f: Index): int
    requires f in s.flows
  {
    var r := s.flows[f].rflow;
    if IsFlow(s, r) && s.flows[r].valid then r else -1
  }

  function Next(s: State, step: Step): State
    requires Enabled(s, step)
  {
    match step
    case Alloc(f) => s.(flows := s.flows[f := Fresh(s.flows[f])])
    case ClearNew(f) => s.(flows := s.flows[f := s.flows[f].(isNew := false)])
    case SetDead(f) => s.(flows := s.flows[f := s.flows[f].(dead := true)])
    case Look(m, f) => SetPc(s, m, Looked(f)).(seen := s.seen[m := s.flows[f].gen])
    case Take(m) =>
      var f := s.markers[m].f;
      if Takeable(s.flows[f]) then SetPc(SetFlow(s, f, s.flows[f].(modified := true), Marker(m)), m, Own(f))
      else s.(markers := s.markers - {m})
    case FindPeer(m) =>
      var f := s.markers[m].f;
      var r := Reverse(s, f);
      SetPc(s, m, if r < 0 then Ready(f, -1) else if s.flows[r].dead then Peer(f, r) else Stop(f, -1))
    case TakePeer(m) =>
      var Peer(f, r) := s.markers[m];
      if Takeable(s.flows[r]) then SetPc(SetFlow(s, r, s.flows[r].(modified := true), Marker(m)), m, Both(f, r))
      else SetPc(s, m, Stop(f, -1))
    case MarkPeer(m) =>
      var Both(f, r) := s.markers[m];
      if PeerEligible(s, f, r) && s.flows[r].active && !s.flows[r].candidate then
        SetPc(s.(flows := s.flows[r := s.flows[r].(candidate := true)]), m, Ready(f, r))
      else SetPc(s, m, Stop(f, r))
    case MarkSelf(m) =>
      var Ready(f, peer) := s.markers[m];
      if s.flows[f].active && !s.flows[f].candidate then
        SetPc(s.(flows := s.flows[f := s.flows[f].(candidate := true)]), m, Marked(f, peer))
      else SetPc(s, m, Stop(f, peer))
    case Schedule(m, w) =>
      var Marked(f, peer) := s.markers[m];
      var o := s.owner[f := Doomed];
      s.(markers := s.markers - {m},
         owner := if peer >= 0 then o[peer := Doomed] else o,
         works := s.works[w := Queued(f, true, s.flows[f].gen)])
    case ScheduleFails(m) => SetPc(s, m, Undo(s.markers[m].f, s.markers[m].peer))
    case ReleasePeer(m) =>
      var pc := s.markers[m];
      SetPc(SetFlow(s, pc.peer, Dropped(s.flows[pc.peer], pc.Undo?), Nobody), m,
            if pc.Undo? then Undo(pc.f, -1) else Stop(pc.f, -1))
    case ReleaseSelf(m) =>
      var pc := s.markers[m];
      SetFlow(s, pc.f, Dropped(s.flows[pc.f], pc.Undo?), Nobody).(markers := s.markers - {m})
    case Register(w) =>
      SetWork(s, w, Grace(s.works[w].f, s.works[w].evict, s.works[w].gen, s.markers.Keys))
    case EvictSelf(w) =>
      var f := s.works[w].f;
      if Evictable(s.flows[f]) then SetWork(Won(s, f, w), w, Leave(f, Reverse(s, f)))
      else SetWork(s, w, PeerLeft(Reverse(s, f)))
    case DropSelf(w) =>
      var Leave(f, r) := s.works[w];
      SetWork(SetFlow(s, f, Released(s.flows[f]), Nobody), w, PeerLeft(r))
    case EvictPeer(w) =>
      var r := s.works[w].r;
      if IsFlow(s, r) && Evictable(s.flows[r]) then SetWork(Won(s, r, w), w, LeavePeer(r))
      else s.(works := s.works - {w})
    case DropPeer(w) =>
      var f := s.works[w].f;
      SetFlow(s, f, Released(s.flows[f]), Nobody).(works := s.works - {w})
    case AgentTake(f) =>
      if Takeable(s.flows[f]) then SetFlow(s, f, s.flows[f].(modified := true), Agent).(agent := Holding(f)) else s
    case AgentSet(hold, rflow) =>
      s.(flows := s.flows[s.agent.f := s.flows[s.agent.f].(hold := hold, rflow := rflow)])
    case AgentWork(w) => SetWork(s, w, Queued(s.agent.f, false, s.flows[s.agent.f].gen))
    case AgentStop => SetFlow(s, s.agent.f, s.flows[s.agent.f].(modified := false), Nobody).(agent := Idle)
    case AgentDelete =>
      SetFlow(s, s.agent.f, s.flows[s.agent.f].(deleteMarked := true, hold := false), Deletion).(
        agent := Idle, deletes := s.deletes + {s.agent.f})
    case Reset(f) => SetFlow(s, f, Blank(s.flows[f].gen), Nobody).(deletes := s.deletes - {f})
  }

  // ----- when a step is safe, told from where the markers are

  /** The entries a marker may still touch. */
  predicate Knows(pc: Pc, f: Index)
  {
    || pc.f == f
    || ((pc.Peer? || pc.Both?) && pc.r == f)
    || (HasPeer(pc) && pc.peer == f)
  }

  /** The entries a marker has set the MODIFIED bit of. */
  predicate Grips(pc: Pc, f: Index)
  {
    || (!pc.Looked? && pc.f == f)
    || (pc.Both? && pc.r == f)
    || (HasPeer(pc) && pc.peer == f)
  }

  /** Evicting an entry is safe unless a marker still has it. */
  ghost predicate EvictSafe(s: State, i: int)
  {
    IsFlow(s, i) && Evictable(s.flows[i]) ==> forall m :: m in s.markers ==> !Grips(s.markers[m], i)
  }

  /** Releasing an evicted entry is safe unless a marker has looked it up. */
  ghost predicate DropSafe(s: State, f: Index)
  {
    forall m :: m in s.markers ==> s.markers[m].f != f
  }

  /** Resetting a deleted entry is safe unless a marker knows it. */
  ghost predicate ResetSafe(s: State, f: Index)
  {
    forall m :: m in s.markers ==> !Knows(s.markers[m], f)
  }

  ghost predicate Safe(s: State, step: Step)
    requires Enabled(s, step)
  {
    match step
    case EvictSelf(w) => EvictSafe(s, s.works[w].f)
    case DropSelf(w) => DropSafe(s, s.works[w].f)
    case EvictPeer(w) => EvictSafe(s, s.works[w].r)
    case DropPeer(w) => DropSafe(s, s.works[w].f)
    case Reset(f) => ResetSafe(s, f)
    case _ => true
  }

  // ----- what every safe step keeps

  ghost predicate FlowOk(fl: Flow, o: Owner)
  {
    && (fl.modified <==> o != Nobody)
    && (o != Nobody ==> fl.valid && !fl.isNew)
    && (fl.valid <==> fl.active && (!fl.evicted || o.Leaving?))
    && (fl.candidate ==> o.Marker? || o.Doomed?)
    && (o.Doomed? ==> fl.candidate)
    && (o.Leaving? ==> fl.evicted)
  }

  predicate IsIndex(flows: map<Index, Flow>, owner: map<Index, Owner>, i: int)
  {
    i >= 0 && i in flows && i in owner
  }

  ghost predicate Owned(flows: map<Index, Flow>, owner: map<Index, Owner>, i: int, o: Owner, candidate: bool)
  {
    IsIndex(flows, owner, i) && owner[i] == o && flows[i].candidate == candidate
  }

  /** `peer`, if there is one, is the reverse entry of `f` and has the same owner. */
  ghost predicate Paired(flows: map<Index, Flow>, owner: map<Index, Owner>, f: Index, peer: int, o: Owner,
                         candidate: bool)
    requires f in flows
  {
    peer >= 0 ==> Owned(flows, owner, peer, o, candidate) && peer != f && flows[f].rflow == peer
  }

  /** The forward flow of a marker: still the one it looked up. */
  ghost predicate SameFlow(flows: map<Index, Flow>, f: Index, gen: nat)
  {
    f in flows && flows[f].valid && flows[f].gen == gen
  }

  ghost predicate MarkerOk(flows: map<Index, Flow>, owner: map<Index, Owner>, m: MarkerId, pc: Pc, gen: nat)
  {
    && SameFlow(flows, pc.f, gen) && pc.f in owner
    && match pc
       case Looked(f) => true
       case Own(f) => Owned(flows, owner, f, Marker(m), false)
       case Peer(f, r) =>
         && Owned(flows, owner, f, Marker(m), false) && flows[f].rflow == r
         && IsIndex(flows, owner, r) && flows[r].active
       case Both(f, r) =>
         Owned(flows, owner, f, Marker(m), false) && Paired(flows, owner, f, r, Marker(m), false)
       case Ready(f, peer) =>
         Owned(flows, owner, f, Marker(m), false) && Paired(flows, owner, f, peer, Marker(m), true)
       case Marked(f, peer) =>
         Owned(flows, owner, f, Marker(m), true) && Paired(flows, owner, f, peer, Marker(m), true)
       case Undo(f, peer) =>
         Owned(flows, owner, f, Marker(m), true) && Paired(flows, owner, f, peer, Marker(m), true)
       case Stop(f, peer) =>
         Owned(flows, owner, f, Marker(m), false) && Paired(flows, owner, f, peer, Marker(m), false)
  }

  /** No marker but those in `known` has `i` as its forward flow. */
  ghost predicate OnlyKnown(markers: map<MarkerId, Pc>, known: set<MarkerId>, i: int)
  {
    forall m {:trigger markers[m]} :: m in markers && markers[m].f == i ==> m in known
  }

  /** The flow an eviction work was scheduled for, if it is still there, is doomed or evicted. */
  ghost predicate Awaited(fl: Flow, o: Owner, gen: nat)
  {
    gen <= fl.gen && (fl.gen == gen ==> o.Doomed? || fl.evicted)
  }

  ghost predicate WorkOk(flows: map<Index, Flow>, owner: map<Index, Owner>, markers: map<MarkerId, Pc>,
                         w: WorkId, pc: WorkPc)
  {
    match pc
    case Queued(f, evict, gen) => IsIndex(flows, owner, f) && (evict ==> Awaited(flows[f], owner[f], gen))
    case Grace(f, evict, gen, waiting) =>
      && IsIndex(flows, owner, f)
      && (evict ==> Awaited(flows[f], owner[f], gen))
      && (evict && flows[f].gen == gen && owner[f].Doomed? ==> OnlyKnown(markers, waiting, f))
    case Leave(f, _) => IsIndex(flows, owner, f) && owner[f] == Leaving(w)
    case LeavePeer(f) => IsIndex(flows, owner, f) && owner[f] == Leaving(w)
    case PeerLeft(_) => true
  }

  /** The party an entry's bit is set for is at a point from which it drops the bit. */
  ghost predicate Held(markers: map<MarkerId, Pc>, works: map<WorkId, WorkPc>, agent: AgentPc, deletes: set<Index>,
                       i: Index, o: Owner)
  {
    match o
    case Marker(m) => m in markers && Grips(markers[m], i)
    case Leaving(w) => w in works && Leaves(works[w], i)
    case Agent => agent == Holding(i)
    case Deletion => i in deletes
    case _ => true
  }

  predicate Leaves(pc: WorkPc, i: Index)
  {
    (pc.Leave? || pc.LeavePeer?) && pc.f == i
  }

  ghost predicate Flows(s: State)
  {
    && s.flows.Keys == s.owner.Keys
    && forall f {:trigger s.flows[f]} :: f in s.flows ==> FlowOk(s.flows[f], s.owner[f])
  }

  ghost predicate Markers(s: State)
  {
    && s.markers.Keys <= s.seen.Keys
    && forall m {:trigger s.markers[m]} :: m in s.markers ==> MarkerOk(s.flows, s.owner, m, s.markers[m], s.seen[m])
  }

  ghost predicate Works(s: State)
  {
    forall w {:trigger s.works[w]} :: w in s.works ==> WorkOk(s.flows, s.owner, s.markers, w, s.works[w])
  }

  ghost predicate Outside(s: State)
  {
    && (s.agent.Holding? ==> IsFlow(s, s.agent.f) && s.owner[s.agent.f] == Agent)
    && forall f {:trigger f in s.deletes} :: f in s.deletes ==> IsFlow(s, f) && s.owner[f] == Deletion
  }

  ghost predicate AllHeld(s: State)
  {
    forall f {:trigger s.owner[f]} :: f in s.owner ==> Held(s.markers, s.works, s.agent, s.deletes, f, s.owner[f])
  }

  ghost predicate Inv(s: State)
  {
    Flows(s) && Markers(s) && Works(s) && Outside(s) && AllHeld(s)
  }

  // ----- the party behind every bit: kept by every step, safe or not

  lemma HeldTake(s: State, step: Step, f: Index)
    requires Enabled(s, step) && f in s.owner && Held(s.markers, s.works, s.agent, s.deletes, f, s.owner[f])
    requires step.Look? || step.Take? || step.TakePeer?
    ensures var u := Next(s, step); f in u.owner && Held(u.markers, u.works, u.agent, u.deletes, f, u.owner[f])
  {
  }

  lemma HeldMark(s: State, step: Step, f: Index)
    requires Enabled(s, step) && f in s.owner && Held(s.markers, s.works, s.agent, s.deletes, f, s.owner[f])
    requires step.MarkPeer? || step.MarkSelf?
    ensures var u := Next(s, step); f in u.owner && Held(u.markers, u.works, u.agent, u.deletes, f, u.owner[f])
  {
  }

  lemma HeldSetPc(s: State, m: MarkerId, pc: Pc, f: Index)
    requires m in s.markers && f in s.owner && Held(s.markers, s.works, s.agent, s.deletes, f, s.owner[f])
    requires Grips(s.markers[m], f) ==> Grips(pc, f)
    ensures var u := SetPc(s, m, pc); Held(u.markers, u.works, u.agent, u.deletes, f, u.owner[f])
  {
  }

  lemma HeldMove(s: State, step: Step, f: Index)
    requires Enabled(s, step) && f in s.owner && Held(s.markers, s.works, s.agent, s.deletes, f, s.owner[f])
    requires step.FindPeer? || step.ScheduleFails?
    ensures var u := Next(s, step); f in u.owner && Held(u.markers, u.works, u.agent, u.deletes, f, u.owner[f])
  {
    HeldSetPc(s, step.m, Next(s, step).markers[step.m], f);
  }

  lemma HeldRelease(s: State, step: Step, f: Index)
    requires Enabled(s, step) && f in s.owner && Held(s.markers, s.works, s.agent, s.deletes, f, s.owner[f])
    requires step.Schedule? || step.ReleasePeer? || step.ReleaseSelf?
    ensures var u := Next(s, step); f in u.owner && Held(u.markers, u.works, u.agent, u.deletes, f, u.owner[f])
  {
  }

  lemma HeldEvict(s: State, step: Step, f: Index)
    requires Enabled(s, step) && f in s.owner && Held(s.markers, s.works, s.agent, s.deletes, f, s.owner[f])
    requires step.EvictSelf? || step.DropSelf? || step.EvictPeer? || step.DropPeer? || step.Register?
    ensures var u := Next(s, step); f in u.owner && Held(u.markers, u.works, u.agent, u.deletes, f, u.owner[f])
  {
  }

  lemma HeldOther(s: State, step: Step, f: Index)
    requires Enabled(s, step) && f in s.owner && Held(s.markers, s.works, s.agent, s.deletes, f, s.owner[f])
    requires step.AgentTake? || step.AgentSet? || step.AgentWork? || step.AgentStop? || step.AgentDelete?
             || step.Alloc? || step.ClearNew? || step.SetDead? || step.Reset?
    ensures var u := Next(s, step); f in u.owner && Held(u.markers, u.works, u.agent, u.deletes, f, u.owner[f])
  {
  }

  lemma EachHeld(s: State, step: Step, f: Index)
    requires Enabled(s, step) && f in s.owner && Held(s.markers, s.works, s.agent, s.deletes, f, s.owner[f])
    ensures var u := Next(s, step); f in u.owner && Held(u.markers, u.works, u.agent, u.deletes, f, u.owner[f])
  {
    if step.Look? || step.Take? || step.TakePeer? {
      HeldTake(s, step, f);
    } else if step.MarkPeer? || step.MarkSelf? {
      HeldMark(s, step, f);
    } else if step.FindPeer? || step.ScheduleFails? {
      HeldMove(s, step, f);
    } else if step.Schedule? || step.ReleasePeer? || step.ReleaseSelf? {
      HeldRelease(s, step, f);
    } else if step.EvictSelf? || step.DropSelf? || step.EvictPeer? || step.DropPeer? || step.Register? {
      HeldEvict(s, step, f);
    } else {
      HeldOther(s, step, f);
    }
  }

  lemma StepHeld(s: State, step: Step)
    requires AllHeld(s) && s.flows.Keys == s.owner.Keys && Enabled(s, step)
    ensures AllHeld(Next(s, step))
  {
    var u := Next(s, step);
    StepKeys(s, step);
    forall f | f in u.owner ensures Held(u.markers, u.works, u.agent, u.deletes, f, u.owner[f]) {
      EachHeld(s, step, f);
    }
  }

  lemma StepKeys(s: State, step: Step)
    requires s.flows.Keys == s.owner.Keys && Enabled(s, step)
    ensures Next(s, step).flows.Keys == s.flows.Keys && Next(s, step).owner.Keys == s.owner.Keys
  {
    if step.Take? || step.TakePeer? || step.MarkPeer? || step.MarkSelf? {
      TakeKeys(s, step);
    } else if step.ReleasePeer? || step.ReleaseSelf? || step.Schedule? {
      ReleaseKeys(s, step);
    } else if step.EvictSelf? || step.DropSelf? || step.EvictPeer? || step.DropPeer? {
      EvictKeys(s, step);
    } else {
      OtherKeys(s, step);
    }
  }

  lemma TakeKeys(s: State, step: Step)
    requires Enabled(s, step) && (step.Take? || step.TakePeer? || step.MarkPeer? || step.MarkSelf?)
    ensures Next(s, step).flows.Keys == s.flows.Keys && Next(s, step).owner.Keys == s.owner.Keys
  {
  }

  lemma ReleaseKeys(s: State, step: Step)
    requires Enabled(s, step) && (step.ReleasePeer? || step.ReleaseSelf? || step.Schedule?)
    ensures Next(s, step).flows.Keys == s.flows.Keys && Next(s, step).owner.Keys == s.owner.Keys
  {
  }

  lemma EvictKeys(s: State, step: Step)
    requires Enabled(s, step) && (step.EvictSelf? || step.DropSelf? || step.EvictPeer? || step.DropPeer?)
    ensures Next(s, step).flows.Keys == s.flows.Keys && Next(s, step).owner.Keys == s.owner.Keys
  {
  }

  lemma OtherKeys(s: State, step: Step)
    requires Enabled(s, step)
    requires !step.Take? && !step.TakePeer? && !step.MarkPeer? && !step.MarkSelf? && !step.ReleasePeer?
             && !step.ReleaseSelf? && !step.Schedule?
             && !step.EvictSelf? && !step.DropSelf? && !step.EvictPeer? && !step.DropPeer?
    ensures Next(s, step).flows.Keys == s.flows.Keys && Next(s, step).owner.Keys == s.owner.Keys
  {
  }

  // ----- changes of one entry

  /** Only entry `f` may differ. */
  ghost predicate Untouched(s: State, u: State, f: Index)
  {
    && u.flows.Keys == s.flows.Keys && u.owner.Keys == s.owner.Keys
    && (forall i {:trigger u.flows[i]} :: i in s.flows && i != f ==> u.flows[i] == s.flows[i])
    && (forall i {:trigger u.owner[i]} :: i in s.owner && i != f ==> u.owner[i] == s.owner[i])
  }

  lemma KeepFlows(s: State, u: State, f: Index)
    requires Flows(s) && Untouched(s, u, f) && (f in s.flows ==> FlowOk(u.flows[f], u.owner[f]))
    ensures Flows(u)
  {
  }

  /** A marker that does not own the entry, and does not depend on it in other ways, is not disturbed. */
  lemma KeepMarker(s: State, u: State, f: Index, m: MarkerId)
    requires Flows(s) && Markers(s) && Untouched(s, u, f) && m in s.markers && f in s.flows && s.owner[f] != Marker(m)
    requires s.markers[m].f == f ==> u.flows[f].valid && u.flows[f].gen == s.flows[f].gen
    requires s.markers[m].Peer? && s.markers[m].r == f ==> u.flows[f].active
    ensures MarkerOk(u.flows, u.owner, m, s.markers[m], s.seen[m])
  {
    assert MarkerOk(s.flows, s.owner, m, s.markers[m], s.seen[m]);
  }

  /** No marker turns to another forward flow. */
  ghost predicate SameForwards(s: State, u: State)
  {
    forall m {:trigger u.markers[m]} :: m in u.markers ==> m in s.markers && u.markers[m].f == s.markers[m].f
  }

  /** What works expect of a change of an entry: a doomed or evicted flow stays so while it is there. */
  predicate FlowMoves(fl: Flow, o: Owner, fl': Flow, o': Owner)
  {
    && fl.gen <= fl'.gen
    && (fl.gen == fl'.gen && (o.Doomed? || fl.evicted) ==> o'.Doomed? || fl'.evicted)
    && (fl.gen == fl'.gen && o'.Doomed? ==> o.Doomed?)
  }

  lemma KeepWork(s: State, u: State, f: Index, w: WorkId)
    requires Works(s) && Untouched(s, u, f) && w in s.works && f in s.flows && f in s.owner
    requires s.owner[f] != Leaving(w) && SameForwards(s, u)
    requires FlowMoves(s.flows[f], s.owner[f], u.flows[f], u.owner[f])
    ensures WorkOk(u.flows, u.owner, u.markers, w, s.works[w])
  {
    assert WorkOk(s.flows, s.owner, s.markers, w, s.works[w]);
  }

  lemma KeepWorks(s: State, u: State, f: Index)
    requires Works(s) && Untouched(s, u, f) && f in s.flows && f in s.owner && SameForwards(s, u)
    requires !s.owner[f].Leaving? && FlowMoves(s.flows[f], s.owner[f], u.flows[f], u.owner[f]) && u.works == s.works
    ensures Works(u)
  {
    forall w | w in u.works ensures WorkOk(u.flows, u.owner, u.markers, w, u.works[w]) { KeepWork(s, u, f, w); }
  }

  lemma KeepMarkers(s: State, u: State, f: Index)
    requires Flows(s) && Markers(s) && Untouched(s, u, f) && f in s.flows && !s.owner[f].Marker?
    requires s.flows[f].valid ==> u.flows[f].valid && u.flows[f].gen == s.flows[f].gen
    requires s.flows[f].active ==> u.flows[f].active
    requires u.markers == s.markers && u.seen == s.seen
    ensures Markers(u)
  {
    forall m | m in u.markers ensures MarkerOk(u.flows, u.owner, m, u.markers[m], u.seen[m]) {
      assert MarkerOk(s.flows, s.owner, m, s.markers[m], s.seen[m]);
      KeepMarker(s, u, f, m);
    }
  }

  // ----- steps outside the protocol

  lemma AllocInv(s: State, f: Index)
    requires Inv(s) && Enabled(s, Alloc(f))
    ensures Inv(Next(s, Alloc(f)))
  {
    var u := Next(s, Alloc(f));
    assert FlowOk(s.flows[f], s.owner[f]);
    StepHeld(s, Alloc(f));
    KeepFlows(s, u, f);
    KeepMarkers(s, u, f);
    KeepWorks(s, u, f);
  }

  /** A step that changes neither who owns an entry nor what the protocol looks at. */
  ghost predicate Benign(s: State, u: State, f: Index)
  {
    && f in s.flows && f in s.owner && u == s.(flows := u.flows) && Untouched(s, u, f)
    && u.flows[f] == s.flows[f].(isNew := u.flows[f].isNew, dead := u.flows[f].dead)
    && (u.flows[f].isNew ==> s.flows[f].isNew)
  }

  lemma BenignMarker(s: State, u: State, f: Index, m: MarkerId)
    requires Inv(s) && Benign(s, u, f) && m in s.markers
    ensures MarkerOk(u.flows, u.owner, m, s.markers[m], s.seen[m])
  {
    assert MarkerOk(s.flows, s.owner, m, s.markers[m], s.seen[m]);
  }

  lemma BenignWork(s: State, u: State, f: Index, w: WorkId)
    requires Inv(s) && Benign(s, u, f) && w in s.works
    ensures WorkOk(u.flows, u.owner, u.markers, w, s.works[w])
  {
    assert WorkOk(s.flows, s.owner, s.markers, w, s.works[w]);
  }

  lemma BenignInv(s: State, u: State, f: Index)
    requires Inv(s) && Benign(s, u, f)
    ensures Inv(u)
  {
    assert FlowOk(s.flows[f], s.owner[f]);
    KeepFlows(s, u, f);
    forall m | m in u.markers ensures MarkerOk(u.flows, u.owner, m, u.markers[m], u.seen[m]) {
      BenignMarker(s, u, f, m);
    }
    forall w | w in u.works ensures WorkOk(u.flows, u.owner, u.markers, w, u.works[w]) { BenignWork(s, u, f, w); }
  }

  /** The agent takes, changes or gives back an entry that is its own or nobody's. */
  ghost predicate AgentChange(s: State, u: State, f: Index)
  {
    && f in s.flows && f in s.owner && Untouched(s, u, f)
    && (s.owner[f].Nobody? || s.owner[f].Agent?) && (u.owner[f].Nobody? || u.owner[f].Agent? || u.owner[f].Deletion?)
    && s.flows[f].valid && !s.flows[f].evicted && FlowOk(u.flows[f], u.owner[f])
    && u.flows[f].active && u.flows[f].valid && u.flows[f].gen == s.flows[f].gen
    && u.markers == s.markers && u.seen == s.seen && u.works == s.works
  }

  lemma AgentParts(s: State, u: State, f: Index)
    requires Inv(s) && AgentChange(s, u, f)
    ensures Flows(u) && Markers(u) && Works(u)
  {
    KeepFlows(s, u, f);
    KeepMarkers(s, u, f);
    KeepWorks(s, u, f);
  }

  lemma AgentTakeInv(s: State, f: Index)
    requires Inv(s) && Enabled(s, AgentTake(f))
    ensures Inv(Next(s, AgentTake(f)))
  {
    if Takeable(s.flows[f]) {
      var u := Next(s, AgentTake(f));
      assert FlowOk(s.flows[f], s.owner[f]);
      StepHeld(s, AgentTake(f));
      AgentParts(s, u, f);
    }
  }

  lemma AgentSetInv(s: State, hold: bool, rflow: int)
    requires Inv(s) && Enabled(s, AgentSet(hold, rflow))
    ensures Inv(Next(s, AgentSet(hold, rflow)))
  {
    var u, f := Next(s, AgentSet(hold, rflow)), s.agent.f;
    assert FlowOk(s.flows[f], s.owner[f]);
    StepHeld(s, AgentSet(hold, rflow));
    AgentParts(s, u, f);
  }

  lemma AgentWorkInv(s: State, w: WorkId)
    requires Inv(s) && Enabled(s, AgentWork(w))
    ensures Inv(Next(s, AgentWork(w)))
  {
    var u := Next(s, AgentWork(w));
    StepHeld(s, AgentWork(w));
    forall v | v in u.works ensures WorkOk(u.flows, u.owner, u.markers, v, u.works[v]) {
      if v != w { assert WorkOk(s.flows, s.owner, s.markers, v, s.works[v]); }
    }
  }

  lemma AgentStopInv(s: State)
    requires Inv(s) && Enabled(s, AgentStop)
    ensures Inv(Next(s, AgentStop))
  {
    var u, f := Next(s, AgentStop), s.agent.f;
    assert FlowOk(s.flows[f], s.owner[f]);
    StepHeld(s, AgentStop);
    AgentParts(s, u, f);
  }

  lemma AgentDeleteOutside(s: State)
    requires Inv(s) && Enabled(s, AgentDelete)
    ensures Outside(Next(s, AgentDelete))
  {
  }

  lemma AgentDeleteInv(s: State)
    requires Inv(s) && Enabled(s, AgentDelete)
    ensures Inv(Next(s, AgentDelete))
  {
    var u, f := Next(s, AgentDelete), s.agent.f;
    AgentDeleteOutside(s);
    assert FlowOk(s.flows[f], s.owner[f]);
    StepHeld(s, AgentDelete);
    AgentParts(s, u, f);
  }

  lemma ResetMarkers(s: State, f: Index)
    requires Inv(s) && Enabled(s, Reset(f)) && ResetSafe(s, f)
    ensures Markers(Next(s, Reset(f)))
  {
    var u := Next(s, Reset(f));
    assert s.owner[f] == Deletion;
    forall m | m in u.markers ensures MarkerOk(u.flows, u.owner, m, u.markers[m], u.seen[m]) {
      assert !Knows(s.markers[m], f);
      KeepMarker(s, u, f, m);
    }
  }

  lemma ResetInv(s: State, f: Index)
    requires Inv(s) && Enabled(s, Reset(f)) && ResetSafe(s, f)
    ensures Inv(Next(s, Reset(f)))
  {
    var u := Next(s, Reset(f));
    assert s.owner[f] == Deletion && FlowOk(s.flows[f], s.owner[f]);
    StepHeld(s, Reset(f));
    KeepFlows(s, u, f);
    ResetMarkers(s, f);
    KeepWorks(s, u, f);
  }

  /** A reset under a marker takes away the flow it looked up, or the reverse entry it found. */
  lemma ResetUnsafe(s: State, f: Index)
    requires Inv(s) && Enabled(s, Reset(f)) && !ResetSafe(s, f)
    ensures !Inv(Next(s, Reset(f)))
  {
    var u := Next(s, Reset(f));
    var m :| m in s.markers && Knows(s.markers[m], f);
    ResetBreaks(s.flows, s.owner, u.flows, u.owner, m, s.markers[m], s.seen[m], f);
    assert !MarkerOk(u.flows, u.owner, m, u.markers[m], u.seen[m]);
  }

  lemma ResetBreaks(flows: map<Index, Flow>, owner: map<Index, Owner>, flows': map<Index, Flow>,
                    owner': map<Index, Owner>, m: MarkerId, pc: Pc, gen: nat, f: Index)
    requires MarkerOk(flows, owner, m, pc, gen) && Knows(pc, f) && f in owner && owner[f] == Deletion
    requires f in flows' && !flows'[f].valid && !flows'[f].active
    ensures !MarkerOk(flows', owner', m, pc, gen)
  {
  }

  // ----- steps of a marker

  /** Other markers are not disturbed by what marker `m` does to an entry it owns or takes. */
  lemma OtherMarkers(s: State, u: State, f: Index, m: MarkerId)
    requires Inv(s) && Untouched(s, u, f) && f in s.flows
    requires s.owner[f] == Nobody || s.owner[f] == Marker(m)
    requires s.flows[f].valid ==> u.flows[f].valid && u.flows[f].gen == s.flows[f].gen
    requires s.flows[f].active ==> u.flows[f].active
    ensures forall n :: n in s.markers && n != m ==> MarkerOk(u.flows, u.owner, n, s.markers[n], s.seen[n])
  {
    forall n | n in s.markers && n != m ensures MarkerOk(u.flows, u.owner, n, s.markers[n], s.seen[n]) {
      assert MarkerOk(s.flows, s.owner, n, s.markers[n], s.seen[n]);
      KeepMarker(s, u, f, n);
    }
  }

  /** The effect of one step of a marker on one entry. */
  ghost predicate MarkerStep(s: State, u: State, f: Index, m: MarkerId)
  {
    && Untouched(s, u, f) && f in s.flows && f in s.owner && f in u.flows && f in u.owner
    && m in s.markers && m in s.seen
    && (s.owner[f] == Nobody || s.owner[f] == Marker(m)) && !s.flows[f].evicted
    && (u.owner[f] == Nobody || u.owner[f] == Marker(m))
    && FlowOk(u.flows[f], u.owner[f]) && u.flows[f].gen == s.flows[f].gen
    && (s.flows[f].valid ==> u.flows[f].valid)
    && (s.flows[f].active ==> u.flows[f].active)
    && u == s.(flows := u.flows, owner := u.owner, markers := u.markers)
    && (u.markers == s.markers - {m}
        || (m in u.markers && u.markers == s.markers[m := u.markers[m]] && u.markers[m].f == s.markers[m].f
            && MarkerOk(u.flows, u.owner, m, u.markers[m], s.seen[m])))
  }

  lemma MarkerStepMarkers(s: State, u: State, f: Index, m: MarkerId)
    requires Inv(s) && MarkerStep(s, u, f, m)
    ensures Markers(u)
  {
    OtherMarkers(s, u, f, m);
    forall n | n in u.markers ensures MarkerOk(u.flows, u.owner, n, u.markers[n], u.seen[n]) {
      if n != m { assert u.markers[n] == s.markers[n]; }
    }
  }

  lemma MarkerStepOutside(s: State, u: State, f: Index, m: MarkerId)
    requires Inv(s) && MarkerStep(s, u, f, m)
    ensures Outside(u)
  {
  }

  lemma MarkerStepInv(s: State, u: State, f: Index, m: MarkerId)
    requires Inv(s) && MarkerStep(s, u, f, m) && AllHeld(u)
    ensures Inv(u)
  {
    KeepFlows(s, u, f);
    MarkerStepMarkers(s, u, f, m);
    KeepWorks(s, u, f);
    MarkerStepOutside(s, u, f, m);
  }

  lemma LookWorks(s: State, m: MarkerId, f: Index)
    requires Inv(s) && Enabled(s, Look(m, f))
    ensures Works(Next(s, Look(m, f)))
  {
    var u := Next(s, Look(m, f));
    assert FlowOk(s.flows[f], s.owner[f]);
    forall w | w in u.works ensures WorkOk(u.flows, u.owner, u.markers, w, u.works[w]) {
      assert WorkOk(s.flows, s.owner, s.markers, w, s.works[w]);
    }
  }

  lemma LookInv(s: State, m: MarkerId, f: Index)
    requires Inv(s) && Enabled(s, Look(m, f))
    ensures Inv(Next(s, Look(m, f)))
  {
    var u := Next(s, Look(m, f));
    StepHeld(s, Look(m, f));
    LookWorks(s, m, f);
    forall n | n in u.markers ensures MarkerOk(u.flows, u.owner, n, u.markers[n], u.seen[n]) {
      if n != m { assert u.markers[n] == s.markers[n]; }
    }
  }

  lemma GiveUp(s: State, m: MarkerId)
    requires Inv(s) && m in s.markers && AllHeld(s.(markers := s.markers - {m}))
    ensures Inv(s.(markers := s.markers - {m}))
  {
    var u := s.(markers := s.markers - {m});
    forall n | n in u.markers ensures MarkerOk(u.flows, u.owner, n, u.markers[n], u.seen[n]) {
      assert u.markers[n] == s.markers[n];
    }
    forall w | w in u.works ensures WorkOk(u.flows, u.owner, u.markers, w, u.works[w]) {
      assert WorkOk(s.flows, s.owner, s.markers, w, s.works[w]);
    }
  }

  lemma TakeInv(s: State, m: MarkerId)
    requires Inv(s) && Enabled(s, Take(m))
    ensures Inv(Next(s, Take(m)))
  {
    var f := s.markers[m].f;
    assert MarkerOk(s.flows, s.owner, m, s.markers[m], s.seen[m]) && FlowOk(s.flows[f], s.owner[f]);
    StepHeld(s, Take(m));
    if Takeable(s.flows[f]) {
      MarkerStepInv(s, Next(s, Take(m)), f, m);
    } else {
      GiveUp(s, m);
    }
  }

  lemma OwnFacts(s: State, m: MarkerId)
    requires Inv(s) && m in s.markers && !s.markers[m].Looked?
    ensures var f := s.markers[m].f;
            && f in s.flows && f in s.owner && s.owner[f] == Marker(m) && FlowOk(s.flows[f], s.owner[f])
            && MarkerOk(s.flows, s.owner, m, s.markers[m], s.seen[m]) && !s.flows[f].evicted
  {
  }

  /** A marker that only turns to its next stage. */
  lemma MoveInv(s: State, m: MarkerId, pc: Pc)
    requires Inv(s) && m in s.markers && !s.markers[m].Looked? && pc.f == s.markers[m].f
    requires MarkerOk(s.flows, s.owner, m, pc, s.seen[m]) && AllHeld(SetPc(s, m, pc))
    ensures Inv(SetPc(s, m, pc))
  {
    OwnFacts(s, m);
    MarkerStepInv(s, SetPc(s, m, pc), pc.f, m);
  }

  lemma FindPeerInv(s: State, m: MarkerId)
    requires Inv(s) && Enabled(s, FindPeer(m))
    ensures Inv(Next(s, FindPeer(m)))
  {
    var f := s.markers[m].f;
    OwnFacts(s, m);
    var r := s.flows[f].rflow;
    if IsFlow(s, r) { assert FlowOk(s.flows[r], s.owner[r]); }
    StepHeld(s, FindPeer(m));
    MoveInv(s, m, Next(s, FindPeer(m)).markers[m]);
  }

  lemma TakePeerInv(s: State, m: MarkerId)
    requires Inv(s) && Enabled(s, TakePeer(m))
    ensures Inv(Next(s, TakePeer(m)))
  {
    var Peer(f, r) := s.markers[m];
    OwnFacts(s, m);
    StepHeld(s, TakePeer(m));
    if Takeable(s.flows[r]) {
      TookPeerInv(s, m, f, r);
    } else {
      MoveInv(s, m, Stop(f, -1));
    }
  }

  lemma TookPeerInv(s: State, m: MarkerId, f: Index, r: Index)
    requires Inv(s) && m in s.markers && s.markers[m] == Peer(f, r) && IsFlow(s, r) && Takeable(s.flows[r])
    requires AllHeld(SetPc(SetFlow(s, r, s.flows[r].(modified := true), Marker(m)), m, Both(f, r)))
    ensures Inv(SetPc(SetFlow(s, r, s.flows[r].(modified := true), Marker(m)), m, Both(f, r)))
  {
    OwnFacts(s, m);
    assert FlowOk(s.flows[r], s.owner[r]);
    MarkerStepInv(s, SetPc(SetFlow(s, r, s.flows[r].(modified := true), Marker(m)), m, Both(f, r)), r, m);
  }

  lemma MarkPeerInv(s: State, m: MarkerId)
    requires Inv(s) && Enabled(s, MarkPeer(m))
    ensures Inv(Next(s, MarkPeer(m)))
  {
    var Both(f, r) := s.markers[m];
    OwnFacts(s, m);
    StepHeld(s, MarkPeer(m));
    if PeerEligible(s, f, r) && s.flows[r].active && !s.flows[r].candidate {
      MarkedPeerInv(s, m, f, r);
    } else {
      MoveInv(s, m, Stop(f, r));
    }
  }

  lemma MarkedPeerInv(s: State, m: MarkerId, f: Index, r: Index)
    requires Inv(s) && m in s.markers && s.markers[m] == Both(f, r) && IsFlow(s, r) && s.flows[r].active
    requires AllHeld(SetPc(s.(flows := s.flows[r := s.flows[r].(candidate := true)]), m, Ready(f, r)))
    ensures Inv(SetPc(s.(flows := s.flows[r := s.flows[r].(candidate := true)]), m, Ready(f, r)))
  {
    OwnFacts(s, m);
    assert FlowOk(s.flows[r], s.owner[r]);
    MarkerStepInv(s, SetPc(s.(flows := s.flows[r := s.flows[r].(candidate := true)]), m, Ready(f, r)), r, m);
  }

  lemma MarkSelfInv(s: State, m: MarkerId)
    requires Inv(s) && Enabled(s, MarkSelf(m))
    ensures Inv(Next(s, MarkSelf(m)))
  {
    OwnFacts(s, m);
    StepHeld(s, MarkSelf(m));
    MarkerStepInv(s, Next(s, MarkSelf(m)), s.markers[m].f, m);
  }

  lemma ScheduleFailsInv(s: State, m: MarkerId)
    requires Inv(s) && Enabled(s, ScheduleFails(m))
    ensures Inv(Next(s, ScheduleFails(m)))
  {
    OwnFacts(s, m);
    StepHeld(s, ScheduleFails(m));
    MoveInv(s, m, Undo(s.markers[m].f, s.markers[m].peer));
  }

  lemma UndonePeer(s: State, m: MarkerId, f: Index, r: Index)
    requires Inv(s) && m in s.markers && s.markers[m] == Undo(f, r)
    requires IsFlow(s, r) && AllHeld(SetPc(SetFlow(s, r, Dropped(s.flows[r], true), Nobody), m, Undo(f, -1)))
    ensures Inv(SetPc(SetFlow(s, r, Dropped(s.flows[r], true), Nobody), m, Undo(f, -1)))
  {
    OwnFacts(s, m);
    var u := SetPc(SetFlow(s, r, Dropped(s.flows[r], true), Nobody), m, Undo(f, -1));
    assert FlowOk(s.flows[r], s.owner[r]);
    assert MarkerOk(u.flows, u.owner, m, Undo(f, -1), s.seen[m]);
    MarkerStepInv(s, u, r, m);
  }

  lemma StoppedPeer(s: State, m: MarkerId, f: Index, r: Index)
    requires Inv(s) && m in s.markers && s.markers[m] == Stop(f, r)
    requires IsFlow(s, r) && AllHeld(SetPc(SetFlow(s, r, Dropped(s.flows[r], false), Nobody), m, Stop(f, -1)))
    ensures Inv(SetPc(SetFlow(s, r, Dropped(s.flows[r], false), Nobody), m, Stop(f, -1)))
  {
    OwnFacts(s, m);
    var u := SetPc(SetFlow(s, r, Dropped(s.flows[r], false), Nobody), m, Stop(f, -1));
    assert FlowOk(s.flows[r], s.owner[r]);
    assert MarkerOk(u.flows, u.owner, m, Stop(f, -1), s.seen[m]);
    MarkerStepInv(s, u, r, m);
  }

  lemma ReleasePeerInv(s: State, m: MarkerId)
    requires Inv(s) && Enabled(s, ReleasePeer(m))
    ensures Inv(Next(s, ReleasePeer(m)))
  {
    StepHeld(s, ReleasePeer(m));
    if s.markers[m].Undo? {
      UndonePeer(s, m, s.markers[m].f, s.markers[m].peer);
    } else {
      StoppedPeer(s, m, s.markers[m].f, s.markers[m].peer);
    }
  }

  lemma ReleaseSelfInv(s: State, m: MarkerId)
    requires Inv(s) && Enabled(s, ReleaseSelf(m))
    ensures Inv(Next(s, ReleaseSelf(m)))
  {
    OwnFacts(s, m);
    StepHeld(s, ReleaseSelf(m));
    MarkerStepInv(s, Next(s, ReleaseSelf(m)), s.markers[m].f, m);
  }

  // ----- handing over to a work

  ghost predicate Handover(s: State, u: State, m: MarkerId, w: WorkId)
  {
    && Enabled(s, Schedule(m, w)) && u == Next(s, Schedule(m, w))
  }

  lemma HandoverOwner(s: State, u: State, m: MarkerId, w: WorkId, i: Index)
    requires Inv(s) && Handover(s, u, m, w) && i in s.owner
    ensures i in u.owner
    ensures u.owner[i] == if i == s.markers[m].f || i == s.markers[m].peer then Doomed else s.owner[i]
    ensures i == s.markers[m].f || i == s.markers[m].peer ==> s.owner[i] == Marker(m) && s.flows[i].candidate
  {
    assert MarkerOk(s.flows, s.owner, m, s.markers[m], s.seen[m]);
  }

  lemma HandoverMarker(s: State, u: State, m: MarkerId, w: WorkId, n: MarkerId)
    requires Inv(s) && Handover(s, u, m, w) && n in s.markers && n != m
    ensures MarkerOk(u.flows, u.owner, n, s.markers[n], s.seen[n])
  {
    assert MarkerOk(s.flows, s.owner, n, s.markers[n], s.seen[n]);
    assert MarkerOk(s.flows, s.owner, m, s.markers[m], s.seen[m]);
  }

  lemma HandoverWork(s: State, u: State, m: MarkerId, w: WorkId, v: WorkId)
    requires Inv(s) && Handover(s, u, m, w) && v in s.works
    ensures WorkOk(u.flows, u.owner, u.markers, v, s.works[v])
  {
    assert WorkOk(s.flows, s.owner, s.markers, v, s.works[v]);
    if !s.works[v].PeerLeft? {
      HandoverOwner(s, u, m, w, s.works[v].f);
      assert FlowOk(s.flows[s.works[v].f], s.owner[s.works[v].f]);
    }
  }

  lemma HandoverWorks(s: State, u: State, m: MarkerId, w: WorkId)
    requires Inv(s) && Handover(s, u, m, w)
    ensures Works(u)
  {
    forall v | v in u.works ensures WorkOk(u.flows, u.owner, u.markers, v, u.works[v]) {
      if v != w { HandoverWork(s, u, m, w, v); } else { HandoverOwner(s, u, m, w, s.markers[m].f); }
    }
  }

  lemma HandoverFlows(s: State, u: State, m: MarkerId, w: WorkId)
    requires Inv(s) && Handover(s, u, m, w)
    ensures Flows(u) && Outside(u)
  {
    OwnFacts(s, m);
    assert u.owner.Keys == s.owner.Keys;
    forall i | i in u.flows ensures FlowOk(u.flows[i], u.owner[i]) {
      HandoverOwner(s, u, m, w, i);
      assert FlowOk(s.flows[i], s.owner[i]);
    }
    if s.agent.Holding? { HandoverOwner(s, u, m, w, s.agent.f); }
    forall i | i in u.deletes ensures IsFlow(u, i) && u.owner[i] == Deletion {
      assert i in s.deletes;
      HandoverOwner(s, u, m, w, i);
    }
  }

  lemma ScheduleInv(s: State, m: MarkerId, w: WorkId)
    requires Inv(s) && Enabled(s, Schedule(m, w))
    ensures Inv(Next(s, Schedule(m, w)))
  {
    var u := Next(s, Schedule(m, w));
    StepHeld(s, Schedule(m, w));
    HandoverFlows(s, u, m, w);
    HandoverWorks(s, u, m, w);
    forall n | n in u.markers ensures MarkerOk(u.flows, u.owner, n, u.markers[n], u.seen[n]) {
      HandoverMarker(s, u, m, w, n);
    }
  }

  lemma RegisterInv(s: State, w: WorkId)
    requires Inv(s) && Enabled(s, Register(w))
    ensures Inv(Next(s, Register(w)))
  {
    var u := Next(s, Register(w));
    StepHeld(s, Register(w));
    forall v | v in u.works ensures WorkOk(u.flows, u.owner, u.markers, v, u.works[v]) {
      assert WorkOk(s.flows, s.owner, s.markers, v, s.works[v]);
    }
  }

  // ----- the callback

  /** A candidate that no marker has is doomed. */
  lemma FreeCandidate(s: State, i: Index)
    requires Inv(s) && i in s.flows && EvictSafe(s, i) && Evictable(s.flows[i])
    ensures s.owner[i] == Doomed && FlowOk(s.flows[i], s.owner[i]) && !s.flows[i].evicted
  {
    assert FlowOk(s.flows[i], s.owner[i]);
    assert Held(s.markers, s.works, s.agent, s.deletes, i, s.owner[i]);
  }

  /** Work `w` wins entry `i` and turns to `pc`. */
  ghost predicate Winning(s: State, u: State, i: Index, w: WorkId)
  {
    && i in s.flows && i in s.owner && w in s.works && !Leaves(s.works[w], i)
    && Evictable(s.flows[i]) && EvictSafe(s, i)
    && w in u.works && Leaves(u.works[w], i) && u == SetWork(Won(s, i, w), w, u.works[w])
  }

  lemma WinningMarkers(s: State, u: State, i: Index, w: WorkId)
    requires Inv(s) && Winning(s, u, i, w)
    ensures Flows(u) && Markers(u) && Outside(u)
  {
    FreeCandidate(s, i);
    KeepFlows(s, u, i);
    KeepMarkers(s, u, i);
    forall f | f in u.deletes ensures IsFlow(u, f) && u.owner[f] == Deletion { assert f in s.deletes; }
  }

  lemma WinningWorks(s: State, u: State, i: Index, w: WorkId)
    requires Inv(s) && Winning(s, u, i, w)
    ensures Works(u)
  {
    FreeCandidate(s, i);
    forall v | v in u.works ensures WorkOk(u.flows, u.owner, u.markers, v, u.works[v]) {
      if v != w { KeepWork(s, u, i, v); }
    }
  }

  lemma WinningInv(s: State, u: State, i: Index, w: WorkId)
    requires Inv(s) && Winning(s, u, i, w) && AllHeld(u)
    ensures Inv(u)
  {
    WinningMarkers(s, u, i, w);
    WinningWorks(s, u, i, w);
  }

  /** A work that goes on without having changed an entry. */
  lemma PassInv(s: State, u: State, w: WorkId)
    requires Inv(s) && w in s.works && AllHeld(u)
    requires u == s.(works := s.works - {w}) || exists r :: u == SetWork(s, w, PeerLeft(r))
    ensures Inv(u)
  {
    forall v | v in u.works ensures WorkOk(u.flows, u.owner, u.markers, v, u.works[v]) {
      if v != w { assert WorkOk(s.flows, s.owner, s.markers, v, s.works[v]); }
    }
  }

  lemma EvictSelfInv(s: State, w: WorkId)
    requires Inv(s) && Enabled(s, EvictSelf(w)) && EvictSafe(s, s.works[w].f)
    ensures Inv(Next(s, EvictSelf(w)))
  {
    StepHeld(s, EvictSelf(w));
    if Evictable(s.flows[s.works[w].f]) {
      WinningInv(s, Next(s, EvictSelf(w)), s.works[w].f, w);
    } else {
      PassInv(s, Next(s, EvictSelf(w)), w);
    }
  }

  lemma EvictPeerInv(s: State, w: WorkId)
    requires Inv(s) && Enabled(s, EvictPeer(w)) && EvictSafe(s, s.works[w].r)
    ensures Inv(Next(s, EvictPeer(w)))
  {
    StepHeld(s, EvictPeer(w));
    var r := s.works[w].r;
    if IsFlow(s, r) && Evictable(s.flows[r]) {
      WinningInv(s, Next(s, EvictPeer(w)), r, w);
    } else {
      PassInv(s, Next(s, EvictPeer(w)), w);
    }
  }

  /** An eviction under a marker takes its entry away. */
  lemma EvictUnsafe(s: State, u: State, i: Index, w: WorkId)
    requires Inv(s) && i in s.flows && !EvictSafe(s, i) && u.markers == s.markers && i in u.owner
    requires u.owner[i] == Leaving(w) && u.seen == s.seen
    ensures !Inv(u)
  {
    var m :| m in s.markers && Grips(s.markers[m], i);
    EvictBreaks(u.flows, u.owner, m, s.markers[m], s.seen[m], i);
    assert !MarkerOk(u.flows, u.owner, m, u.markers[m], u.seen[m]);
  }

  lemma EvictBreaks(flows: map<Index, Flow>, owner: map<Index, Owner>, m: MarkerId, pc: Pc, gen: nat, i: Index)
    requires Grips(pc, i) && i in owner && owner[i].Leaving?
    ensures !MarkerOk(flows, owner, m, pc, gen)
  {
  }

  /** Work `w` releases the entry it has evicted. */
  ghost predicate Dropping(s: State, u: State, f: Index, w: WorkId)
  {
    && f in s.flows && f in s.owner && w in s.works && Leaves(s.works[w], f)
    && u == SetFlow(s, f, Released(s.flows[f]), Nobody).(works := u.works)
    && (u.works == s.works - {w} || (w in u.works && u.works[w].PeerLeft? && u.works == s.works[w := u.works[w]]))
  }

  lemma DroppingMarkers(s: State, u: State, f: Index, w: WorkId)
    requires Inv(s) && Dropping(s, u, f, w) && DropSafe(s, f)
    ensures Flows(u) && Markers(u) && Outside(u)
  {
    assert WorkOk(s.flows, s.owner, s.markers, w, s.works[w]);
    assert FlowOk(s.flows[f], s.owner[f]);
    KeepFlows(s, u, f);
    forall m | m in u.markers ensures MarkerOk(u.flows, u.owner, m, u.markers[m], u.seen[m]) {
      assert s.markers[m].f != f;
      KeepMarker(s, u, f, m);
    }
    forall i | i in u.deletes ensures IsFlow(u, i) && u.owner[i] == Deletion { assert i in s.deletes; }
  }

  lemma DroppingWorks(s: State, u: State, f: Index, w: WorkId)
    requires Inv(s) && Dropping(s, u, f, w)
    ensures Works(u)
  {
    assert WorkOk(s.flows, s.owner, s.markers, w, s.works[w]);
    assert FlowOk(s.flows[f], s.owner[f]);
    forall v | v in u.works ensures WorkOk(u.flows, u.owner, u.markers, v, u.works[v]) {
      if v != w {
        assert u.works[v] == s.works[v];
        KeepWork(s, u, f, v);
      }
    }
  }

  lemma DroppingInv(s: State, u: State, f: Index, w: WorkId)
    requires Inv(s) && Dropping(s, u, f, w) && DropSafe(s, f) && AllHeld(u)
    ensures Inv(u)
  {
    DroppingMarkers(s, u, f, w);
    DroppingWorks(s, u, f, w);
  }

  /** A release under a marker takes away the flow it looked up. */
  lemma DropUnsafe(s: State, u: State, f: Index, w: WorkId)
    requires Inv(s) && Dropping(s, u, f, w) && !DropSafe(s, f)
    ensures !Inv(u)
  {
    var m :| m in s.markers && s.markers[m].f == f;
    assert !MarkerOk(u.flows, u.owner, m, u.markers[m], u.seen[m]);
  }

  // ----- every step

  lemma AgentStepInv(s: State, step: Step)
    requires Inv(s) && Enabled(s, step)
    requires step.AgentTake? || step.AgentSet? || step.AgentWork? || step.AgentStop? || step.AgentDelete?
    ensures Inv(Next(s, step))
  {
    match step
    case AgentTake(f) => AgentTakeInv(s, f);
    case AgentSet(hold, rflow) => AgentSetInv(s, hold, rflow);
    case AgentWork(w) => AgentWorkInv(s, w);
    case AgentStop => AgentStopInv(s);
    case AgentDelete => AgentDeleteInv(s);
  }

  lemma OutsideStepInv(s: State, step: Step)
    requires Inv(s) && Enabled(s, step) && (step.Alloc? || step.ClearNew? || step.SetDead?)
    ensures Inv(Next(s, step))
  {
    match step
    case Alloc(f) => AllocInv(s, f);
    case ClearNew(f) => BenignInv(s, Next(s, step), f);
    case SetDead(f) => BenignInv(s, Next(s, step), f);
  }

  lemma TakingStepInv(s: State, step: Step)
    requires Inv(s) && Enabled(s, step) && (step.Look? || step.Take? || step.FindPeer?)
    ensures Inv(Next(s, step))
  {
    match step
    case Look(m, f) => LookInv(s, m, f);
    case Take(m) => TakeInv(s, m);
    case FindPeer(m) => FindPeerInv(s, m);
  }

  lemma MarkingStepInv(s: State, step: Step)
    requires Inv(s) && Enabled(s, step) && (step.TakePeer? || step.MarkPeer? || step.MarkSelf?)
    ensures Inv(Next(s, step))
  {
    match step
    case TakePeer(m) => TakePeerInv(s, m);
    case MarkPeer(m) => MarkPeerInv(s, m);
    case MarkSelf(m) => MarkSelfInv(s, m);
  }

  lemma EndingStepInv(s: State, step: Step)
    requires Inv(s) && Enabled(s, step)
    requires step.Schedule? || step.ScheduleFails? || step.ReleasePeer? || step.ReleaseSelf? || step.Register?
    ensures Inv(Next(s, step))
  {
    match step
    case Schedule(m, w) => ScheduleInv(s, m, w);
    case ScheduleFails(m) => ScheduleFailsInv(s, m);
    case ReleasePeer(m) => ReleasePeerInv(s, m);
    case ReleaseSelf(m) => ReleaseSelfInv(s, m);
    case Register(w) => RegisterInv(s, w);
  }

  predicate Risky(step: Step)
  {
    step.EvictSelf? || step.DropSelf? || step.EvictPeer? || step.DropPeer? || step.Reset?
  }

  lemma CalmStepInv(s: State, step: Step)
    requires Inv(s) && Enabled(s, step) && !Risky(step)
    ensures Inv(Next(s, step))
  {
    if step.Look? || step.Take? || step.FindPeer? {
      TakingStepInv(s, step);
    } else if step.TakePeer? || step.MarkPeer? || step.MarkSelf? {
      MarkingStepInv(s, step);
    } else if step.AgentTake? || step.AgentSet? || step.AgentWork? || step.AgentStop? || step.AgentDelete? {
      AgentStepInv(s, step);
    } else if step.Schedule? || step.ScheduleFails? || step.ReleasePeer? || step.ReleaseSelf? || step.Register? {
      EndingStepInv(s, step);
    } else {
      OutsideStepInv(s, step);
    }
  }

  lemma EvictSelfIff(s: State, w: WorkId)
    requires Inv(s) && Enabled(s, EvictSelf(w))
    ensures Inv(Next(s, EvictSelf(w))) <==> EvictSafe(s, s.works[w].f)
  {
    if EvictSafe(s, s.works[w].f) {
      EvictSelfInv(s, w);
    } else {
      EvictUnsafe(s, Next(s, EvictSelf(w)), s.works[w].f, w);
    }
  }

  lemma EvictPeerIff(s: State, w: WorkId)
    requires Inv(s) && Enabled(s, EvictPeer(w))
    ensures Inv(Next(s, EvictPeer(w))) <==> EvictSafe(s, s.works[w].r)
  {
    if EvictSafe(s, s.works[w].r) {
      EvictPeerInv(s, w);
    } else {
      EvictUnsafe(s, Next(s, EvictPeer(w)), s.works[w].r, w);
    }
  }

  lemma DropSelfIff(s: State, w: WorkId)
    requires Inv(s) && Enabled(s, DropSelf(w))
    ensures Inv(Next(s, DropSelf(w))) <==> DropSafe(s, s.works[w].f)
  {
    var u, f := Next(s, DropSelf(w)), s.works[w].f;
    StepHeld(s, DropSelf(w));
    if DropSafe(s, f) { DroppingInv(s, u, f, w); } else { DropUnsafe(s, u, f, w); }
  }

  lemma DropPeerIff(s: State, w: WorkId)
    requires Inv(s) && Enabled(s, DropPeer(w))
    ensures Inv(Next(s, DropPeer(w))) <==> DropSafe(s, s.works[w].f)
  {
    var u, f := Next(s, DropPeer(w)), s.works[w].f;
    StepHeld(s, DropPeer(w));
    if DropSafe(s, f) { DroppingInv(s, u, f, w); } else { DropUnsafe(s, u, f, w); }
  }

  lemma ResetIff(s: State, f: Index)
    requires Inv(s) && Enabled(s, Reset(f))
    ensures Inv(Next(s, Reset(f))) <==> ResetSafe(s, f)
  {
    if ResetSafe(s, f) { ResetInv(s, f); } else { ResetUnsafe(s, f); }
  }

  lemma CallbackIff(s: State, step: Step)
    requires Inv(s) && Enabled(s, step) && Risky(step) && !step.Reset?
    ensures Inv(Next(s, step)) <==> Safe(s, step)
  {
    match step
    case EvictSelf(w) => EvictSelfIff(s, w);
    case DropSelf(w) => DropSelfIff(s, w);
    case EvictPeer(w) => EvictPeerIff(s, w);
    case DropPeer(w) => DropPeerIff(s, w);
  }

  /** Every step keeps the invariant exactly if it is safe; only evictions, releases and resets can be unsafe. */
  lemma StepInvIff(s: State, step: Step)
    requires Inv(s) && Enabled(s, step)
    ensures Inv(Next(s, step)) <==> Safe(s, step)
  {
    if step.Reset? {
      ResetIff(s, step.f);
    } else if Risky(step) {
      CallbackIff(s, step);
    } else {
      CalmStepInv(s, step);
    }
  }
}
