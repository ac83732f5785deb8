/**
 * The hold queue of a flow: enqueuers, works and deferred callbacks, every atomic operation one
 * step, in any interleaving. A packet is identified with the enqueuer that carries it. A work swaps
 * the queue pointer of the entry to null and flushes the queue. If the work was given deferral data
 * when it was scheduled, a second pass and the free are left to a callback that waits for all
 * enqueuers that were under way when it was registered; if not, the work frees the queue itself.
 */
module HoldQueue {

  type Packet = nat
  type QueueId = nat
  type WorkId = nat

  datatype Option<T> = None | Some(value: T)

  datatype Slot = Empty | Full(p: Packet)

  datatype Stage =
    | Attached                                // the entry points to the queue
    | FirstPass(next: nat, deferred: bool)    // detached, a work with or without deferral data is flushing
    | Grace(waiting: set<Packet>)             // callback registered, waiting for these enqueuers
    | SecondPass(next: nat)                   // the callback is flushing
    | Freed

  /** `entries` counts the reservations ever made; the machine counter is its low 32 bits. */
  datatype Queue = Queue(entries: nat, slots: seq<Slot>, stage: Stage)

  datatype Pc =
    | Arrived
    | Holding(q: QueueId)            // has loaded the queue pointer
    | Reserved(q: QueueId, i: nat)   // has incremented the counter
    | Published(q: QueueId, i: nat)  // has stored the packet in its slot
    | Dropped

  datatype Work =
    | Ready(deferred: bool)
    | Looked(q: QueueId, deferred: bool)   // has loaded the queue pointer of a flow that is not on hold

  datatype State = State(
    max: nat,
    queues: map<QueueId, Queue>,
    current: Option<QueueId>,
    hold: bool,
    works: map<WorkId, Work>,
    pcs: map<Packet, Pc>,
    flushed: multiset<Packet>,
    dropped: multiset<Packet>)

  const COUNTER_RANGE: nat := 0x1_0000_0000

  datatype Step =
    | Arrive(p: Packet)
    | Load(p: Packet)
    | Reserve(p: Packet)
    | Publish(p: Packet)
    | NewQueue(q: QueueId)
    | SetAction(hold: bool)
    | Schedule(w: WorkId, deferred: bool)
    | Look(w: WorkId)
    | Swap(w: WorkId)
    | Flush(q: QueueId)
    | FreeNow(q: QueueId)
    | Defer(q: QueueId)
    | Callback(q: QueueId)
    | Free(q: QueueId)

  predicate UnderWay(pc: Pc)
  {
    pc.Holding? || pc.Reserved?
  }

  function Init(max: nat): State
  {
    State(max, map[], None, false, map[], map[], multiset{}, multiset{})
  }

  function EmptySlots(n: nat): (r: seq<Slot>)
    ensures |r| == n && forall i :: 0 <= i < n ==> r[i] == Empty
  {
    seq(n, _ => Empty)
  }

  // ----- the steps, each with its guard

  predicate Enabled(s: State, step: Step)
  {
    match step
    case Arrive(p) => p !in s.pcs
    case Load(p) => p in s.pcs && s.pcs[p].Arrived?
    case Reserve(p) => p in s.pcs && s.pcs[p].Holding? && s.pcs[p].q in s.queues
    case Publish(p) =>
      && p in s.pcs && s.pcs[p].Reserved? && s.pcs[p].q in s.queues
      && s.pcs[p].i < |s.queues[s.pcs[p].q].slots|
    case NewQueue(q) => q !in s.queues && s.current.None?
    case SetAction(_) => true
    case Schedule(w, _) => w !in s.works
    case Look(w) => w in s.works && s.works[w].Ready?
    case Swap(w) => w in s.works && s.works[w].Looked? && s.works[w].q in s.queues
    case Flush(q) =>
      && q in s.queues && (s.queues[q].stage.FirstPass? || s.queues[q].stage.SecondPass?)
      && s.queues[q].stage.next < s.max && s.max == |s.queues[q].slots|
    case FreeNow(q) => q in s.queues && s.queues[q].stage == FirstPass(s.max, false)
    case Defer(q) => q in s.queues && s.queues[q].stage == FirstPass(s.max, true)
    case Callback(q) =>
      && q in s.queues && s.queues[q].stage.Grace?
      && forall p :: p in s.queues[q].stage.waiting && p in s.pcs ==> !UnderWay(s.pcs[p])
    case Free(q) => q in s.queues && s.queues[q].stage == SecondPass(s.max)
  }

  /** Takes the packet out of one slot, if there is one. */
  function FlushSlot(s: State, q: QueueId): State
    requires Enabled(s, Flush(q))
  {
    var v := s.queues[q];
    var k := v.stage.next;
    var v' := v.(slots := v.slots[k := Empty], stage := v.stage.(next := k + 1));
    s.(queues := s.queues[q := v'],
       flushed := if v.slots[k].Full? then s.flushed + multiset{v.slots[k].p} else s.flushed)
  }

  function SetStage(s: State, q: QueueId, stage: Stage): State
    requires q in s.queues
  {
    s.(queues := s.queues[q := s.queues[q].(stage := stage)])
  }

  function Next(s: State, step: Step): State
    requires Enabled(s, step)
  {
    match step
    case Arrive(p) => s.(pcs := s.pcs[p := Arrived])
    case Load(p) =>
      if s.current.None? then s.(pcs := s.pcs[p := Dropped], dropped := s.dropped + multiset{p})
      else s.(pcs := s.pcs[p := Holding(s.current.value)])
    case Reserve(p) =>
      var q := s.pcs[p].q;
      var i := s.queues[q].entries % COUNTER_RANGE;
      var s' := s.(queues := s.queues[q := s.queues[q].(entries := s.queues[q].entries + 1)]);
      if i >= s.max then s'.(pcs := s.pcs[p := Dropped], dropped := s.dropped + multiset{p})
      else s'.(pcs := s.pcs[p := Reserved(q, i)])
    case Publish(p) =>
      var Reserved(q, i) := s.pcs[p];
      s.(queues := s.queues[q := s.queues[q].(slots := s.queues[q].slots[i := Full(p)])],
         pcs := s.pcs[p := Published(q, i)])
    case NewQueue(q) =>
      s.(queues := s.queues[q := Queue(0, EmptySlots(s.max), Attached)], current := Some(q), hold := true)
    case SetAction(hold) => s.(hold := hold)
    case Schedule(w, deferred) => s.(works := s.works[w := Ready(deferred)])
    case Look(w) =>
      if s.current.None? || s.hold then s.(works := s.works - {w})
      else s.(works := s.works[w := Looked(s.current.value, s.works[w].deferred)])
    case Swap(w) =>
      var Looked(q, deferred) := s.works[w];
      var s' := s.(works := s.works - {w});
      if s.current != Some(q) then s' else SetStage(s', q, FirstPass(0, deferred)).(current := None)
    case Flush(q) => FlushSlot(s, q)
    case FreeNow(q) => SetStage(s, q, Freed)
    case Defer(q) => SetStage(s, q, Grace(set p | p in s.pcs && UnderWay(s.pcs[p])))
    case Callback(q) => SetStage(s, q, SecondPass(0))
    case Free(q) => SetStage(s, q, Freed)
  }

  // ----- when a step is safe

  /** A reservation is safe unless the counter has wrapped to a slot that is in use. */
  ghost predicate ReserveSafe(s: State, p: Packet)
    requires Enabled(s, Reserve(p))
  {
    var q := s.pcs[p].q;
    var i := s.queues[q].entries % COUNTER_RANGE;
    i < s.max ==> i < |s.queues[q].slots| && s.queues[q].slots[i] == Empty && !Claimed(s, q, i)
  }

  ghost predicate Claimed(s: State, q: QueueId, i: nat)
  {
    exists r :: r in s.pcs && s.pcs[r] == Reserved(q, i)
  }

  /** Freeing at once is safe if no enqueuer has the queue and none has stored behind the flush. */
  ghost predicate FreeSafe(s: State, q: QueueId)
    requires q in s.queues
  {
    && (forall p :: p in s.pcs && UnderWay(s.pcs[p]) ==> s.pcs[p].q != q)
    && (forall j :: 0 <= j < |s.queues[q].slots| ==> s.queues[q].slots[j] == Empty)
  }

  ghost predicate Safe(s: State, step: Step)
    requires Enabled(s, step)
  {
    match step
    case Reserve(p) => ReserveSafe(s, p)
    case FreeNow(q) => FreeSafe(s, q)
    case _ => true
  }

  // ----- what every safe step keeps

  ghost predicate QueueOk(s: State, q: QueueId)
    requires q in s.queues
  {
    var v := s.queues[q];
    && |v.slots| == s.max
    && (v.stage.Attached? <==> s.current == Some(q))
    && (v.stage.FirstPass? ==> v.stage.next <= s.max)
    && (v.stage.SecondPass? ==>
          v.stage.next <= s.max && forall j :: 0 <= j < v.stage.next ==> v.slots[j] == Empty)
    && (v.stage.Freed? ==> forall j :: 0 <= j < |v.slots| ==> v.slots[j] == Empty)
    && forall j :: 0 <= j < |v.slots| && v.slots[j].Full? ==>
         v.slots[j].p in s.pcs && s.pcs[v.slots[j].p] == Published(q, j)
  }

  /** An enqueuer that still works on a queue keeps it from its second pass. */
  ghost predicate Protects(s: State, p: Packet, q: QueueId)
  {
    && q in s.queues
    && (s.queues[q].stage.Attached? || s.queues[q].stage.FirstPass?
        || (s.queues[q].stage.Grace? && p in s.queues[q].stage.waiting))
  }

  ghost predicate PacketOk(s: State, p: Packet)
    requires p in s.pcs
  {
    match s.pcs[p]
    case Arrived => s.flushed[p] == 0 && s.dropped[p] == 0
    case Holding(q) => s.flushed[p] == 0 && s.dropped[p] == 0 && Protects(s, p, q)
    case Reserved(q, i) =>
      && s.flushed[p] == 0 && s.dropped[p] == 0 && Protects(s, p, q)
      && i < s.max && i < s.queues[q].entries
      && i < |s.queues[q].slots| && s.queues[q].slots[i] == Empty
    case Published(q, i) =>
      && s.dropped[p] == 0 && q in s.queues
      && i < s.max && i < s.queues[q].entries
      && i < |s.queues[q].slots|
      && s.flushed[p] == if s.queues[q].slots[i] == Full(p) then 0 else 1
    case Dropped => s.flushed[p] == 0 && s.dropped[p] == 1
  }

  /** No two enqueuers have reserved the same slot. */
  ghost predicate SlotsApart(s: State)
  {
    forall p, p' :: p in s.pcs && p' in s.pcs && p != p' ==> !SameSlot(s.pcs[p], s.pcs[p'])
  }

  predicate SameSlot(a: Pc, b: Pc)
  {
    a.Reserved? && b.Reserved? && a.q == b.q && a.i == b.i
  }

  ghost predicate Inv(s: State)
  {
    && (s.current.Some? ==> s.current.value in s.queues)
    && (forall q :: q in s.queues ==> QueueOk(s, q))
    && (forall p :: p in s.pcs ==> PacketOk(s, p))
    && SlotsApart(s)
    && (forall p :: p !in s.pcs ==> s.flushed[p] == 0 && s.dropped[p] == 0)
  }

  lemma InitInv(max: nat)
    ensures Inv(Init(max))
  {
  }

  lemma ArriveInv(s: State, p: Packet)
    requires Inv(s) && Enabled(s, Arrive(p))
    ensures Inv(Next(s, Arrive(p)))
  {
    var t := Next(s, Arrive(p));
    forall r | r in t.pcs ensures PacketOk(t, r) {
      if r != p { assert PacketOk(s, r); }
    }
    forall q | q in t.queues ensures QueueOk(t, q) { assert QueueOk(s, q); }
  }

  lemma LoadPacket(s: State, p: Packet, r: Packet)
    requires Inv(s) && Enabled(s, Load(p)) && r in s.pcs
    ensures PacketOk(Next(s, Load(p)), r)
  {
  }

  lemma LoadQueue(s: State, p: Packet, q: QueueId)
    requires Inv(s) && Enabled(s, Load(p)) && q in s.queues
    ensures QueueOk(Next(s, Load(p)), q)
  {
  }

  lemma LoadInv(s: State, p: Packet)
    requires Inv(s) && Enabled(s, Load(p))
    ensures Inv(Next(s, Load(p)))
  {
    var t := Next(s, Load(p));
    forall r | r in t.pcs ensures PacketOk(t, r) { LoadPacket(s, p, r); }
    forall q | q in t.queues ensures QueueOk(t, q) { LoadQueue(s, p, q); }
    forall a, b | a in t.pcs && b in t.pcs && a != b ensures !SameSlot(t.pcs[a], t.pcs[b]) {
      assert !SameSlot(s.pcs[a], s.pcs[b]);
    }
  }

  lemma ReservePacket(s: State, p: Packet, r: Packet)
    requires Inv(s) && Enabled(s, Reserve(p)) && ReserveSafe(s, p) && r in s.pcs
    ensures PacketOk(Next(s, Reserve(p)), r)
  {
    assert PacketOk(s, r) && PacketOk(s, p);
    CounterLow(s.queues[s.pcs[p].q].entries);
  }

  lemma CounterLow(n: nat)
    ensures n % COUNTER_RANGE <= n
  {
  }

  lemma ReserveQueue(s: State, p: Packet, q: QueueId)
    requires Inv(s) && Enabled(s, Reserve(p)) && q in s.queues
    ensures QueueOk(Next(s, Reserve(p)), q)
  {
    assert QueueOk(s, q);
  }

  lemma ReserveApart(s: State, p: Packet, a: Packet, b: Packet)
    requires Inv(s) && Enabled(s, Reserve(p)) && ReserveSafe(s, p)
    requires a in s.pcs && b in s.pcs && a != b
    ensures !SameSlot(Next(s, Reserve(p)).pcs[a], Next(s, Reserve(p)).pcs[b])
  {
    assert !SameSlot(s.pcs[a], s.pcs[b]);
  }

  lemma ReserveInv(s: State, p: Packet)
    requires Inv(s) && Enabled(s, Reserve(p)) && ReserveSafe(s, p)
    ensures Inv(Next(s, Reserve(p)))
  {
    var t := Next(s, Reserve(p));
    forall r | r in t.pcs ensures PacketOk(t, r) { ReservePacket(s, p, r); }
    forall q | q in t.queues ensures QueueOk(t, q) { ReserveQueue(s, p, q); }
    forall a, b | a in t.pcs && b in t.pcs && a != b ensures !SameSlot(t.pcs[a], t.pcs[b]) {
      ReserveApart(s, p, a, b);
    }
  }

  /** An unsafe reservation breaks what the steps keep: a slot is claimed twice. */
  lemma ReserveUnsafe(s: State, p: Packet)
    requires Inv(s) && Enabled(s, Reserve(p)) && !ReserveSafe(s, p)
    ensures !Inv(Next(s, Reserve(p)))
  {
    var t, q := Next(s, Reserve(p)), s.pcs[p].q;
    var i := s.queues[q].entries % COUNTER_RANGE;
    assert QueueOk(s, q) && t.pcs[p] == Reserved(q, i);
    if Claimed(s, q, i) {
      var r :| r in s.pcs && s.pcs[r] == Reserved(q, i);
      assert t.pcs[r] == Reserved(q, i) && SameSlot(t.pcs[p], t.pcs[r]);
    } else {
      assert !PacketOk(t, p);
    }
  }

  lemma PublishPacket(s: State, p: Packet, r: Packet)
    requires Inv(s) && Enabled(s, Publish(p)) && r in s.pcs
    ensures PacketOk(Next(s, Publish(p)), r)
  {
  }

  lemma PublishQueue(s: State, p: Packet, q: QueueId)
    requires Inv(s) && Enabled(s, Publish(p)) && q in s.queues
    ensures QueueOk(Next(s, Publish(p)), q)
  {
  }

  lemma PublishInv(s: State, p: Packet)
    requires Inv(s) && Enabled(s, Publish(p))
    ensures Inv(Next(s, Publish(p)))
  {
    var t := Next(s, Publish(p));
    forall r | r in t.pcs ensures PacketOk(t, r) { PublishPacket(s, p, r); }
    forall q | q in t.queues ensures QueueOk(t, q) { PublishQueue(s, p, q); }
    forall a, b | a in t.pcs && b in t.pcs && a != b ensures !SameSlot(t.pcs[a], t.pcs[b]) {
      assert !SameSlot(s.pcs[a], s.pcs[b]);
    }
  }

  /** Steps that change neither queues nor enqueuers. */
  lemma WorkInv(s: State, step: Step)
    requires Inv(s) && Enabled(s, step) && (step.SetAction? || step.Schedule? || step.Look?)
    ensures Inv(Next(s, step))
  {
    var t := Next(s, step);
    forall r | r in t.pcs ensures PacketOk(t, r) { assert PacketOk(s, r); }
    forall q | q in t.queues ensures QueueOk(t, q) { assert QueueOk(s, q); }
  }

  lemma SwapInv(s: State, w: WorkId)
    requires Inv(s) && Enabled(s, Swap(w))
    ensures Inv(Next(s, Swap(w)))
  {
    var t := Next(s, Swap(w));
    forall r | r in t.pcs ensures PacketOk(t, r) { SwapPacket(s, w, r); }
    forall q | q in t.queues ensures QueueOk(t, q) { SwapQueue(s, w, q); }
  }

  lemma SwapPacket(s: State, w: WorkId, r: Packet)
    requires Inv(s) && Enabled(s, Swap(w)) && r in s.pcs
    ensures PacketOk(Next(s, Swap(w)), r)
  {
    assert PacketOk(s, r);
  }

  lemma SwapQueue(s: State, w: WorkId, q: QueueId)
    requires Inv(s) && Enabled(s, Swap(w)) && q in s.queues
    ensures QueueOk(Next(s, Swap(w)), q)
  {
    assert QueueOk(s, q);
  }

  predicate StageStep(step: Step)
  {
    step.NewQueue? || step.FreeNow? || step.Defer? || step.Callback? || step.Free?
  }

  lemma StagePacket(s: State, step: Step, r: Packet)
    requires Inv(s) && Enabled(s, step) && StageStep(step) && Safe(s, step) && r in s.pcs
    ensures PacketOk(Next(s, step), r)
  {
    assert PacketOk(s, r);
  }

  lemma StageQueue(s: State, step: Step, q: QueueId)
    requires Inv(s) && Enabled(s, step) && StageStep(step) && Safe(s, step) && q in Next(s, step).queues
    ensures QueueOk(Next(s, step), q)
  {
    if q in s.queues { assert QueueOk(s, q); }
  }

  lemma StageInv(s: State, step: Step)
    requires Inv(s) && Enabled(s, step) && StageStep(step) && Safe(s, step)
    ensures Inv(Next(s, step))
  {
    var t := Next(s, step);
    assert t.pcs == s.pcs;
    forall r | r in t.pcs ensures PacketOk(t, r) { StagePacket(s, step, r); }
    forall q | q in t.queues ensures QueueOk(t, q) { StageQueue(s, step, q); }
  }

  lemma FlushPacket(s: State, q: QueueId, r: Packet)
    requires Inv(s) && Enabled(s, Flush(q)) && r in s.pcs
    ensures PacketOk(Next(s, Flush(q)), r)
  {
  }

  lemma FlushQueue(s: State, q: QueueId, r: QueueId)
    requires Inv(s) && Enabled(s, Flush(q)) && r in s.queues
    ensures QueueOk(Next(s, Flush(q)), r)
  {
  }

  lemma FlushInv(s: State, q: QueueId)
    requires Inv(s) && Enabled(s, Flush(q))
    ensures Inv(Next(s, Flush(q)))
  {
    var t := Next(s, Flush(q));
    assert QueueOk(s, q);
    forall r | r in t.pcs ensures PacketOk(t, r) { FlushPacket(s, q, r); }
    forall r | r in t.queues ensures QueueOk(t, r) { FlushQueue(s, q, r); }
  }

  /** An unsafe free breaks what the steps keep: an enqueuer has a freed queue, or a packet is in one. */
  lemma FreeUnsafe(s: State, q: QueueId)
    requires Inv(s) && Enabled(s, FreeNow(q)) && !FreeSafe(s, q)
    ensures !Inv(Next(s, FreeNow(q)))
  {
    var t := Next(s, FreeNow(q));
    if p :| p in s.pcs && UnderWay(s.pcs[p]) && s.pcs[p].q == q {
      assert !PacketOk(t, p);
    } else {
      assert !QueueOk(t, q);
    }
  }

  /** Every step keeps the invariant exactly if it is safe; only reservations and immediate frees can be unsafe. */
  lemma StepInvIff(s: State, step: Step)
    requires Inv(s) && Enabled(s, step)
    ensures Inv(Next(s, step)) <==> Safe(s, step)
  {
    match step
    case Arrive(p) => ArriveInv(s, p);
    case Load(p) => LoadInv(s, p);
    case Reserve(p) => if ReserveSafe(s, p) { ReserveInv(s, p); } else { ReserveUnsafe(s, p); }
    case Publish(p) => PublishInv(s, p);
    case Flush(q) => FlushInv(s, q);
    case FreeNow(q) => if FreeSafe(s, q) { StageInv(s, step); } else { FreeUnsafe(s, q); }
    case SetAction(_) => WorkInv(s, step);
    case Schedule(_, _) => WorkInv(s, step);
    case Look(_) => WorkInv(s, step);
    case Swap(w) => SwapInv(s, w);
    case _ => StageInv(s, step);
  }

  // ----- whole runs

  ghost predicate Path(states: seq<State>, steps: seq<Step>, max: nat)
  {
    && |states| == |steps| + 1
    && states[0] == Init(max)
    && (forall i :: 0 <= i < |steps| ==> Enabled(states[i], steps[i]) && states[i + 1] == Next(states[i], steps[i]))
  }

  /** A run all of whose steps are safe. */
  ghost predicate Run(states: seq<State>, steps: seq<Step>, max: nat)
  {
    && Path(states, steps, max)
    && (forall i :: 0 <= i < |steps| ==> Safe(states[i], steps[i]))
  }

  lemma {:induction false} RunInv(states: seq<State>, steps: seq<Step>, max: nat, i: nat)
    requires Run(states, steps, max) && i <= |steps|
    ensures Inv(states[i])
  {
    if i > 0 {
      RunInv(states, steps, max, i - 1);
      StepInvIff(states[i - 1], steps[i - 1]);
    } else {
      InitInv(max);
    }
  }

  /** A run keeps the invariant throughout exactly if all its steps are safe. */
  lemma {:induction false} RunInvIff(states: seq<State>, steps: seq<Step>, max: nat)
    requires Path(states, steps, max)
    ensures Run(states, steps, max) <==> forall i :: 0 <= i < |states| ==> Inv(states[i])
  {
    if Run(states, steps, max) {
      forall i | 0 <= i < |states| ensures Inv(states[i]) { RunInv(states, steps, max, i); }
    }
    if forall i :: 0 <= i < |states| ==> Inv(states[i]) {
      forall i | 0 <= i < |steps| ensures Safe(states[i], steps[i]) {
        assert Inv(states[i]) && Inv(states[i + 1]);
        StepInvIff(states[i], steps[i]);
      }
    }
  }

  /** What became of a packet: it was flushed, was dropped, waits in a slot, or its enqueuer is not done. */
  predicate Waiting(s: State, p: Packet)
  {
    && p in s.pcs && s.pcs[p].Published?
    && s.pcs[p].q in s.queues && s.pcs[p].i < |s.queues[s.pcs[p].q].slots|
    && s.queues[s.pcs[p].q].slots[s.pcs[p].i] == Full(p)
  }

  /**
   * In every state of every run, every packet handed in is in exactly one of these places: with its
   * enqueuer, in one slot of a queue that is not freed, flushed once, or dropped once.
   */
  lemma EachPacketOnce(states: seq<State>, steps: seq<Step>, max: nat, i: nat, p: Packet)
    requires Run(states, steps, max) && i <= |steps| && p in states[i].pcs
    ensures var s := states[i];
            var withEnqueuer := if s.pcs[p].Arrived? || UnderWay(s.pcs[p]) then 1 else 0;
            var inSlot := if Waiting(s, p) then 1 else 0;
            s.flushed[p] + s.dropped[p] + withEnqueuer + inSlot == 1
    ensures Waiting(states[i], p) ==> !states[i].queues[states[i].pcs[p].q].stage.Freed?
  {
    RunInv(states, steps, max, i);
    assert PacketOk(states[i], p);
    if Waiting(states[i], p) {
      assert QueueOk(states[i], states[i].pcs[p].q);
    }
  }

  /** A freed queue holds no packet and no enqueuer works on it any more. */
  lemma FreedIsEmpty(states: seq<State>, steps: seq<Step>, max: nat, i: nat, q: QueueId)
    requires Run(states, steps, max) && i <= |steps|
    requires q in states[i].queues && states[i].queues[q].stage.Freed?
    ensures states[i].queues[q].slots == EmptySlots(max)
    ensures forall p :: p in states[i].pcs && UnderWay(states[i].pcs[p]) ==> states[i].pcs[p].q != q
  {
    RunInv(states, steps, max, i);
    MaxKept(states, steps, max, i);
    assert QueueOk(states[i], q);
    forall p | p in states[i].pcs && UnderWay(states[i].pcs[p]) ensures states[i].pcs[p].q != q {
      assert PacketOk(states[i], p);
    }
  }

  lemma {:induction false} MaxKept(states: seq<State>, steps: seq<Step>, max: nat, i: nat)
    requires Path(states, steps, max) && i <= |steps|
    ensures states[i].max == max
  {
    if i > 0 {
      MaxKept(states, steps, max, i - 1);
      assert states[i] == Next(states[i - 1], steps[i - 1]);
    }
  }

  // ----- a flow on hold keeps its packets

  ghost predicate HeldFrom(states: seq<State>, j: nat, i: nat)
    requires j <= i < |states|
  {
    forall k {:trigger states[k]} :: j <= k <= i ==> states[k].hold
  }

  /** Works that have found a queue to detach in `t` had found it in `s`. */
  ghost predicate NoneLooked(s: State, t: State)
  {
    forall w {:trigger t.works[w]} :: w in t.works && t.works[w].Looked? ==> w in s.works && s.works[w] == t.works[w]
  }

  /** While a flow is on hold, no work finds a queue to detach that had not found it before. */
  lemma {:induction false} HeldLooks(states: seq<State>, steps: seq<Step>, max: nat, j: nat, i: nat)
    requires Path(states, steps, max) && j <= i <= |steps| && HeldFrom(states, j, i)
    ensures NoneLooked(states[j], states[i])
  {
    if j < i {
      HeldLooks(states, steps, max, j, i - 1);
      assert states[i - 1].hold;
      LooksBefore(states[i - 1], steps[i - 1]);
    }
  }

  lemma LooksBefore(s: State, step: Step)
    requires Enabled(s, step) && s.hold
    ensures NoneLooked(s, Next(s, step))
  {
  }

  /** The step detaches the queue: by the swap of a work that had found it before. */
  ghost predicate Detaches(s: State, step: Step, q: QueueId)
  {
    step.Swap? && step.w in s.works && s.works[step.w].Looked? && s.works[step.w].q == q
  }

  ghost predicate DetachedAt(states: seq<State>, steps: seq<Step>, k: nat, j: nat, q: QueueId)
    requires k < |steps| && j < |states|
  {
    Detaches(states[j], steps[k], q)
  }

  /** A queue that is not current, or never was there, does not become current again once it has been there. */
  lemma CurrentStep(s: State, step: Step, q: QueueId)
    requires Enabled(s, step) && q in s.queues
    ensures q in Next(s, step).queues
    ensures Next(s, step).current == Some(q) <==> s.current == Some(q) && !Detaches(s, step, q)
  {
  }

  lemma {:induction false} StaysCurrent(states: seq<State>, steps: seq<Step>, max: nat, j: nat, i: nat, q: QueueId)
    requires Path(states, steps, max) && j <= i <= |steps| && q in states[j].queues && states[j].current == Some(q)
    ensures q in states[i].queues
    ensures states[i].current == Some(q) <==> forall k :: j <= k < i ==> !Detaches(states[k], steps[k], q)
  {
    if j < i {
      StaysCurrent(states, steps, max, j, i - 1, q);
      CurrentStep(states[i - 1], steps[i - 1], q);
    }
  }

  /**
   * A flow that is on hold keeps its queue, whatever else happens, exactly if no work that had found the queue
   * before swaps it out.
   */
  lemma HeldKeepsQueueIff(states: seq<State>, steps: seq<Step>, max: nat, j: nat, i: nat, q: QueueId)
    requires Path(states, steps, max) && j <= i <= |steps| && HeldFrom(states, j, i)
    requires q in states[j].queues && states[j].current == Some(q)
    ensures states[i].current == Some(q) <==> forall k :: j <= k < i ==> !DetachedAt(states, steps, k, j, q)
  {
    StaysCurrent(states, steps, max, j, i, q);
    forall k | j <= k < i ensures Detaches(states[k], steps[k], q) <==> DetachedAt(states, steps, k, j, q) {
      HeldLooks(states, steps, max, j, k);
      assert Enabled(states[k], steps[k]);
    }
  }

  /** No packet is taken out of a queue that is attached. */
  ghost predicate Kept(s: State)
  {
    forall p {:trigger s.pcs[p]} :: p in s.pcs && s.pcs[p].Published? && s.current == Some(s.pcs[p].q) ==> Waiting(s, p)
  }

  lemma KeptStep(s: State, step: Step)
    requires Inv(s) && Kept(s) && Enabled(s, step) && Inv(Next(s, step))
    ensures Kept(Next(s, step))
  {
    var t := Next(s, step);
    forall p | p in t.pcs && t.pcs[p].Published? && t.current == Some(t.pcs[p].q) ensures Waiting(t, p) {
      KeptPacket(s, step, p);
    }
  }

  lemma KeptPacket(s: State, step: Step, p: Packet)
    requires Inv(s) && Kept(s) && Enabled(s, step) && Inv(Next(s, step)) && p in Next(s, step).pcs
    requires var t := Next(s, step); t.pcs[p].Published? && t.current == Some(t.pcs[p].q)
    ensures Waiting(Next(s, step), p)
  {
    var t := Next(s, step);
    var q, i := t.pcs[p].q, t.pcs[p].i;
    if step != Publish(p) {
      PublishedBefore(s, step, p);
      assert PacketOk(s, p) && Waiting(s, p);
      KeptSlot(s, step, q, i, p);
    }
  }

  lemma PublishedBefore(s: State, step: Step, p: Packet)
    requires Inv(s) && Enabled(s, step) && step != Publish(p)
    requires p in Next(s, step).pcs && Next(s, step).pcs[p].Published?
    ensures p in s.pcs && s.pcs[p] == Next(s, step).pcs[p]
    ensures Next(s, step).current == Some(s.pcs[p].q) ==> s.current == Some(s.pcs[p].q)
  {
    assert p in s.pcs && s.pcs[p] == Next(s, step).pcs[p] && PacketOk(s, p);
    CurrentStep(s, step, s.pcs[p].q);
  }

  lemma KeptSlot(s: State, step: Step, q: QueueId, i: nat, p: Packet)
    requires Inv(s) && Enabled(s, step) && s.current == Some(q) && q in s.queues && i < |s.queues[q].slots|
    requires s.queues[q].slots[i] == Full(p)
    ensures var t := Next(s, step); q in t.queues && i < |t.queues[q].slots| && t.queues[q].slots[i] == Full(p)
  {
    assert QueueOk(s, q);
    if step.Publish? { assert PacketOk(s, step.p); }
  }

  lemma {:induction false} RunKept(states: seq<State>, steps: seq<Step>, max: nat, i: nat)
    requires Run(states, steps, max) && i <= |steps|
    ensures Kept(states[i])
  {
    if i > 0 {
      RunKept(states, steps, max, i - 1);
      RunInv(states, steps, max, i - 1);
      RunInv(states, steps, max, i);
      KeptStep(states[i - 1], steps[i - 1]);
    }
  }

  /**
   * So if no work has found the queue when the flow is put on hold, every packet ever stored in the queue is still
   * in it, and not flushed, as long as the flow is on hold.
   */
  lemma HeldKeepsPackets(states: seq<State>, steps: seq<Step>, max: nat, j: nat, i: nat, q: QueueId, p: Packet)
    requires Run(states, steps, max) && j <= i <= |steps| && HeldFrom(states, j, i) && states[j].current == Some(q)
    requires forall w :: w in states[j].works ==> !states[j].works[w].Looked?
    ensures states[i].current == Some(q)
    ensures p in states[i].pcs && states[i].pcs[p].Published? && states[i].pcs[p].q == q ==>
              Waiting(states[i], p) && states[i].flushed[p] == 0
  {
    RunInv(states, steps, max, j);
    RunInv(states, steps, max, i);
    HeldKeepsQueueIff(states, steps, max, j, i, q);
    RunKept(states, steps, max, i);
    if p in states[i].pcs { assert PacketOk(states[i], p); }
  }

  // ----- what is enough for the steps to be safe

  /** While the counter has not wrapped, a reservation is safe. */
  lemma SafeBeforeWrap(s: State, p: Packet)
    requires Inv(s) && Enabled(s, Reserve(p)) && s.queues[s.pcs[p].q].entries < COUNTER_RANGE
    ensures ReserveSafe(s, p)
  {
    var q := s.pcs[p].q;
    var i := s.queues[q].entries;
    assert QueueOk(s, q) && i % COUNTER_RANGE == i;
    assert i < s.max && s.queues[q].slots[i].Full? ==> PacketOk(s, s.queues[q].slots[i].p);
    assert forall r :: r in s.pcs ==> PacketOk(s, r) && s.pcs[r] != Reserved(q, i);
  }

  /**
   * A work is given deferral data if there is a queue when it is scheduled, and no queue is attached while
   * a work without deferral data is outstanding.
   */
  ghost predicate Patient(s: State, step: Step)
  {
    && (step.Schedule? && !step.deferred ==> s.current.None?)
    && (step.NewQueue? ==> forall w :: w in s.works ==> s.works[w].deferred)
  }

  /** Works without deferral data have no queue to find. */
  ghost predicate Deferred(s: State)
  {
    && (forall w {:trigger s.works[w]} :: w in s.works && !s.works[w].deferred ==> s.works[w].Ready? && s.current.None?)
    && (forall q {:trigger s.queues[q]} :: q in s.queues && s.queues[q].stage.FirstPass? ==> s.queues[q].stage.deferred)
  }

  lemma PatientStep(s: State, step: Step)
    requires Enabled(s, step) && Patient(s, step) && Deferred(s)
    ensures Deferred(Next(s, step)) && !step.FreeNow?
  {
  }

  ghost predicate InRange(s: State)
  {
    forall q :: q in s.queues ==> s.queues[q].entries < COUNTER_RANGE
  }

  /** In patient runs no queue is freed at once, so with fewer than 2^32 reservations on a queue all steps are safe. */
  lemma {:induction false} PatientIsSafe(states: seq<State>, steps: seq<Step>, max: nat, i: nat)
    requires Path(states, steps, max) && i <= |steps|
    requires forall k {:trigger states[k]} :: 0 <= k < |steps| ==> Patient(states[k], steps[k]) && InRange(states[k])
    ensures Inv(states[i]) && Deferred(states[i])
    ensures i < |steps| ==> Safe(states[i], steps[i])
  {
    if i > 0 {
      PatientIsSafe(states, steps, max, i - 1);
      PatientNext(states[i - 1], steps[i - 1]);
    } else {
      InitInv(max);
    }
    if i < |steps| { PatientSafe(states[i], steps[i]); }
  }

  lemma PatientNext(s: State, step: Step)
    requires Inv(s) && Deferred(s) && Enabled(s, step) && Patient(s, step) && InRange(s)
    ensures Inv(Next(s, step)) && Deferred(Next(s, step))
  {
    PatientSafe(s, step);
    StepInvIff(s, step);
    PatientStep(s, step);
  }

  lemma PatientSafe(s: State, step: Step)
    requires Inv(s) && Deferred(s) && Enabled(s, step) && Patient(s, step) && InRange(s)
    ensures Safe(s, step)
  {
    if step.Reserve? {
      SafeBeforeWrap(s, step.p);
    } else {
      PatientStep(s, step);
    }
  }

  // ----- runs with an unsafe step

  ghost predicate Reachable(s: State, max: nat)
  {
    exists states, steps :: Path(states, steps, max) && states[|steps|] == s
  }

  lemma ReachInit(max: nat)
    ensures Reachable(Init(max), max)
  {
    assert Path([Init(max)], [], max);
  }

  lemma ReachStep(s: State, step: Step, max: nat)
    requires Reachable(s, max) && Enabled(s, step)
    ensures Reachable(Next(s, step), max)
  {
    var states, steps :| Path(states, steps, max) && states[|steps|] == s;
    var t := Next(s, step);
    assert Path(states + [t], steps + [step], max);
    assert (states + [t])[|steps + [step]|] == t;
  }

  /** Packets up to `n` have been handed in for one queue, and the first is in its first slot. */
  ghost predicate Offered(s: State, n: nat, max: nat)
  {
    && s.max == max && s.current == Some(0) && 0 in s.queues
    && s.queues[0].entries == n && |s.queues[0].slots| == max
    && (forall p {:trigger s.pcs[p]} :: p in s.pcs ==> p < n) && s.flushed[0] == 0
    && (n > 0 && max > 0 ==> 0 in s.pcs && s.pcs[0] == Published(0, 0) && s.queues[0].slots[0] == Full(0))
  }

  /** The next packet arrives, loads the queue pointer and takes a number. */
  lemma Take(s: State, n: nat, max: nat) returns (t: State)
    requires Reachable(s, max) && Offered(s, n, max)
    ensures Reachable(t, max) && t.max == max && t.current == Some(0) && t.flushed == s.flushed
    ensures t.queues == s.queues[0 := s.queues[0].(entries := n + 1)] && n in t.pcs
    ensures t.pcs == s.pcs[n := if n % COUNTER_RANGE >= max then Dropped else Reserved(0, n % COUNTER_RANGE)]
  {
    var a := Next(s, Arrive(n));
    ReachStep(s, Arrive(n), max);
    var b := Next(a, Load(n));
    ReachStep(a, Load(n), max);
    t := Next(b, Reserve(n));
    ReachStep(b, Reserve(n), max);
  }

  lemma Offer(s: State, n: nat, max: nat) returns (t: State)
    requires Reachable(s, max) && Offered(s, n, max) && n < COUNTER_RANGE
    ensures Reachable(t, max) && Offered(t, n + 1, max)
  {
    t := Take(s, n, max);
    if n < max {
      var u := Next(t, Publish(n));
      ReachStep(t, Publish(n), max);
      t := u;
    }
  }

  lemma {:induction false} OfferMany(n: nat, max: nat) returns (s: State)
    requires n <= COUNTER_RANGE
    ensures Reachable(s, max) && Offered(s, n, max)
  {
    if n == 0 {
      ReachInit(max);
      ReachStep(Init(max), NewQueue(0), max);
      s := Next(Init(max), NewQueue(0));
    } else {
      s := OfferMany(n - 1, max);
      s := Offer(s, n - 1, max);
    }
  }

  /** The packet handed in after 2^32 others takes the slot of the first, which is never flushed. */
  lemma WrapLosesPacket(max: nat) returns (s: State)
    requires max > 0
    ensures Reachable(s, max) && 0 in s.pcs && s.pcs[0] == Published(0, 0)
    ensures s.flushed[0] == 0 && !Waiting(s, 0)
  {
    var n := COUNTER_RANGE;
    var a := OfferMany(n, max);
    var b := Take(a, n, max);
    assert b.pcs[n] == Reserved(0, 0);
    ReachStep(b, Publish(n), max);
    s := Next(b, Publish(n));
  }

  /** A queue that a work without deferral data flushes while an enqueuer holds it. */
  ghost predicate Passing(s: State, k: nat, max: nat)
  {
    && s.max == max && 0 in s.queues && 0 in s.pcs && s.pcs[0] == Holding(0) && s.flushed[0] == 0
    && s.queues[0].stage == FirstPass(k, false) && s.queues[0].entries == 0 && s.queues[0].slots == EmptySlots(max)
  }

  lemma {:induction false} PassOn(s: State, k: nat, max: nat) returns (t: State)
    requires Reachable(s, max) && Passing(s, k, max) && k <= max
    ensures Reachable(t, max) && Passing(t, max, max)
    decreases max - k
  {
    t := s;
    if k < max {
      ReachStep(s, Flush(0), max);
      t := Next(s, Flush(0));
      assert t.queues[0].slots == EmptySlots(max);
      t := PassOn(t, k + 1, max);
    }
  }

  /**
   * A work is scheduled while there is no queue; the flow is put on hold and off again before it runs. The
   * work frees the new queue at once while an enqueuer has it, and the packet ends in the freed queue.
   */
  lemma FreedUnderEnqueuer(max: nat) returns (before: State, after: State)
    requires max > 0
    ensures Reachable(before, max) && before.current.None? && Enabled(before, Schedule(0, false))
    ensures Reachable(after, max) && 0 in after.queues && after.queues[0].stage == Freed && Waiting(after, 0)
  {
    ReachInit(max);
    before := Init(max);
    var s0 := Next(before, Schedule(0, false));
    ReachStep(before, Schedule(0, false), max);
    var s1 := Next(s0, NewQueue(0));
    ReachStep(s0, NewQueue(0), max);
    var s2 := Next(s1, Arrive(0));
    ReachStep(s1, Arrive(0), max);
    var s3 := Next(s2, Load(0));
    ReachStep(s2, Load(0), max);
    var s4 := Next(s3, SetAction(false));
    ReachStep(s3, SetAction(false), max);
    after := FreedUnder(s4, max);
  }

  lemma FreedUnder(s: State, max: nat) returns (after: State)
    requires max > 0 && Reachable(s, max) && s.max == max && s.current == Some(0) && !s.hold
    requires 0 in s.works && s.works[0] == Ready(false) && 0 in s.pcs && s.pcs[0] == Holding(0) && s.flushed[0] == 0
    requires 0 in s.queues && s.queues[0] == Queue(0, EmptySlots(max), Attached)
    ensures Reachable(after, max) && 0 in after.queues && after.queues[0].stage == Freed && Waiting(after, 0)
  {
    var a := Next(s, Look(0));
    ReachStep(s, Look(0), max);
    var b := Next(a, Swap(0));
    ReachStep(a, Swap(0), max);
    assert Passing(b, 0, max);
    var c := PassOn(b, 0, max);
    after := LateStore(c, max);
  }

  lemma LateStore(s: State, max: nat) returns (after: State)
    requires max > 0 && Reachable(s, max) && Passing(s, max, max)
    ensures Reachable(after, max) && 0 in after.queues && after.queues[0].stage == Freed && Waiting(after, 0)
  {
    var d := Next(s, FreeNow(0));
    ReachStep(s, FreeNow(0), max);
    var e := Next(d, Reserve(0));
    ReachStep(d, Reserve(0), max);
    assert e.pcs[0] == Reserved(0, 0);
    after := Next(e, Publish(0));
    ReachStep(e, Publish(0), max);
  }

  /** One packet is in the queue of a flow, and nobody else is about. */
  ghost predicate Stored(s: State, max: nat)
  {
    && s.max == max && s.current == Some(0) && s.works == map[] && s.flushed[0] == 0
    && 0 in s.queues && s.queues[0].stage.Attached? && |s.queues[0].slots| == max > 0 && s.queues[0].slots[0] == Full(0)
  }

  lemma StoredReached(max: nat) returns (s: State)
    requires max > 0
    ensures Reachable(s, max) && Stored(s, max)
  {
    ReachInit(max);
    var a := Next(Init(max), NewQueue(0));
    ReachStep(Init(max), NewQueue(0), max);
    var b := Next(a, Arrive(0));
    ReachStep(a, Arrive(0), max);
    var c := Next(b, Load(0));
    ReachStep(b, Load(0), max);
    var d := Next(c, Reserve(0));
    ReachStep(c, Reserve(0), max);
    assert c.queues[0].entries == 0 && 0 % COUNTER_RANGE == 0;
    assert d.pcs[0] == Reserved(0, 0) && d.works == map[] && d.queues[0].slots == EmptySlots(max);
    s := Next(d, Publish(0));
    ReachStep(d, Publish(0), max);
  }

  /**
   * A work that has looked at the flow while it was not on hold takes the queue away when it is on hold again: the
   * packet is flushed although the flow is on hold.
   */
  lemma HeldAgainFlushed(max: nat) returns (s: State)
    requires max > 0
    ensures Reachable(s, max) && s.hold && s.current.None? && s.flushed[0] == 1
  {
    var a := StoredReached(max);
    var b := Next(a, SetAction(false));
    ReachStep(a, SetAction(false), max);
    var c := Next(b, Schedule(0, true));
    ReachStep(b, Schedule(0, true), max);
    var d := Next(c, Look(0));
    ReachStep(c, Look(0), max);
    assert d.works[0] == Looked(0, true);
    var e := Next(d, SetAction(true));
    ReachStep(d, SetAction(true), max);
    s := SwappedAndFlushed(e, max);
  }

  lemma SwappedAndFlushed(s: State, max: nat) returns (t: State)
    requires Reachable(s, max) && s.hold && s.max == max && s.current == Some(0) && s.flushed[0] == 0
    requires 0 in s.works && s.works[0] == Looked(0, true)
    requires 0 in s.queues && |s.queues[0].slots| == max > 0 && s.queues[0].slots[0] == Full(0)
    ensures Reachable(t, max) && t.hold && t.current.None? && t.flushed[0] == 1
  {
    var a := Next(s, Swap(0));
    ReachStep(s, Swap(0), max);
    assert a.queues[0].stage == FirstPass(0, true);
    t := Next(a, Flush(0));
    ReachStep(a, Flush(0), max);
  }
}
