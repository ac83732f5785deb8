/** What a marker makes a candidate: dead flows only, and only with a dead reverse flow or without one. */
module FlowEvictMarks {
  import opened FlowEvict
  import opened FlowEvictRuns

  // ----- what a marker has done before

  /** The marker has found the reverse entry, if there is one, and goes on. */
  predicate Goes(pc: Pc)
  {
    pc.Peer? || pc.Both? || pc.Ready? || pc.Marked?
  }

  /** The reverse entry it goes on with, or a negative number. */
  function Partner(pc: Pc): int
    requires Goes(pc)
  {
    if pc.Peer? || pc.Both? then pc.r else pc.peer
  }

  ghost predicate Stays(states: seq<State>, m: MarkerId, f: Index, a: nat, i: nat)
    requires i < |states|
  {
    forall k {:trigger states[k]} :: a < k <= i ==> m in states[k].markers && states[k].markers[m].f == f
  }

  /** A dead flow in use that is not a candidate already and is not to be deleted. */
  predicate Findable(fl: Flow)
  {
    fl.dead && fl.valid && fl.active && !fl.candidate && !fl.deleteMarked
  }

  /** The entry has no valid reverse entry, or it has `r`, which is dead. */
  predicate DeadOrNone(s: State, f: Index, r: int)
  {
    && f in s.flows
    && var back := s.flows[f].rflow;
       if r >= 0 then back == r && IsFlow(s, r) && s.flows[r].valid && s.flows[r].dead
       else !(IsFlow(s, back) && s.flows[back].valid)
  }

  /** The marker has found the flow in step `a`, dead, and has been at it since. */
  ghost predicate Visit(states: seq<State>, steps: seq<Step>, a: nat, i: nat, m: MarkerId, f: Index)
    requires i < |states| == |steps| + 1
  {
    a < i && steps[a] == Look(m, f) && f in states[a].flows && Findable(states[a].flows[f]) && Stays(states, m, f, a, i)
  }

  /** In step `b` the marker has looked for the reverse entry: there was no valid one, or a dead one. */
  ghost predicate Found(states: seq<State>, steps: seq<Step>, b: nat, i: nat, m: MarkerId, f: Index, r: int)
    requires i < |states| == |steps| + 1
  {
    && b < i && steps[b] == FindPeer(m) && m in states[b].markers && states[b].markers[m] == Own(f)
    && DeadOrNone(states[b], f, r)
    && Stays(states, m, f, b, i)
  }

  /** In step `c` the marker has set the MODIFIED bit of the reverse entry. */
  ghost predicate Took(states: seq<State>, steps: seq<Step>, c: nat, m: MarkerId, r: int)
    requires c < |steps| < |states|
  {
    && steps[c] == TakePeer(m) && r in states[c].flows && Takeable(states[c].flows[r])
    && r in states[c + 1].flows && states[c + 1].flows[r].modified
  }

  /** In step `d` the marker has made the reverse flow a candidate. */
  ghost predicate Makes(states: seq<State>, steps: seq<Step>, d: nat, step: Step, f: int)
    requires d < |steps| < |states|
  {
    && steps[d] == step && f in states[d].flows && !states[d].flows[f].candidate
    && f in states[d + 1].flows && states[d + 1].flows[f].candidate
  }

  /** The steps a marker takes. */
  predicate Marks(step: Step)
  {
    || step.Look? || step.Take? || step.FindPeer? || step.TakePeer? || step.MarkPeer? || step.MarkSelf?
    || step.Schedule? || step.ScheduleFails? || step.ReleasePeer? || step.ReleaseSelf?
  }

  lemma OthersKeepMarkers(s: State, step: Step)
    requires Enabled(s, step) && !Marks(step)
    ensures Next(s, step).markers == s.markers
  {
  }

  lemma OtherMarkersStay(s: State, step: Step, m: MarkerId)
    requires Enabled(s, step) && Marks(step) && step.m != m
    ensures m in Next(s, step).markers <==> m in s.markers
    ensures m in s.markers ==> Next(s, step).markers[m] == s.markers[m]
  {
  }

  /** Only its own steps move a marker. */
  lemma OwnSteps(s: State, step: Step, m: MarkerId)
    requires Enabled(s, step) && !(Marks(step) && step.m == m)
    ensures m in Next(s, step).markers <==> m in s.markers
    ensures m in s.markers ==> Next(s, step).markers[m] == s.markers[m]
  {
    if Marks(step) { OtherMarkersStay(s, step, m); } else { OthersKeepMarkers(s, step); }
  }

  lemma MarkerBefore(s: State, step: Step, m: MarkerId)
    requires Enabled(s, step) && m in Next(s, step).markers
    ensures var f := Next(s, step).markers[m].f;
            if m in s.markers then s.markers[m].f == f else step == Look(m, f) && f in s.flows && Findable(s.flows[f])
  {
    if !(Marks(step) && step.m == m) { OwnSteps(s, step, m); }
  }

  lemma {:induction false} VisitOf(states: seq<State>, steps: seq<Step>, i: nat, m: MarkerId) returns (a: nat)
    requires Path(states, steps) && i <= |steps| && m in states[i].markers
    ensures Visit(states, steps, a, i, m, states[i].markers[m].f)
  {
    assert i > 0;
    a := i - 1;
    assert Takes(states[i - 1], steps[i - 1], states[i]);
    MarkerBefore(states[i - 1], steps[i - 1], m);
    if m in states[i - 1].markers { a := VisitOf(states, steps, i - 1, m); }
  }

  lemma GoesBefore(s: State, step: Step, m: MarkerId)
    requires Enabled(s, step) && m in Next(s, step).markers && Goes(Next(s, step).markers[m])
    ensures m in s.markers && s.markers[m].f == Next(s, step).markers[m].f
    ensures var pc := Next(s, step).markers[m];
            if step == FindPeer(m) then
              s.markers[m] == Own(pc.f) && DeadOrNone(s, pc.f, Partner(pc))
            else Goes(s.markers[m]) && Partner(s.markers[m]) == Partner(pc)
  {
    if !(Marks(step) && step.m == m) { OwnSteps(s, step, m); }
  }

  lemma {:induction false} FoundBy(states: seq<State>, steps: seq<Step>, i: nat, m: MarkerId) returns (b: nat)
    requires Path(states, steps) && i <= |steps| && m in states[i].markers && Goes(states[i].markers[m])
    ensures Found(states, steps, b, i, m, states[i].markers[m].f, Partner(states[i].markers[m]))
  {
    assert i > 0;
    assert Takes(states[i - 1], steps[i - 1], states[i]);
    GoesBefore(states[i - 1], steps[i - 1], m);
    if steps[i - 1] == FindPeer(m) { b := i - 1; } else { b := FoundBy(states, steps, i - 1, m); }
  }

  lemma BothBefore(s: State, step: Step, m: MarkerId)
    requires Enabled(s, step) && m in Next(s, step).markers
    ensures Next(s, step).markers[m].Both? ==>
      var r := Next(s, step).markers[m].r;
      || (m in s.markers && s.markers[m] == Next(s, step).markers[m])
      || (step == TakePeer(m) && m in s.markers && Goes(s.markers[m]) && Partner(s.markers[m]) == r
          && r in s.flows && Takeable(s.flows[r]) && r in Next(s, step).flows && Next(s, step).flows[r].modified)
  {
    if !(Marks(step) && step.m == m) { OwnSteps(s, step, m); }
  }

  lemma {:induction false} TookBy(states: seq<State>, steps: seq<Step>, i: nat, m: MarkerId) returns (b: nat, c: nat)
    requires Path(states, steps) && i <= |steps| && m in states[i].markers && states[i].markers[m].Both?
    ensures var pc := states[i].markers[m];
            b < c < i && Found(states, steps, b, i, m, pc.f, pc.r) && Took(states, steps, c, m, pc.r)
  {
    assert i > 0;
    var s, pc := states[i - 1], states[i].markers[m];
    assert Takes(s, steps[i - 1], states[i]);
    BothBefore(s, steps[i - 1], m);
    MarkerBefore(s, steps[i - 1], m);
    if s.markers[m] == pc {
      b, c := TookBy(states, steps, i - 1, m);
    } else {
      b := FoundBy(states, steps, i - 1, m);
      c := i - 1;
    }
    FoundSince(states, steps, b, i, m, pc.f, pc.r);
  }

  lemma FoundSince(states: seq<State>, steps: seq<Step>, b: nat, i: nat, m: MarkerId, f: Index, r: int)
    requires 0 < i < |states| == |steps| + 1 && Found(states, steps, b, i - 1, m, f, r)
    requires m in states[i].markers && states[i].markers[m].f == f
    ensures Found(states, steps, b, i, m, f, r)
  {
  }

  lemma MarkedBefore(s: State, step: Step, m: MarkerId)
    requires Enabled(s, step) && m in Next(s, step).markers
    ensures var pc := Next(s, step).markers[m];
      (pc.Ready? || pc.Marked?) && pc.peer >= 0 ==>
        && m in s.markers && s.markers[m].f == pc.f
        && if s.markers[m].Both? then
             && step == MarkPeer(m) && s.markers[m].r == pc.peer
             && pc.peer in s.flows && !s.flows[pc.peer].candidate
             && pc.peer in Next(s, step).flows && Next(s, step).flows[pc.peer].candidate
           else step == FindPeer(m) || ((s.markers[m].Ready? || s.markers[m].Marked?) && s.markers[m].peer == pc.peer)
    ensures step == FindPeer(m) && Next(s, step).markers[m].Ready? ==> Next(s, step).markers[m].peer < 0
    ensures step == FindPeer(m) ==> !Next(s, step).markers[m].Marked?
  {
    if !(Marks(step) && step.m == m) { OwnSteps(s, step, m); }
  }

  /** The marker has found the reverse entry dead, has taken it, and has made it a candidate. */
  ghost predicate TookAndMarked(states: seq<State>, steps: seq<Step>, i: nat, m: MarkerId, f: Index, r: int)
    requires i < |states| == |steps| + 1
  {
    exists b, c, d :: 0 <= b < c < d < i && Found(states, steps, b, i, m, f, r) && Took(states, steps, c, m, r)
      && Makes(states, steps, d, MarkPeer(m), r)
  }

  lemma {:induction false} MarkedBy(states: seq<State>, steps: seq<Step>, i: nat, m: MarkerId)
    requires Path(states, steps) && i <= |steps| && m in states[i].markers
    requires (states[i].markers[m].Ready? || states[i].markers[m].Marked?) && states[i].markers[m].peer >= 0
    ensures TookAndMarked(states, steps, i, m, states[i].markers[m].f, states[i].markers[m].peer)
  {
    assert i > 0;
    var s, f, r := states[i - 1], states[i].markers[m].f, states[i].markers[m].peer;
    assert Takes(s, steps[i - 1], states[i]);
    MarkedBefore(s, steps[i - 1], m);
    if s.markers[m].Both? {
      var b, c := TookBy(states, steps, i - 1, m);
      FoundSince(states, steps, b, i, m, f, r);
      assert Makes(states, steps, i - 1, MarkPeer(m), r);
    } else {
      MarkedBy(states, steps, i - 1, m);
      MarkedSince(states, steps, i, m, f, r);
    }
  }

  lemma MarkedSince(states: seq<State>, steps: seq<Step>, i: nat, m: MarkerId, f: Index, r: int)
    requires 0 < i < |states| == |steps| + 1 && TookAndMarked(states, steps, i - 1, m, f, r)
    requires m in states[i].markers && states[i].markers[m].f == f
    ensures TookAndMarked(states, steps, i, m, f, r)
  {
    var b, c, d :| 0 <= b < c < d < i - 1 && Found(states, steps, b, i - 1, m, f, r) && Took(states, steps, c, m, r)
      && Makes(states, steps, d, MarkPeer(m), r);
    FoundSince(states, steps, b, i, m, f, r);
  }

  // ----- what becomes a candidate

  /** Marker `m` makes its forward flow a candidate: it has found that dead, without a valid reverse flow or with a
      dead one, which it has taken and made a candidate too. */
  ghost predicate ForwardOf(states: seq<State>, steps: seq<Step>, i: nat, m: MarkerId, f: Index)
    requires i < |steps| == |states| - 1
  {
    && Makes(states, steps, i, MarkSelf(m), f)
    && (exists a :: Visit(states, steps, a, i, m, f))
    && exists r {:trigger Partnered(states, steps, i, m, f, r)} :: Partnered(states, steps, i, m, f, r)
  }

  ghost predicate Partnered(states: seq<State>, steps: seq<Step>, i: nat, m: MarkerId, f: Index, r: int)
    requires i < |states| == |steps| + 1
  {
    if r < 0 then exists b :: Found(states, steps, b, i, m, f, r) else TookAndMarked(states, steps, i, m, f, r)
  }

  /** Marker `m` makes the reverse flow of its flow a candidate: it has found both dead, and has taken it. */
  ghost predicate ReverseOf(states: seq<State>, steps: seq<Step>, i: nat, m: MarkerId, f: Index)
    requires i < |steps| == |states| - 1
  {
    && Makes(states, steps, i, MarkPeer(m), f)
    && exists g {:trigger ReverseFound(states, steps, i, m, g, f)} :: ReverseFound(states, steps, i, m, g, f)
  }

  ghost predicate ReverseFound(states: seq<State>, steps: seq<Step>, i: nat, m: MarkerId, g: Index, f: Index)
    requires i < |steps| == |states| - 1
  {
    && (exists a :: Visit(states, steps, a, i, m, g))
    && exists b, c :: 0 <= b < c < i && Found(states, steps, b, i, m, g, f) && Took(states, steps, c, m, f)
  }

  lemma MadeBy(s: State, step: Step, f: Index)
    requires Enabled(s, step) && f in s.flows && !s.flows[f].candidate
    ensures f in Next(s, step).flows
    ensures Next(s, step).flows[f].candidate ==>
      || (step.MarkSelf? && step.m in s.markers && s.markers[step.m].Ready? && s.markers[step.m].f == f)
      || (step.MarkPeer? && step.m in s.markers && s.markers[step.m].Both? && s.markers[step.m].r == f)
  {
    if Marks(step) {
      MarkersMake(s, step, f);
    } else if Risky(step) {
      CallbacksMake(s, step, f);
    } else {
      OthersMake(s, step, f);
    }
  }

  lemma MarkersMake(s: State, step: Step, f: Index)
    requires Enabled(s, step) && f in s.flows && !s.flows[f].candidate && Marks(step)
    ensures f in Next(s, step).flows
    ensures Next(s, step).flows[f].candidate ==>
      || (step.MarkSelf? && step.m in s.markers && s.markers[step.m].Ready? && s.markers[step.m].f == f)
      || (step.MarkPeer? && step.m in s.markers && s.markers[step.m].Both? && s.markers[step.m].r == f)
  {
    if step.ReleasePeer? || step.ReleaseSelf? { ReleasesMake(s, step, f); }
  }

  lemma ReleasesMake(s: State, step: Step, f: Index)
    requires Enabled(s, step) && f in s.flows && !s.flows[f].candidate && (step.ReleasePeer? || step.ReleaseSelf?)
    ensures f in Next(s, step).flows && !Next(s, step).flows[f].candidate
  {
    var pc := s.markers[step.m];
    var g := if step.ReleasePeer? then pc.peer else pc.f;
    assert Next(s, step).flows == s.flows[g := Dropped(s.flows[g], pc.Undo?)];
  }

  lemma CallbacksMake(s: State, step: Step, f: Index)
    requires Enabled(s, step) && f in s.flows && !s.flows[f].candidate && Risky(step)
    ensures f in Next(s, step).flows && !Next(s, step).flows[f].candidate
  {
  }

  lemma OthersMake(s: State, step: Step, f: Index)
    requires Enabled(s, step) && f in s.flows && !s.flows[f].candidate && !Marks(step) && !Risky(step)
    ensures f in Next(s, step).flows && !Next(s, step).flows[f].candidate
  {
  }

  /** In every run, safe or not, a flow becomes a candidate only in one of these two ways. */
  lemma OnlyDeadMarked(states: seq<State>, steps: seq<Step>, i: nat, f: Index)
    requires Path(states, steps) && i < |steps| && f in states[i].flows && !states[i].flows[f].candidate
    requires f in states[i + 1].flows && states[i + 1].flows[f].candidate
    ensures exists m :: ForwardOf(states, steps, i, m, f) || ReverseOf(states, steps, i, m, f)
  {
    assert Takes(states[i], steps[i], states[i + 1]);
    MadeBy(states[i], steps[i], f);
    var m := steps[i].m;
    var a := VisitOf(states, steps, i, m);
    if steps[i].MarkSelf? {
      ForwardMade(states, steps, i, m, f, a);
    } else {
      ReverseMade(states, steps, i, m, f, a);
    }
  }

  lemma ForwardMade(states: seq<State>, steps: seq<Step>, i: nat, m: MarkerId, f: Index, a: nat)
    requires Path(states, steps) && i < |steps| && Makes(states, steps, i, MarkSelf(m), f)
    requires m in states[i].markers && states[i].markers[m].Ready? && states[i].markers[m].f == f
    requires Visit(states, steps, a, i, m, f)
    ensures ForwardOf(states, steps, i, m, f)
  {
    var r := states[i].markers[m].peer;
    if r < 0 {
      var b := FoundBy(states, steps, i, m);
      assert Found(states, steps, b, i, m, f, r);
    } else {
      MarkedBy(states, steps, i, m);
    }
    assert Partnered(states, steps, i, m, f, r);
  }

  lemma ReverseMade(states: seq<State>, steps: seq<Step>, i: nat, m: MarkerId, f: Index, a: nat)
    requires Path(states, steps) && i < |steps| && Makes(states, steps, i, MarkPeer(m), f)
    requires m in states[i].markers && states[i].markers[m].Both? && states[i].markers[m].r == f
    requires Visit(states, steps, a, i, m, states[i].markers[m].f)
    ensures ReverseOf(states, steps, i, m, f)
  {
    var b, c := TookBy(states, steps, i, m);
    assert ReverseFound(states, steps, i, m, states[i].markers[m].f, f);
  }

  // ----- flows whose reverse flow is alive

  /** The flow a marker works on is dead. */
  ghost predicate AllDead(s: State)
  {
    forall m {:trigger s.markers[m]} :: m in s.markers ==> s.markers[m].f in s.flows && s.flows[s.markers[m].f].dead
  }

  /** A flow stays dead while it is in its entry. */
  lemma DeadStays(s: State, step: Step, f: Index)
    requires Enabled(s, step) && f in s.flows && s.flows[f].dead
    ensures f in Next(s, step).flows
    ensures Next(s, step).flows[f].dead || step == Alloc(f) || step == Reset(f)
      || ((step.DropSelf? || step.DropPeer?) && s.works[step.w].f == f)
  {
    if Marks(step) {
      MarkersKeepDead(s, step, f);
    } else if Risky(step) {
      CallbacksKeepDead(s, step, f);
    } else {
      OthersKeepDead(s, step, f);
    }
  }

  lemma MarkersKeepDead(s: State, step: Step, f: Index)
    requires Enabled(s, step) && f in s.flows && s.flows[f].dead && Marks(step)
    ensures f in Next(s, step).flows && Next(s, step).flows[f].dead
  {
    if step.Take? || step.TakePeer? || step.MarkPeer? || step.MarkSelf? {
      SettersKeepDead(s, step, f);
    } else if step.ReleasePeer? || step.ReleaseSelf? {
      ReleasesKeepDead(s, step, f);
    }
  }

  lemma SettersKeepDead(s: State, step: Step, f: Index)
    requires Enabled(s, step) && f in s.flows && s.flows[f].dead
    requires step.Take? || step.TakePeer? || step.MarkPeer? || step.MarkSelf?
    ensures f in Next(s, step).flows && Next(s, step).flows[f].dead
  {
  }

  lemma ReleasesKeepDead(s: State, step: Step, f: Index)
    requires Enabled(s, step) && f in s.flows && s.flows[f].dead && (step.ReleasePeer? || step.ReleaseSelf?)
    ensures f in Next(s, step).flows && Next(s, step).flows[f].dead
  {
  }

  lemma CallbacksKeepDead(s: State, step: Step, f: Index)
    requires Enabled(s, step) && f in s.flows && s.flows[f].dead && Risky(step)
    ensures f in Next(s, step).flows
    ensures Next(s, step).flows[f].dead || step == Reset(f)
      || ((step.DropSelf? || step.DropPeer?) && s.works[step.w].f == f)
  {
  }

  lemma OthersKeepDead(s: State, step: Step, f: Index)
    requires Enabled(s, step) && f in s.flows && s.flows[f].dead && !Marks(step) && !Risky(step)
    ensures f in Next(s, step).flows && (Next(s, step).flows[f].dead || step == Alloc(f))
  {
  }

  lemma AllDeadStep(s: State, step: Step)
    requires Inv(s) && AllDead(s) && Enabled(s, step) && Safe(s, step)
    ensures AllDead(Next(s, step))
  {
    var t := Next(s, step);
    forall m | m in t.markers ensures t.markers[m].f in t.flows && t.flows[t.markers[m].f].dead {
      MarkerBefore(s, step, m);
      if m in s.markers { KnownStaysDead(s, step, m); } else { DeadStays(s, step, t.markers[m].f); }
    }
  }

  lemma KnownStaysDead(s: State, step: Step, m: MarkerId)
    requires Inv(s) && AllDead(s) && Enabled(s, step) && Safe(s, step) && m in s.markers
    ensures var f := s.markers[m].f; f in Next(s, step).flows && Next(s, step).flows[f].dead
  {
    var f := s.markers[m].f;
    assert MarkerOk(s.flows, s.owner, m, s.markers[m], s.seen[m]) && Knows(s.markers[m], f);
    DeadStays(s, step, f);
  }

  lemma {:induction false} RunDead(states: seq<State>, steps: seq<Step>, i: nat)
    requires Run(states, steps) && i <= |steps|
    ensures AllDead(states[i])
  {
    if i > 0 {
      RunDead(states, steps, i - 1);
      RunInv(states, steps, i - 1);
      assert Takes(states[i - 1], steps[i - 1], states[i]);
      AllDeadStep(states[i - 1], steps[i - 1]);
    }
  }

  /** The entry has a valid reverse entry that is alive. */
  ghost predicate Alive(s: State, f: Index, r: Index)
  {
    f in s.flows && s.flows[f].rflow == r && IsFlow(s, r) && s.flows[r].valid && !s.flows[r].dead
  }

  /** No marker that works on the flow has got past its search for the reverse flow. */
  ghost predicate NoneGoes(s: State, f: Index)
  {
    forall m {:trigger s.markers[m]} :: m in s.markers && s.markers[m].f == f ==> !Goes(s.markers[m])
  }

  lemma NoneGoesStep(s: State, step: Step, f: Index, r: Index)
    requires Enabled(s, step) && Alive(s, f, r) && NoneGoes(s, f)
    ensures NoneGoes(Next(s, step), f)
  {
    var t := Next(s, step);
    forall m | m in t.markers && t.markers[m].f == f ensures !Goes(t.markers[m]) {
      if Goes(t.markers[m]) { GoesBefore(s, step, m); }
    }
  }

  lemma SparedStep(s: State, step: Step, f: Index, r: Index)
    requires AllDead(s) && Enabled(s, step) && Alive(s, f, r) && NoneGoes(s, f) && !s.flows[f].candidate
    ensures f in Next(s, step).flows && !Next(s, step).flows[f].candidate
  {
    MadeBy(s, step, f);
    if step.MarkPeer? && s.markers[step.m].r == f {
      assert s.markers[step.m].f != r && s.flows[f].rflow == r;
      assert !PeerEligible(s, s.markers[step.m].f, f);
    }
  }

  /** In every safe run, a flow does not become a candidate while it has a valid reverse flow that is alive. */
  lemma {:induction false} AliveReverseSpares(states: seq<State>, steps: seq<Step>, j: nat, i: nat, f: Index, r: Index)
    requires Run(states, steps) && j <= i <= |steps| && NoneGoes(states[j], f)
    requires forall k {:trigger states[k]} :: j <= k <= i ==> Alive(states[k], f, r)
    requires f in states[j].flows && !states[j].flows[f].candidate
    ensures f in states[i].flows && !states[i].flows[f].candidate && NoneGoes(states[i], f)
  {
    if j < i {
      AliveReverseSpares(states, steps, j, i - 1, f, r);
      RunDead(states, steps, i - 1);
      assert Takes(states[i - 1], steps[i - 1], states[i]);
      SparedNext(states[i - 1], steps[i - 1], states[i], f, r);
    }
  }

  lemma SparedNext(s: State, step: Step, t: State, f: Index, r: Index)
    requires AllDead(s) && Takes(s, step, t) && Alive(s, f, r) && NoneGoes(s, f) && !s.flows[f].candidate
    ensures f in t.flows && !t.flows[f].candidate && NoneGoes(t, f)
  {
    SparedStep(s, step, f, r);
    NoneGoesStep(s, step, f, r);
  }
}
