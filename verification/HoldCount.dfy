/**
 * Counting flows on hold: every CPU counts the flows it puts on hold in a 32-bit counter of
 * its own, the agent counts the flows it takes off hold in a common counter, and a counter
 * about to wrap is balanced against the common one.
 */
module HoldCount {
  import opened Numbers
  import opened Words

  type Flow = nat

  lemma {:induction false} SumUpdate(c: seq<nat>, i: nat, x: nat)
    requires i < |c|
    ensures Sum(c[i := x]) == Sum(c) - c[i] + x
  {
    var n := |c| - 1;
    if i == n {
      assert c[i := x][..n] == c[..n];
    } else {
      assert c[i := x][..n] == c[..n][i := x];
      SumUpdate(c[..n], i, x);
    }
  }

  lemma {:induction false} SumAtLeast(c: seq<nat>, i: nat)
    requires i < |c|
    ensures Sum(c) >= c[i]
  {
    if i < |c| - 1 { SumAtLeast(c[..|c| - 1], i); }
  }

  predicate InRange(c: seq<nat>)
  {
    forall i {:trigger c[i]} :: 0 <= i < |c| ==> c[i] < WRAP
  }

  /** The counters after one more hold on a CPU. */
  function Raised(holds: seq<nat>, actions: nat, cpu: nat): (seq<nat>, nat)
    requires cpu < |holds|
  {
    var h := holds[cpu];
    if Add(h, 1) >= h then (holds[cpu := Add(h, 1)], actions)
    else if actions > h then (holds[cpu := 1], actions - h)
    else (holds[cpu := Add(h - actions, 1)], 0)
  }

  class Counters {
    var holds: seq<nat>      // one counter a CPU
    var actions: nat
    ghost var held: set<Flow>

    /** The flows on hold are the holds counted less the actions counted. */
    ghost predicate Valid()
      reads this
    {
      InRange(holds) && Sum(holds) == |held| + actions
    }

    constructor (cpus: nat)
      ensures Valid() && held == {} && |holds| == cpus
    {
      holds, actions, held := seq(cpus, _ => 0), 0, {};
      new;
      Zeros(cpus);
    }

    /** Makes room in a counter that cannot be incremented, keeping the difference. */
    method Balance(cpu: nat)
      requires cpu < |holds|
      modifies this`holds, this`actions
      ensures |holds| == |old(holds)| && Sum(holds) - actions == old(Sum(holds)) - old(actions)
      ensures InRange(old(holds)) ==> InRange(holds)
      ensures holds == old(holds)[cpu := if old(actions) > old(holds)[cpu] then 0 else old(holds)[cpu] - old(actions)]
      ensures actions == if old(actions) > old(holds)[cpu] then old(actions) - old(holds)[cpu] else 0
    {
      var act := actions;
      if act > holds[cpu] {
        SumUpdate(holds, cpu, 0);
        actions := actions - holds[cpu];
        holds := holds[cpu := 0];
      } else {
        SumUpdate(holds, cpu, holds[cpu] - act);
        SumAtLeast(holds, cpu);
        holds := holds[cpu := holds[cpu] - act];
        actions := actions - act;
      }
    }

    /** A flow goes on hold; the count stays right while fewer than 2^32 - 1 flows are on hold. */
    method SetHold(cpu: nat, f: Flow) returns (ok: bool)
      requires Valid() && f !in held && |held| < WRAP - 1
      modifies this
      ensures Valid() && ok == (cpu < |old(holds)|) && held == if ok then old(held) + {f} else old(held)
      ensures ok ==> (holds, actions) == Raised(old(holds), old(actions), cpu)
    {
      if cpu >= |holds| {
        return false;
      }
      SumAtLeast(holds, cpu);
      if Add(holds[cpu], 1) < holds[cpu] {
        Balance(cpu);
      }
      SumUpdate(holds, cpu, Add(holds[cpu], 1));
      holds := holds[cpu := Add(holds[cpu], 1)];
      assert holds == old(holds)[cpu := holds[cpu]];
      held := held + {f};
      ok := true;
    }

    /** The agent takes a flow off hold, or deletes it. */
    method Act(f: Flow)
      requires Valid() && f in held
      modifies this
      ensures Valid() && held == old(held) - {f}
    {
      actions := actions + 1;
      held := held - {f};
    }

    /** The count reported is the number of flows on hold. */
    method Count() returns (n: nat)
      ensures n == if Sum(holds) >= actions then Sum(holds) - actions else 0
      ensures Valid() ==> n == |held|
    {
      var sum, i := 0, 0;
      while i < |holds|
        invariant i <= |holds| && sum == Sum(holds[..i])
      {
        sum := sum + holds[i];
        assert holds[..i + 1][..i] == holds[..i];
        i := i + 1;
      }
      assert holds[..|holds|] == holds;
      n := if sum >= actions then sum - actions else 0;
    }
  }

  lemma {:induction false} Zeros(n: nat)
    ensures Sum(seq(n, _ => 0)) == 0
  {
    if n > 0 {
      Zeros(n - 1);
      assert seq(n, _ => 0)[..n - 1] == seq(n - 1, _ => 0);
    }
  }

  // ----- exactly when the increment is right

  /** The difference grows by one unless the counter is at its end and there is no action to balance it against. */
  lemma RaisedExact(holds: seq<nat>, actions: nat, cpu: nat)
    requires cpu < |holds| && InRange(holds)
    ensures var (h, a) := Raised(holds, actions, cpu);
            Sum(h) - a == Sum(holds) - actions + 1 <==> !(holds[cpu] == WRAP - 1 && actions == 0)
  {
    var h := holds[cpu];
    if Add(h, 1) >= h {
      SumUpdate(holds, cpu, Add(h, 1));
    } else if actions > h {
      SumUpdate(holds, cpu, 1);
    } else {
      SumUpdate(holds, cpu, Add(h - actions, 1));
    }
  }
}
