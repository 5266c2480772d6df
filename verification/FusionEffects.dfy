/** What an accepted fusion saves: the intermediates of its chain take no buffer.
    The numbers of acquisitions are exact, so they also say when a chain is fused
    (graph/execute.cpp:482-505, 698-715, 918-994). */
module FusionEffects {
  import opened Graph
  import opened Liveness
  import opened Fusion
  import opened Executor
  import opened ExecutorMemory
  import opened ExecutorRun
  import opened Passes

  /** How many buffers were taken from the pool. */
  function Taken(log: seq<PoolCall>): nat {
    if log == [] then 0 else Taken(log[..|log| - 1]) + if log[|log| - 1].Acquired? then 1 else 0
  }

  lemma TakenOne(log: seq<PoolCall>, call: PoolCall)
    ensures Taken(log + [call]) == Taken(log) + if call.Acquired? then 1 else 0
  {
    assert (log + [call])[..|log|] == log;
  }

  /** From `st` to `r` this many were taken, unless the pool refused one, and only
      `own` nodes were given storage. */
  predicate Took(st: State, r: State, n: nat, own: set<nat>) {
    |r.tensors| == |st.tensors| && (!r.failed ==>
      && Taken(r.log) == Taken(st.log) + n
      && forall k :: 0 <= k < |st.tensors| && k !in own && st.tensors[k].Empty? ==> r.tensors[k].Empty?)
  }

  lemma {:induction false} ReleasesTakeNone(g: Graph, judge: State, st: State, batch: seq<nat>, k: nat)
    requires WellFormed(g) && |g.nodes| == |st.tensors| == |judge.tensors| && k <= |batch|
    requires forall i :: 0 <= i < |batch| ==> batch[i] < |g.nodes|
    ensures Took(st, ReleaseFirst(g, judge, false, st, batch, k), 0, {})
    ensures ReleaseFirst(g, judge, false, st, batch, k).failed == st.failed
  {
    hide LooksBorrowed, ReleaseOne, Taken, WellFormed;
    if k > 0 {
      ReleasesTakeNone(g, judge, st, batch, k - 1);
      var s := ReleaseFirst(g, judge, false, st, batch, k - 1);
      ReleaseTakesNone(g, s, batch[k - 1], LooksBorrowed(g, judge, batch[k - 1], false));
    }
  }

  lemma ReleaseTakesNone(g: Graph, st: State, j: nat, borrowed: bool)
    requires j < |g.nodes| == |st.tensors|
    ensures Took(st, ReleaseOne(g, st, j, borrowed), 0, {}) && ReleaseOne(g, st, j, borrowed).failed == st.failed
  {
    var t := st.tensors[j];
    if t.Buf? {
      TakenOne(st.log, Released(t.ptr));
    }
  }

  /** An operator without a buffer takes one, unless it borrows or is refused it. */
  lemma AllocationTakesOne(g: Graph, env: Env, st: State, j: nat)
    requires j < |g.nodes| == |st.tensors| && st.tensors[j].Empty? && !Borrows(g, env, j) && !st.failed
    ensures Took(st, AllocateOutput(g, env, st, j), 1, {j})
  {
    var a := env.acquire(j, st.live);
    if a.Some? {
      TakenOne(st.log, Acquired(a.value));
    }
  }

  lemma MaterializingTakesOne(g: Graph, env: Env, st: State, j: nat)
    requires WellFormed(g) && j < |g.nodes| == |st.tensors| && st.tensors[j].Empty? && !Borrows(g, env, j) && !st.failed
    ensures Took(st, Materialize(g, env, st, j), 1, {j})
  {
    AllocationTakesOne(g, env, st, j);
    hide AllocateOutput;
  }

  lemma UpStepTakes(g: Graph, env: Env, st: State, c: nat)
    requires WellFormed(g) && 2 <= c < |g.nodes| == |st.tensors| && !st.failed
    requires st.tensors[c - 2].Empty? && !Borrows(g, env, c - 2)
    ensures Took(st, UpStep(g, env, st, c).0, if c in env.acceptUp then 0 else 1, {c - 2})
    ensures UpStep(g, env, st, c).1 == (c in env.acceptUp)
  {
    MaterializingTakesOne(g, env, st, c - 2);
    hide Materialize;
  }

  lemma GateStepTakes(g: Graph, env: Env, st: State, c: nat)
    requires WellFormed(g) && 0 < c < |g.nodes| == |st.tensors| && !st.failed
    requires st.tensors[c - 1].Empty? && !Borrows(g, env, c - 1)
    ensures Took(st, GateStep(g, env, st, c).0, if c in env.acceptGate then 0 else 1, {c - 1})
    ensures GateStep(g, env, st, c).1 == (c in env.acceptGate)
  {
    MaterializingTakesOne(g, env, st, c - 1);
    hide Materialize;
  }

  /** The end of a step takes nothing. */
  lemma StepTakes(g: Graph, env: Env, i: nat, st: State, pend: Pending, f: Flags, n: nat, own: set<nat>)
    requires WellFormed(g) && i < |g.nodes| == |st.tensors| && QueueShape(g, env.queue) && FlagsOk(i, pend, f)
    requires Took(st, Compute(g, env, i, st, pend, f), n, own)
    ensures Took(st, StepWith(g, env, i, st, pend, f).0, n, own)
  {
    hide Compute, BatchAfter, Taken;
    var s := Compute(g, env, i, st, pend, f);
    if !s.failed {
      var batch := BatchAfter(g, env, i, pend, f);
      ReleasesTakeNone(g, s, s, batch, |batch|);
    }
  }

  lemma PlainTakes(g: Graph, env: Env, i: nat, st: State)
    requires WellFormed(g) && i < |g.nodes| == |st.tensors| && QueueShape(g, env.queue) && !st.failed
    requires st.tensors[i].Empty? && !Borrows(g, env, i)
    ensures Took(st, StepWith(g, env, i, st, NONE, PLAIN).0, 1, {i}) && StepWith(g, env, i, st, NONE, PLAIN).1 == NONE
  {
    AllocationTakesOne(g, env, st, i);
    hide AllocateOutput;
    StepTakes(g, env, i, st, NONE, PLAIN, 1, {i});
  }

  lemma TookMore(st: State, s: State, r: State, n: nat, m: nat, own: set<nat>, more: set<nat>)
    requires Took(st, s, n, own) && !s.failed && Took(s, r, m, more)
    ensures Took(st, r, n + m, own + more)
  {
    hide Taken;
  }

  lemma DispatchTakesNone(g: Graph, env: Env, st: State, j: nat)
    requires WellFormed(g) && j < |g.nodes| == |st.tensors| && !Borrows(g, env, j)
    ensures var r := Dispatch(g, env, st, j); r.tensors == st.tensors && r.log == st.log && r.failed == st.failed
  {
  }

  /** The dispatch of a gate pair's consumer. */
  lemma GateBlockTakes(g: Graph, env: Env, c: nat, st: State)
    requires WellFormed(g) && 0 < c < |g.nodes| == |st.tensors| && !st.failed
    requires st.tensors[c - 1].Empty? && !Borrows(g, env, c - 1) && !Borrows(g, env, c)
    ensures Took(st, DispatchBlock(g, env, c, st, Pending(c - 1, -1, -1, -1), GATE), if c in env.acceptGate then 0 else 1, {c - 1})
  {
    GateStepTakes(g, env, st, c);
    var s := GateStep(g, env, st, c).0;
    DispatchTakesNone(g, env, s, c);
    hide GateStep, Dispatch, Borrows, WellFormed, Taken;
  }

  lemma GateConsumerTakes(g: Graph, env: Env, c: nat, st: State)
    requires WellFormed(g) && 0 < c < |g.nodes| == |st.tensors| && QueueShape(g, env.queue) && !st.failed
    requires st.tensors[c - 1].Empty? && st.tensors[c].Empty? && !Borrows(g, env, c - 1) && !Borrows(g, env, c)
    ensures Took(st, StepWith(g, env, c, st, Pending(c - 1, -1, -1, -1), GATE).0, if c in env.acceptGate then 1 else 2, {c - 1, c})
  {
    ConsumerTakes(g, env, c, st, Pending(c - 1, -1, -1, -1), GATE, if c in env.acceptGate then 0 else 1, {c - 1}) by {
      var s := AllocateOutput(g, env, st, c);
      AllocationTakesOne(g, env, st, c);
      if !s.failed {
        GateBlockTakes(g, env, c, s);
      }
    }
    assert {c} + {c - 1} == {c - 1, c};
  }

  /** The consumer of a chain takes its own buffer, and then what its dispatch takes. */
  lemma ConsumerTakes(g: Graph, env: Env, c: nat, st: State, pend: Pending, f: Flags, n: nat, own: set<nat>)
    requires WellFormed(g) && c < |g.nodes| == |st.tensors| && QueueShape(g, env.queue) && !st.failed && FlagsOk(c, pend, f)
    requires st.tensors[c].Empty? && !Borrows(g, env, c) && !f.Deferred()
    requires var s := AllocateOutput(g, env, st, c);
      |s.tensors| == |st.tensors| && (!s.failed ==> Took(s, DispatchBlock(g, env, c, s, pend, f), n, own))
    ensures Took(st, StepWith(g, env, c, st, pend, f).0, 1 + n, {c} + own)
  {
    hide Borrows, AllocateOutput, DispatchBlock, Took, StepWith, WellFormed, QueueShape, Taken;
    AllocationTakesOne(g, env, st, c);
    var s := AllocateOutput(g, env, st, c);
    if s.failed {
      RefusedTakes(st, s, 1 + n, {c} + own);
    } else {
      TookMore(st, s, DispatchBlock(g, env, c, s, pend, f), 1, n, {c}, own);
    }
    StepTakes(g, env, c, st, pend, f, 1 + n, {c} + own);
  }

  lemma RefusedTakes(st: State, r: State, n: nat, own: set<nat>)
    requires r.failed && |r.tensors| == |st.tensors|
    ensures Took(st, r, n, own)
  {
  }

  /** The dispatch of an up chain's consumer. */
  lemma UpBlockTakes(g: Graph, env: Env, c: nat, st: State)
    requires WellFormed(g) && 2 <= c < |g.nodes| == |st.tensors| && !st.failed
    requires st.tensors[c - 2].Empty? && st.tensors[c - 1].Empty? && forall j :: c - 2 <= j <= c ==> !Borrows(g, env, j)
    ensures Took(st, DispatchBlock(g, env, c, st, Pending(c - 1, c - 2, -1, -1), UP_GATE),
                 if c in env.acceptUp then 0 else if c in env.acceptGate then 1 else 2, {c - 2, c - 1})
  {
    UpStepTakes(g, env, st, c);
    var up := UpStep(g, env, st, c).0;
    hide Borrows, WellFormed, Taken, UpStep, GateStep, Dispatch;
    if !up.failed && c !in env.acceptUp {
      GateStepTakes(g, env, up, c);
      var s := GateStep(g, env, up, c).0;
      TookMore(st, up, s, 1, if c in env.acceptGate then 0 else 1, {c - 2}, {c - 1});
      DispatchTakesNone(g, env, s, c);
    }
  }

  lemma UpConsumerTakes(g: Graph, env: Env, c: nat, st: State)
    requires WellFormed(g) && 2 <= c < |g.nodes| == |st.tensors| && QueueShape(g, env.queue) && !st.failed
    requires forall j :: c - 2 <= j <= c ==> st.tensors[j].Empty? && !Borrows(g, env, j)
    ensures Took(st, StepWith(g, env, c, st, Pending(c - 1, c - 2, -1, -1), UP_GATE).0,
                 if c in env.acceptUp then 1 else if c in env.acceptGate then 2 else 3, {c - 2, c - 1, c})
  {
    var n := if c in env.acceptUp then 0 else if c in env.acceptGate then 1 else 2;
    ConsumerTakes(g, env, c, st, Pending(c - 1, c - 2, -1, -1), UP_GATE, n, {c - 2, c - 1}) by {
      var s := AllocateOutput(g, env, st, c);
      AllocationTakesOne(g, env, st, c);
      if !s.failed {
        UpBlockTakes(g, env, c, s);
      }
    }
    assert {c} + {c - 2, c - 1} == {c - 2, c - 1, c};
  }

  /** A postponed node takes none. */
  lemma PostponedTakesNone(g: Graph, env: Env, i: nat, st: State, pend: Pending, f: Flags)
    requires WellFormed(g) && i < |g.nodes| == |st.tensors| && QueueShape(g, env.queue) && FlagsOk(i, pend, f) && !st.failed
    requires f == DEFER_SIGMOID || f == DEFER_UP
    ensures StepWith(g, env, i, st, pend, f) == (st, NextPending(i, pend, f))
  {
  }

  /** What the steps of a gate pair are, begun with nothing pending. */
  lemma GateSteps(g: Graph, env: Env, st: State, c: nat, last: nat, i: nat, pend: Pending, fused: bool)
    requires WellFormed(g) && |st.tensors| == |g.nodes| && QueueShape(g, env.queue) && GatePair(g, c) && last == c
    requires fused == (env.gateOn && env.rows(c - 1) > 1)
    requires (i == c - 1 && pend == NONE) || (i == c && pend == if fused then Pending(c - 1, -1, -1, -1) else NONE)
    ensures Step(g, env, last, i, st, pend) ==
      StepWith(g, env, i, st, pend, if !fused then PLAIN else if i == c - 1 then DEFER_SIGMOID else GATE)
  {
    hide StepWith;
    FlagsFromPending(g, env, last, i, pend);
  }

  /** The gate pair ending at `c`, begun with nothing pending: one buffer if it is
      fused, and one more for the sigmoid otherwise. */
  lemma GateTakes(g: Graph, env: Env, st: State, c: nat)
    requires WellFormed(g) && |st.tensors| == |g.nodes| && QueueShape(g, env.queue) && !st.failed
    requires GatePair(g, c) && st.tensors[c - 1].Empty? && st.tensors[c].Empty?
    ensures var r := Run(g, env, c, c - 1, st, NONE).0;
      !r.failed ==> Taken(r.log) == Taken(st.log) + if env.gateOn && env.rows(c - 1) > 1 && c in env.acceptGate then 1 else 2
  {
    if env.gateOn && env.rows(c - 1) > 1 {
      EnteredGateTakes(g, env, st, c);
    } else {
      PlainPairTakes(g, env, st, c);
    }
  }

  lemma GateOwnsBuffers(g: Graph, env: Env, c: nat)
    requires GatePair(g, c)
    ensures 0 < c < |g.nodes| && !Borrows(g, env, c - 1) && !Borrows(g, env, c)
  {
  }

  lemma EnteredGateTakes(g: Graph, env: Env, st: State, c: nat)
    requires WellFormed(g) && |st.tensors| == |g.nodes| && QueueShape(g, env.queue) && !st.failed
    requires GatePair(g, c) && st.tensors[c - 1].Empty? && st.tensors[c].Empty? && env.gateOn && env.rows(c - 1) > 1
    ensures Took(st, Run(g, env, c, c - 1, st, NONE).0, if c in env.acceptGate then 1 else 2, {c - 1, c})
  {
    hide StepWith, Step, Took, Taken, Run, WellFormed, QueueShape, Borrows, GatePair;
    GateOwnsBuffers(g, env, c);
    GateConsumerTakes(g, env, c, st);
    GateSteps(g, env, st, c, c, c - 1, NONE, true);
    GateSteps(g, env, st, c, c, c, Pending(c - 1, -1, -1, -1), true);
    PostponedTakesNone(g, env, c - 1, st, NONE, DEFER_SIGMOID);
    TwoSteps(g, env, c - 1, st);
  }

  lemma PlainPairTakes(g: Graph, env: Env, st: State, c: nat)
    requires WellFormed(g) && |st.tensors| == |g.nodes| && QueueShape(g, env.queue) && !st.failed
    requires GatePair(g, c) && st.tensors[c - 1].Empty? && st.tensors[c].Empty? && !(env.gateOn && env.rows(c - 1) > 1)
    ensures Took(st, Run(g, env, c, c - 1, st, NONE).0, 2, {c - 1, c})
  {
    hide StepWith, Step, Taken, Run, WellFormed, QueueShape, Borrows, GatePair;
    GateOwnsBuffers(g, env, c);
    PlainTakes(g, env, c - 1, st);
    GateSteps(g, env, st, c, c, c - 1, NONE, false);
    var one := StepWith(g, env, c - 1, st, NONE, PLAIN).0;
    if !one.failed {
      PlainTakes(g, env, c, one);
      GateSteps(g, env, one, c, c, c, NONE, false);
    }
    TwoSteps(g, env, c - 1, st);
  }

  lemma TwoSteps(g: Graph, env: Env, i: nat, st: State)
    requires WellFormed(g) && i + 1 < |g.nodes| == |st.tensors| && QueueShape(g, env.queue) && !st.failed
    ensures var one := Step(g, env, i + 1, i, st, NONE);
      Run(g, env, i + 1, i, st, NONE).0 == if one.0.failed then one.0 else Step(g, env, i + 1, i + 1, one.0, one.1).0
  {
    hide Step, Run;
    RunUnfolds(g, env, i + 1, i, st, NONE);
    var one := Step(g, env, i + 1, i, st, NONE);
    RunUnfolds(g, env, i + 1, i + 1, one.0, one.1);
    if !one.0.failed {
      var two := Step(g, env, i + 1, i + 1, one.0, one.1);
      RunUnfolds(g, env, i + 1, i + 2, two.0, two.1);
    }
  }

  lemma RunUnfolds(g: Graph, env: Env, last: nat, i: nat, st: State, pend: Pending)
    requires WellFormed(g) && i <= last + 1 <= |g.nodes| == |st.tensors| && QueueShape(g, env.queue) && PendingBehind(i, pend)
    ensures Run(g, env, last, i, st, pend) ==
      if i > last || st.failed then (st, pend)
      else var one := Step(g, env, last, i, st, pend); Run(g, env, last, i + 1, one.0, one.1)
  {
    hide Step;
  }

  predicate Entered(env: Env, c: nat) {
    c >= 2 && env.upOn && 16 <= env.rows(c - 2) <= env.upMaxRows
  }

  /** What the steps of an up chain are. */
  lemma UpSteps(g: Graph, env: Env, st: State, c: nat, i: nat, pend: Pending)
    requires WellFormed(g) && |st.tensors| == |g.nodes| && QueueShape(g, env.queue) && UpTriple(g, c)
    requires if i == c - 2 then pend == NONE
             else Entered(env, c) && (if i == c - 1 then pend == Pending(-1, c - 2, -1, -1) else i == c && pend == Pending(c - 1, c - 2, -1, -1))
    ensures Step(g, env, c, i, st, pend) ==
      StepWith(g, env, i, st, pend,
               if !Entered(env, c) then PLAIN else if i == c - 2 then DEFER_UP else if i == c - 1 then DEFER_SIGMOID else UP_GATE)
  {
    hide StepWith;
    assert UpTriple(g, (c - 2) + 2) && UpTriple(g, (c - 1) + 1);
    FlagsFromPending(g, env, c, i, pend);
  }

  /** The up chain ending at `c`, begun with nothing pending: one buffer if it is fused
      whole, and otherwise one more for each intermediate that is not fused away. */
  lemma UpTakes(g: Graph, env: Env, st: State, c: nat)
    requires WellFormed(g) && |st.tensors| == |g.nodes| && QueueShape(g, env.queue) && !st.failed
    requires UpTriple(g, c) && forall j :: c - 2 <= j <= c ==> st.tensors[j].Empty?
    ensures var r := Run(g, env, c, c - 2, st, NONE).0;
      !r.failed ==> Taken(r.log) == Taken(st.log) + UpCost(env, c)
  {
    if Entered(env, c) {
      EnteredUpTakes(g, env, st, c);
    } else {
      UpTripleIsGatePair(g, c);
      UpSteps(g, env, st, c, c - 2, NONE);
      hide *;
      PlainThenGateTakes(g, env, st, c);
    }
  }

  /** A plain node, and the gate pair after it. */
  lemma PlainThenGateTakes(g: Graph, env: Env, st: State, c: nat)
    requires WellFormed(g) && |st.tensors| == |g.nodes| && QueueShape(g, env.queue) && !st.failed && !Entered(env, c)
    requires GatePair(g, c) && c >= 2 && !Borrows(g, env, c - 2) && forall j :: c - 2 <= j <= c ==> st.tensors[j].Empty?
    requires Step(g, env, c, c - 2, st, NONE) == StepWith(g, env, c - 2, st, NONE, PLAIN)
    ensures var r := Run(g, env, c, c - 2, st, NONE).0;
      !r.failed ==> Taken(r.log) == Taken(st.log) + UpCost(env, c)
  {
    hide StepWith, Step, Taken, Run, WellFormed, QueueShape, Borrows;
    RunUnfolds(g, env, c, c - 2, st, NONE);
    PlainTakes(g, env, c - 2, st);
    var s := StepWith(g, env, c - 2, st, NONE, PLAIN).0;
    if s.failed {
      hide GatePair;
      RunUnfolds(g, env, c, c - 1, s, NONE);
    } else {
      GateTakes(g, env, s, c);
    }
  }

  function UpCost(env: Env, c: nat): nat {
    if Entered(env, c) && c in env.acceptUp then 1
    else if c > 0 && (Entered(env, c) || (env.gateOn && env.rows(c - 1) > 1)) && c in env.acceptGate then 2
    else 3
  }

  lemma EnteredUpTakes(g: Graph, env: Env, st: State, c: nat)
    requires WellFormed(g) && |st.tensors| == |g.nodes| && QueueShape(g, env.queue) && !st.failed && Entered(env, c)
    requires UpTriple(g, c) && forall j :: c - 2 <= j <= c ==> st.tensors[j].Empty?
    ensures Took(st, Run(g, env, c, c - 2, st, NONE).0, UpCost(env, c), {c - 2, c - 1, c})
  {
    UpOwnsBuffers(g, env, c);
    hide *;
    EnteredUpRuns(g, env, st, c);
    UpConsumerTakes(g, env, c, st);
    CostOfUp(env, c);
  }

  lemma CostOfUp(env: Env, c: nat)
    requires Entered(env, c)
    ensures UpCost(env, c) == if c in env.acceptUp then 1 else if c in env.acceptGate then 2 else 3
  {
  }

  lemma UpOwnsBuffers(g: Graph, env: Env, c: nat)
    requires UpTriple(g, c)
    ensures 2 <= c < |g.nodes| && forall j :: c - 2 <= j <= c ==> !Borrows(g, env, j)
  {
    UpTripleIsGatePair(g, c);
    assert !Borrows(g, env, c - 2) && !Borrows(g, env, c - 1) && !Borrows(g, env, c);
  }

  /** A chain that is entered does everything at its consumer. */
  lemma EnteredUpRuns(g: Graph, env: Env, st: State, c: nat)
    requires WellFormed(g) && |st.tensors| == |g.nodes| && QueueShape(g, env.queue) && !st.failed && Entered(env, c) && UpTriple(g, c)
    ensures Run(g, env, c, c - 2, st, NONE).0 == StepWith(g, env, c, st, Pending(c - 1, c - 2, -1, -1), UP_GATE).0
  {
    hide *;
    UpOwnsBuffers(g, env, c);
    var up, gate := Pending(-1, c - 2, -1, -1), Pending(c - 1, c - 2, -1, -1);
    UpPostpones(g, env, st, c, c - 2, NONE, up);
    UpPostpones(g, env, st, c, c - 1, up, gate);
    UpFinishes(g, env, st, c);
  }

  lemma UpFinishes(g: Graph, env: Env, st: State, c: nat)
    requires WellFormed(g) && |st.tensors| == |g.nodes| && QueueShape(g, env.queue) && !st.failed && Entered(env, c) && UpTriple(g, c)
    ensures var gate := Pending(c - 1, c - 2, -1, -1); Run(g, env, c, c, st, gate) == StepWith(g, env, c, st, gate, UP_GATE)
  {
    hide StepWith, Step, Run, WellFormed, QueueShape;
    UpSteps(g, env, st, c, c, Pending(c - 1, c - 2, -1, -1));
    LastStep(g, env, st, c, Pending(c - 1, c - 2, -1, -1));
  }

  lemma UpPostpones(g: Graph, env: Env, st: State, c: nat, i: nat, pend: Pending, next: Pending)
    requires WellFormed(g) && |st.tensors| == |g.nodes| && QueueShape(g, env.queue) && !st.failed && Entered(env, c) && UpTriple(g, c)
    requires if i == c - 2 then pend == NONE && next == Pending(-1, c - 2, -1, -1)
             else i == c - 1 && pend == Pending(-1, c - 2, -1, -1) && next == Pending(c - 1, c - 2, -1, -1)
    ensures Run(g, env, c, i, st, pend) == Run(g, env, c, i + 1, st, next)
  {
    hide StepWith, Step, Run, WellFormed, QueueShape;
    UpSteps(g, env, st, c, i, pend);
    PostponedTakesNone(g, env, i, st, pend, if i == c - 2 then DEFER_UP else DEFER_SIGMOID);
    RunUnfolds(g, env, c, i, st, pend);
  }

  lemma LastStep(g: Graph, env: Env, st: State, c: nat, pend: Pending)
    requires WellFormed(g) && c < |g.nodes| == |st.tensors| && QueueShape(g, env.queue) && PendingBehind(c, pend) && !st.failed
    ensures Run(g, env, c, c, st, pend) == Step(g, env, c, c, st, pend)
  {
    hide Step, Run, WellFormed, QueueShape;
    RunUnfolds(g, env, c, c, st, pend);
    var one := Step(g, env, c, c, st, pend);
    RunUnfolds(g, env, c, c + 1, one.0, one.1);
  }
}
