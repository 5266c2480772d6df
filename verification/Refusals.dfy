/** A pass fails only where the pool refused a buffer: with a pool that never does,
    every pass completes. */
module Refusals {
  import opened Graph
  import opened Liveness
  import opened Executor
  import opened ExecutorMemory
  import opened ExecutorRun
  import opened Passes

  /** The pool refuses a buffer to some node that needs one, when just this is live. */
  ghost predicate Refused(g: Graph, env: Env, st: State) {
    exists j: nat :: j < |g.nodes| == |st.tensors| && st.tensors[j].Empty? && !Borrows(g, env, j) && env.acquire(j, st.live).None?
  }

  /** It never does. */
  ghost predicate Generous(g: Graph, env: Env) {
    forall j: nat, live: set<nat> :: j < |g.nodes| ==> env.acquire(j, live).Some?
  }

  lemma AllocateFails(g: Graph, env: Env, st: State, j: nat)
    requires j < |g.nodes| == |st.tensors| && !st.failed
    ensures AllocateOutput(g, env, st, j).failed ==> Refused(g, env, AllocateOutput(g, env, st, j))
    ensures |AllocateOutput(g, env, st, j).tensors| == |st.tensors|
  {
  }

  lemma MaterializeFails(g: Graph, env: Env, st: State, j: nat)
    requires WellFormed(g) && j < |g.nodes| == |st.tensors| && !st.failed
    ensures Materialize(g, env, st, j).failed ==> Refused(g, env, Materialize(g, env, st, j))
  {
    hide AllocateOutput, Dispatch, Refused;
    AllocateFails(g, env, st, j);
  }

  lemma BlockFails(g: Graph, env: Env, i: nat, st: State, pend: Pending, f: Flags)
    requires WellFormed(g) && i < |g.nodes| == |st.tensors| && FlagsOk(i, pend, f) && !st.failed
    ensures DispatchBlock(g, env, i, st, pend, f).failed ==> Refused(g, env, DispatchBlock(g, env, i, st, pend, f))
  {
    hide Materialize, Dispatch, MoeFused, Store, CheckReads, Refused, ReadAll;
    var (s0, done0) := if f.up then UpStep(g, env, st, i) else (st, false);
    if f.up {
      UpFails(g, env, st, i);
    }
    if !s0.failed {
      var (s1, done1) := if f.inject then InjectStep(g, env, s0, pend, i) else (s0, done0);
      if f.inject {
        InjectNeverFails(g, env, s0, pend, i);
      }
      if f.gate && !done1 {
        GateFails(g, env, s1, i);
      }
    }
  }

  lemma UpFails(g: Graph, env: Env, st: State, c: nat)
    requires WellFormed(g) && 2 <= c < |g.nodes| == |st.tensors| && !st.failed
    ensures UpStep(g, env, st, c).0.failed ==> Refused(g, env, UpStep(g, env, st, c).0)
  {
    hide Materialize, Refused;
    MaterializeFails(g, env, st, c - 2);
  }

  lemma GateFails(g: Graph, env: Env, st: State, c: nat)
    requires WellFormed(g) && 0 < c < |g.nodes| == |st.tensors| && !st.failed
    ensures GateStep(g, env, st, c).0.failed ==> Refused(g, env, GateStep(g, env, st, c).0)
  {
    hide Materialize, Refused;
    MaterializeFails(g, env, st, c - 1);
  }

  lemma InjectNeverFails(g: Graph, env: Env, st: State, pend: Pending, c: nat)
    requires WellFormed(g) && 0 <= pend.inject < c < |g.nodes| == |st.tensors| && pend.moe < c && !st.failed
    ensures !InjectStep(g, env, st, pend, c).0.failed
  {
    hide Dispatch, MoeFused;
  }

  lemma ComputeFails(g: Graph, env: Env, i: nat, st: State, pend: Pending, f: Flags)
    requires WellFormed(g) && i < |g.nodes| == |st.tensors| && FlagsOk(i, pend, f) && !st.failed
    ensures Compute(g, env, i, st, pend, f).failed ==> Refused(g, env, Compute(g, env, i, st, pend, f))
  {
    hide DispatchBlock, AllocateOutput, Refused;
    AllocateFails(g, env, st, i);
    var s1 := if f.deferSigmoid || f.deferUp then st else AllocateOutput(g, env, st, i);
    if !s1.failed {
      BlockFails(g, env, i, s1, pend, f);
    }
  }

  lemma {:induction false} ReleasesNeverFail(g: Graph, judge: State, cleanup: bool, st: State, batch: seq<nat>, k: nat)
    requires WellFormed(g) && |g.nodes| == |st.tensors| == |judge.tensors| && k <= |batch|
    requires forall i :: 0 <= i < |batch| ==> batch[i] < |g.nodes|
    ensures ReleaseFirst(g, judge, cleanup, st, batch, k).failed == st.failed
  {
    hide LooksBorrowed;
    if k > 0 {
      ReleasesNeverFail(g, judge, cleanup, st, batch, k - 1);
    }
  }

  lemma ResetNeverFails(g: Graph, st: State, cleanup: bool, reuse: bool)
    requires WellFormed(g) && |g.nodes| == |st.tensors|
    ensures ResetTensors(g, st, cleanup, reuse).failed == st.failed
  {
    hide ReleaseFirst, ClearBorrowed;
    var ops := Operators(g, |g.nodes|);
    ReleasesNeverFail(g, st, cleanup, ClearBorrowed(g, st, cleanup, st, |g.nodes|), ops, |ops|);
  }

  lemma StepFails(g: Graph, env: Env, last: nat, i: nat, st: State, pend: Pending)
    requires WellFormed(g) && i < |g.nodes| == |st.tensors| && QueueShape(g, env.queue) && PendingBehind(i, pend) && !st.failed
    ensures Step(g, env, last, i, st, pend).0.failed ==> Refused(g, env, Step(g, env, last, i, st, pend).0)
  {
    if !IsSource(g.nodes[i]) {
      var f := FlagsAt(g, env, last, i, pend);
      hide Compute, FlagsAt, ReleaseFirst, BatchAfter, Refused;
      ComputeFails(g, env, i, st, pend, f);
      var s := Compute(g, env, i, st, pend, f);
      if !s.failed {
        var batch := BatchAfter(g, env, i, pend, f);
        ReleasesNeverFail(g, s, false, s, batch, |batch|);
      }
    }
  }

  /** A run that fails has just been refused a buffer. */
  lemma {:induction false} RunFails(g: Graph, env: Env, last: nat, i: nat, st: State, pend: Pending)
    requires WellFormed(g) && i <= last + 1 <= |g.nodes| == |st.tensors| && QueueShape(g, env.queue)
    requires PendingBehind(i, pend) && !st.failed
    ensures Run(g, env, last, i, st, pend).0.failed ==> Refused(g, env, Run(g, env, last, i, st, pend).0)
    decreases last + 1 - i
  {
    hide Step, Refused, WellFormed, QueueShape;
    if i <= last {
      StepFails(g, env, last, i, st, pend);
      var (s, p) := Step(g, env, last, i, st, pend);
      if !s.failed {
        RunFails(g, env, last, i + 1, s, p);
      }
    }
  }

  /** So has a run in segments. */
  lemma {:induction false} SegmentsFail(g: Graph, env: Env, first: nat, ends: seq<nat>, st: State)
    requires WellFormed(g) && |g.nodes| == |st.tensors| && QueueShape(g, env.queue) && Cuts(g, first, ends) && !st.failed
    ensures RunSegments(g, env, first, ends, st).failed ==> Refused(g, env, RunSegments(g, env, first, ends, st))
    decreases |ends|
  {
    hide Run, Refused, WellFormed, QueueShape;
    if ends != [] {
      RunFails(g, env, ends[0] - 1, first, st, NONE);
      var s := Run(g, env, ends[0] - 1, first, st, NONE).0;
      if s.failed {
        FailedStays(g, env, ends[0], ends[1..], s);
      } else {
        SegmentsFail(g, env, ends[0], ends[1..], s);
      }
    }
  }

  /** A pool that refuses nothing lets every pass complete, whatever is fused,
      declined, borrowed or copied. */
  lemma PassCompletes(x: Pass, st: State)
    requires Startable(x, st) && Generous(x.g, x.env)
    ensures var r := Execute(x.g, x.env, |x.g.nodes| - 1, st); !r.failed && Completed(x, r)
    ensures forall last: nat :: last < |x.g.nodes| ==> !Execute(x.g, x.env, last, st).failed
  {
    hide Completed, EliminableExact, RowsConsistent;
    forall last: nat | last < |x.g.nodes|
      ensures !Execute(x.g, x.env, last, st).failed
    {
      RunFails(x.g, x.env, last, 0, st, NONE);
    }
    PassComputesGraph(x, st);
  }

  /** So does one in segments. */
  lemma SegmentsComplete(x: Pass, ends: seq<nat>, st: State)
    requires Startable(x, st) && Generous(x.g, x.env) && Cuts(x.g, 0, ends)
    ensures var r := RunSegments(x.g, x.env, 0, ends, st); !r.failed && (EndOf(0, ends) == |x.g.nodes| ==> Completed(x, r))
  {
    hide Completed, EliminableExact, RowsConsistent, RunSegments, Cuts;
    SegmentsFail(x.g, x.env, 0, ends, st);
    if EndOf(0, ends) == |x.g.nodes| {
      SegmentedPassComputesGraph(x, ends, st);
    }
  }
}
