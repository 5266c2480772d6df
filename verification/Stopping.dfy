/** A pass that stops at a node, and a suspended one: fusions are off in them
    (graph/execute.cpp:482-505, 1257-1259), so every node up to the cut has been
    computed and none after it. */
module Stopping {
  import opened Graph
  import opened Liveness
  import opened Fusion
  import opened Executor
  import opened ExecutorMemory
  import opened ExecutorRun
  import opened Passes
  import opened Segments
  import opened Refusals

  /** Exactly the nodes through `last` have been computed: one whose release is due is
      gone, every other is readable with its value, and later ones are as they were. */
  ghost predicate StoppedAt(x: Pass, st: State, r: State, last: int)
    requires PassOk(x) && |st.tensors| == |r.tensors| == |x.g.nodes|
  {
    forall j :: 0 <= j < |x.g.nodes| ==>
      if IsSource(x.g.nodes[j]) || j > last then r.tensors[j] == st.tensors[j]
      else if 0 <= x.rel[j] <= last then r.tensors[j].Empty?
      else CanRead(x, r, j)
  }

  lemma UnfusedFlags(g: Graph, env: Env, last: nat, i: nat)
    requires i < |g.nodes| && Unfused(env)
    ensures FlagsAt(g, env, last, i, NONE) == PLAIN
  {
  }

  /** One step of an unfused run. */
  lemma UnfusedStepKeeps(x: Pass, last: nat, done: set<nat>, i: nat, st: State) returns (done': set<nat>)
    requires Running(x, done, i, st) && Unfused(x.env) && i < |x.g.nodes|
    ensures var r := Step(x.g, x.env, last, i, st, NONE);
      r.1 == NONE && if r.0.failed then Inv(x, r.0, done', 0) else Running(x, done', i + 1, r.0)
  {
    UnfusedStep(x.g, x.env, last, last, i, st);
    hide Inv, Covers, StepWith;
    if IsSource(x.g.nodes[i]) {
      SkipSource(x, st, done, i);
      done' := done;
    } else {
      UnfusedFlags(x.g, x.env, last, i);
      done' := PlainStep(x, done, i, st);
    }
  }

  /** It changes no tensor but its own and those it releases, which come earlier. */
  lemma StepLeavesLater(x: Pass, last: nat, done: set<nat>, i: nat, st: State, j: nat)
    requires Running(x, done, i, st) && Unfused(x.env) && i < |x.g.nodes| && j < |x.g.nodes|
    requires j > i || IsSource(x.g.nodes[j])
    ensures Step(x.g, x.env, last, i, st, NONE).0.tensors[j] == st.tensors[j]
  {
    UnfusedFlags(x.g, x.env, last, i);
    hide Inv, Covers, FlagsAt;
    if !IsSource(x.g.nodes[i]) {
      var s := Compute(x.g, x.env, i, st, NONE, PLAIN);
      ComputeLeavesOthers(x.g, x.env, i, st, j);
      hide Compute;
      if !s.failed {
        var batch := BatchAfter(x.g, x.env, i, NONE, PLAIN);
        BatchIsEarlier(x, i, batch, j);
        ReleaseLeavesOthers(x.g, s, s, batch, |batch|, j);
      }
    }
  }

  lemma ComputeLeavesOthers(g: Graph, env: Env, i: nat, st: State, j: nat)
    requires WellFormed(g) && i < |g.nodes| == |st.tensors| && j < |g.nodes| && j != i
    ensures Compute(g, env, i, st, NONE, PLAIN).tensors[j] == st.tensors[j]
  {
  }

  lemma BatchIsEarlier(x: Pass, i: nat, batch: seq<nat>, j: nat)
    requires Planned(x) && i < |x.g.nodes| && batch == BatchAfter(x.g, x.env, i, NONE, PLAIN)
    requires j < |x.g.nodes| && (j > i || IsSource(x.g.nodes[j]))
    ensures j !in batch
  {
    assert x.rel[j] >= 0 ==> ReleasedLate(x.g, x.rel, j);
  }

  lemma {:induction false} ReleaseLeavesOthers(g: Graph, judge: State, st: State, batch: seq<nat>, k: nat, j: nat)
    requires WellFormed(g) && |g.nodes| == |st.tensors| == |judge.tensors| && k <= |batch| && j < |g.nodes| && j !in batch
    requires forall i :: 0 <= i < |batch| ==> batch[i] < |g.nodes|
    ensures ReleaseFirst(g, judge, false, st, batch, k).tensors[j] == st.tensors[j]
  {
    hide LooksBorrowed;
    if k > 0 {
      ReleaseLeavesOthers(g, judge, st, batch, k - 1, j);
    }
  }

  /** An unfused run keeps the invariant, and no tensor after it changes. */
  lemma {:induction false} UnfusedRunKeeps(x: Pass, last: nat, done: set<nat>, i: nat, st: State) returns (done': set<nat>)
    requires Running(x, done, i, st) && Unfused(x.env) && i <= last + 1 <= |x.g.nodes|
    ensures var r := Run(x.g, x.env, last, i, st, NONE).0;
      && (if r.failed then Inv(x, r, done', 0) else Running(x, done', last + 1, r))
      && forall j :: 0 <= j < |x.g.nodes| && (j > last || IsSource(x.g.nodes[j])) ==> r.tensors[j] == st.tensors[j]
    decreases last + 1 - i
  {
    hide Step, Unfused, Covers;
    if i > last {
      done' := done;
    } else {
      var done1 := UnfusedStepKeeps(x, last, done, i, st);
      var s := Step(x.g, x.env, last, i, st, NONE).0;
      forall j: nat | j < |x.g.nodes| && (j > last || IsSource(x.g.nodes[j]))
        ensures s.tensors[j] == st.tensors[j]
      {
        StepLeavesLater(x, last, done, i, st, j);
      }
      if s.failed {
        done' := done1;
      } else {
        done' := UnfusedRunKeeps(x, last, done1, i + 1, s);
      }
    }
  }

  /** An unfused run through `last` has computed exactly the nodes through it. */
  lemma StoppedExactly(x: Pass, st: State, last: nat)
    requires Planned(x) && Inv(x, st, {}, 0) && !st.failed && Unfused(x.env) && x.eliminable == {} && last < |x.g.nodes|
    ensures var r := Execute(x.g, x.env, last, st); !r.failed ==> StoppedAt(x, st, r, last)
  {
    assert Covers(x, {}, 0);
    hide *;
    ExecuteIs(x, st, last);
    var done := UnfusedRunKeeps(x, last, {}, 0, st);
    var r := Execute(x.g, x.env, last, st);
    if !r.failed {
      LeftStopped(x, done, st, r, last);
    }
  }

  lemma LeftStopped(x: Pass, done: set<nat>, st: State, r: State, last: nat)
    requires Running(x, done, last + 1, r) && x.eliminable == {} && |st.tensors| == |x.g.nodes|
    requires forall j :: 0 <= j < |x.g.nodes| && (j > last || IsSource(x.g.nodes[j])) ==> r.tensors[j] == st.tensors[j]
    ensures StoppedAt(x, st, r, last)
  {
    hide CanRead;
    forall j: nat | j < |x.g.nodes| && !IsSource(x.g.nodes[j]) && j <= last
      ensures if 0 <= x.rel[j] <= last then r.tensors[j].Empty? else CanRead(x, r, j)
    {
      DoneOrGone(x, done, last + 1, r, j);
    }
  }

  lemma ExecuteIs(x: Pass, st: State, last: nat)
    requires Planned(x) && last < |x.g.nodes| == |st.tensors|
    ensures Execute(x.g, x.env, last, st) == Run(x.g, x.env, last, 0, st, NONE).0
  {
  }

  lemma DoneOrGone(x: Pass, done: set<nat>, i: nat, r: State, j: nat)
    requires Running(x, done, i, r) && x.eliminable == {} && j < i && !IsSource(x.g.nodes[j])
    ensures if 0 <= x.rel[j] < i then r.tensors[j].Empty? else CanRead(x, r, j)
  {
    assert NodeInv(x, r, done, i, j);
    if !(0 <= x.rel[j] < i) {
      assert Needed(x, i, j);
      assert NodeOk(x.g, j);
      var id := x.g.nodes[j].id;
      ReadOne(x, r, done, i, id);
      assert ReadAll(x.env, r, [id])[0] == Den(x, j);
    }
  }

  /** Which fusions a call may make: all in a whole unstopped pass, none in a stopped
      one, and in segments all but the MoE's if the pass asks for fusions. */
  lemma FusesExactly(env: Env, fusions: bool)
    ensures Switches(env, false, false, fusions) == env && Unfused(Switches(env, false, true, fusions))
    ensures Switches(env, true, true, fusions) == if fusions then env.(moeOn := false)
                                                  else env.(gateOn := false, upOn := false, injectOn := false, moeOn := false)
  {
  }

  /** A call that asks to stop at a node has computed exactly the nodes through it. */
  lemma StoppedCall(g: Graph, env: Env, c: Context, stop: nat, x: Pass)
    requires Shaped(g, env, c.st) && stop < |g.nodes| && x.g == g && x.env == Switches(env, false, true, false) && x.eliminable == {}
    requires Planned(x) && Inv(x, ResetTensors(g, c.st.(failed := false), false, env.reuse), {}, 0)
    ensures var r := Segments.After(g, env, c, Whole(stop)).st;
      !r.failed ==> StoppedAt(x, ResetTensors(g, c.st.(failed := false), false, env.reuse), r, stop)
  {
    var start := ResetTensors(g, c.st.(failed := false), false, env.reuse);
    ResetNeverFails(g, c.st.(failed := false), false, env.reuse);
    hide Inv, Planned, ResetTensors, Run, StoppedAt, WellFormed, QueueShape;
    StoppedExactly(x, start, stop);
  }

  /** A suspended pass has computed exactly the nodes before the one it resumes at,
      if its segments do not fuse. */
  lemma SuspendedExactly(g: Graph, env: Env, c: Context, qs: seq<Call>, x: Pass) returns (k: nat)
    requires Shaped(g, env, c.st) && c.next <= 0
    requires var r := AfterAll(g, env, c, qs);
      && r.next > 0 && !r.st.failed && x.g == g && x.env == Fusing(env, r.identity) && Unfused(x.env) && x.eliminable == {}
    requires Planned(x)
    ensures k < |qs|
    ensures var r, start := AfterAll(g, env, c, qs), StartOf(g, env, c, qs, k);
      Inv(x, start, {}, 0) ==> r.next <= |g.nodes| && StoppedAt(x, start, r.st, r.next - 1)
  {
    hide AfterAll, ResetTensors, Run, RunSegments, Inv, Planned, Unfused, StoppedAt, Fusing, Switches, Chain, Follows;
    k := SuspendedMeansContiguous(g, env, c, qs);
    var e, ends, start := Fusing(env, qs[k].id), Ends(qs, k), StartOf(g, env, c, qs, k);
    CutsGrow(g, 0, ends);
    SegmentedIsWhole(g, e, 0, ends, start);
    if Inv(x, start, {}, 0) {
      ResetNeverFails(g, AfterAll(g, env, c, qs[..k]).st.(failed := false), false, env.reuse);
      StoppedExactly(x, start, EndOf(0, ends) - 1);
    }
  }
}
