/** Theorems about whole passes and sequences of passes: safety, meaning,
    fusion, segments, and the return of every buffer. */
module Passes {
  import opened Wrappers
  import opened Graph
  import opened Liveness
  import opened Fusion
  import opened Executor
  import opened ExecutorMemory
  import opened ExecutorRun

  // ---- starting and finishing ----

  /** The ids of the computed nodes below `n`, in order. */
  function Operators(g: Graph, n: nat): (r: seq<nat>)
    requires n <= |g.nodes|
    ensures forall k :: 0 <= k < |r| ==> r[k] < n && !IsSource(g.nodes[r[k]])
    ensures forall a, b :: 0 <= a < b < |r| ==> r[a] < r[b]
    ensures forall j {:trigger j in r} :: 0 <= j < n && !IsSource(g.nodes[j]) ==> j in r
  {
    if n == 0 then [] else if IsSource(g.nodes[n - 1]) then Operators(g, n - 1) else Operators(g, n - 1) + [n - 1]
  }

  lemma OperatorsAreAll(g: Graph)
    ensures var ops := Operators(g, |g.nodes|);
            (set k | 0 <= k < |ops| :: ops[k]) == set j: nat | j < |g.nodes| && !IsSource(g.nodes[j])
  {
    var ops := Operators(g, |g.nodes|);
    forall j: nat | j < |g.nodes| && !IsSource(g.nodes[j])
      ensures j in set k | 0 <= k < |ops| :: ops[k]
    {
      assert j in ops;
    }
  }

  /** Clears the first `n` borrowed views (graph/execute.cpp:558-568, engine/engine.cpp:107-113). */
  function ClearBorrowed(g: Graph, judge: State, cleanup: bool, st: State, n: nat): (r: State)
    requires WellFormed(g) && |g.nodes| == |st.tensors| == |judge.tensors| && n <= |g.nodes|
    ensures |r.tensors| == |st.tensors| && r == st.(tensors := r.tensors)
    ensures forall d :: 0 <= d < |g.nodes| ==>
      (r.tensors[d] == if d < n && !IsSource(g.nodes[d]) && LooksBorrowed(g, judge, d, cleanup) then Empty else st.tensors[d])
  {
    if n == 0 then st
    else
      var s := ClearBorrowed(g, judge, cleanup, st, n - 1);
      if !IsSource(g.nodes[n - 1]) && LooksBorrowed(g, judge, n - 1, cleanup)
      then s.(tensors := s.tensors[n - 1 := Empty]) else s
  }

  /** The reset at the start of a fresh pass (graph/execute.cpp:518-597) and, with
      `cleanup`, the engine's cleanup after one (engine/engine.cpp:102-159):
      clear the views first, then release what is left unless it is kept as
      reusable workspace. */
  function ResetTensors(g: Graph, st: State, cleanup: bool, reuse: bool): (r: State)
    requires WellFormed(g) && |g.nodes| == |st.tensors|
    ensures |r.tensors| == |st.tensors|
  {
    var s := ClearBorrowed(g, st, cleanup, st, |g.nodes|);
    var ops := Operators(g, |g.nodes|);
    if reuse then s else ReleaseFirst(g, st, cleanup, s, ops, |ops|)
  }

  /** Clearing views leaves the owners and their buffers. */
  lemma ClearBorrowedKeeps(x: Pass, st: State, done: set<nat>, cleanup: bool)
    requires Inv(x, st, done, 0)
    ensures var s := ClearBorrowed(x.g, st, cleanup, st, |x.g.nodes|);
            && Inv(x, s, {}, 0)
            && forall j :: 0 <= j < |x.g.nodes| && !IsSource(x.g.nodes[j]) ==>
                 s.tensors[j] == if Owns(x, st, j) then st.tensors[j] else Empty
  {
    var s := ClearBorrowed(x.g, st, cleanup, st, |x.g.nodes|);
    forall j | 0 <= j < |x.g.nodes| && !IsSource(x.g.nodes[j])
      ensures s.tensors[j] == if Owns(x, st, j) then st.tensors[j] else Empty
      ensures NodeInv(x, s, {}, 0, j)
    {
      assert NodeInv(x, st, done, 0, j);
      if st.tensors[j].Buf? {
        ClassificationIsExact(x, st, done, 0, j, cleanup);
      }
    }
    assert forall a: nat :: Owns(x, s, a) <==> Owns(x, st, a);
  }

  /** Reset and cleanup return every acquired buffer exactly once, touch nothing
      of the caller's, and leave no computed tensor with storage. */
  lemma ResetReturnsEverything(x: Pass, st: State, done: set<nat>, cleanup: bool)
    requires Inv(x, st, done, 0)
    ensures var r := ResetTensors(x.g, st, cleanup, false);
            && r.live == x.start.live && !r.fault && r.failed == st.failed && r.mem == st.mem
            && Inv(x, r, {}, 0)
            && forall j :: 0 <= j < |x.g.nodes| ==>
                 r.tensors[j] == if IsSource(x.g.nodes[j]) then st.tensors[j] else Empty
  {
    ClearBorrowedKeeps(x, st, done, cleanup);
    var s := ClearBorrowed(x.g, st, cleanup, st, |x.g.nodes|);
    var ops := Operators(x.g, |x.g.nodes|);
    forall k | 0 <= k < |ops| && s.tensors[ops[k]].Buf?
      ensures LooksBorrowed(x.g, st, ops[k], cleanup) <==> !Owns(x, s, ops[k])
    {
      ClassificationIsExact(x, st, done, 0, ops[k], cleanup);
    }
    ReleaseFirstEffect(x, st, cleanup, s, {}, 0, ops, |ops|);
    OperatorsAreAll(x.g);
    ReleasedAll(x, s, ReleaseFirst(x.g, st, cleanup, s, ops, |ops|), set k | 0 <= k < |ops| :: ops[k]);
  }

  lemma ReleasedAll(x: Pass, s: State, r: State, gone: set<nat>)
    requires Inv(x, s, {}, 0) && ReleasedAs(x, s, r, gone)
    requires forall j: nat :: j in gone <==> j < |x.g.nodes| && !IsSource(x.g.nodes[j])
    ensures r.live == x.start.live && Inv(x, r, {}, 0)
    ensures forall j :: 0 <= j < |x.g.nodes| ==> r.tensors[j] == if IsSource(x.g.nodes[j]) then s.tensors[j] else Empty
  {
    forall p | p in s.live
      ensures p in r.live <==> p in x.start.live
    {
      if p in x.start.live {
        assert forall d <- gone :: Owns(x, s, d) ==> NodeInv(x, s, {}, 0, d);
      } else {
        var j: nat :| Owns(x, s, j) && s.tensors[j].ptr == p;
        assert j in gone;
      }
    }
    assert forall a: nat :: !Owns(x, r, a);
    forall j | 0 <= j < |x.g.nodes| && !IsSource(x.g.nodes[j])
      ensures NodeInv(x, r, {}, 0, j)
    {
    }
  }

  // ---- one pass ----

  /** A pass may start: computed tensors are empty, or own buffers kept as
      workspace that this pass will not replace by views. */
  ghost predicate Startable(x: Pass, st: State) {
    Planned(x) && EliminableExact(x) && RowsConsistent(x) && Inv(x, st, {}, 0) && !st.failed && |x.g.nodes| > 0
  }

  function Execute(g: Graph, env: Env, last: nat, st: State): State
    requires WellFormed(g) && last < |g.nodes| == |st.tensors| && QueueShape(g, env.queue)
  {
    Run(g, env, last, 0, st, NONE).0
  }

  ghost predicate CanRead(x: Pass, st: State, j: nat)
    requires PassOk(x)
  {
    j < |x.g.nodes| && Readable(st, j) && Read(x.env, st, st.tensors[j]) == Den(x, j)
  }

  /** Safety: whatever the pool, the RESHAPEs and the backend's fusions do, no
      step of a pass reads, writes or releases storage that is not live. */
  lemma PassIsSafe(x: Pass, st: State, last: nat) returns (done: set<nat>)
    requires Startable(x, st) && last < |x.g.nodes|
    ensures var r := Execute(x.g, x.env, last, st);
            !r.fault && Inv(x, r, done, 0) && (!r.failed ==> Running(x, done, last + 1, r))
  {
    assert Covers(x, {}, 0);
    hide Covers, EliminableExact, RowsConsistent, Run, Needed;
    done := RunKeeps(x, last, {}, 0, st, NONE);
    var r := Execute(x.g, x.env, last, st);
    if !r.failed {
      Weaken(x, r, done, last + 1);
    }
  }

  /** Stopped after any node, a pass holds nothing that the plan has released by then. */
  lemma ReleasedOnTime(x: Pass, st: State, last: nat, j: nat)
    requires Startable(x, st) && last < |x.g.nodes| && j < |x.g.nodes| && !IsSource(x.g.nodes[j]) && 0 <= x.rel[j] <= last
    ensures var r := Execute(x.g, x.env, last, st); !r.failed ==> r.tensors[j].Empty?
  {
    hide Covers, EliminableExact, RowsConsistent;
    var done := PassIsSafe(x, st, last);
    if !Execute(x.g, x.env, last, st).failed {
      assert NodeInv(x, Execute(x.g, x.env, last, st), done, last + 1, j);
    }
  }

  lemma ReleasedFacts(x: Pass, j: nat)
    requires PassOk(x) && j < |x.g.nodes|
    ensures x.rel[j] == -1 || (j <= x.rel[j] < |x.g.nodes| && j !in x.g.outputs)
  {
    if x.rel[j] >= 0 {
      assert ReleasedLate(x.g, x.rel, j);
    }
  }

  lemma EliminableIsHidden(g: Graph, j: nat)
    requires Eliminable(g, j)
    ensures j !in g.outputs
  {
    assert !Exposed(g, j);
  }

  /** Outputs are never eliminated by a fusion, and are live when a pass ends. */
  lemma OutputsSurvive(x: Pass, done: set<nat>, st: State, o: nat)
    requires Running(x, done, |x.g.nodes|, st) && EliminableExact(x) && o in x.g.outputs
    ensures CanRead(x, st, o)
  {
    if o in x.eliminable {
      EliminableIsHidden(x.g, o);
    }
    ReleasedFacts(x, o);
    assert IsSource(x.g.nodes[o]) || Needed(x, |x.g.nodes|, o);
    ReadOne(x, st, done, |x.g.nodes|, o);
    assert ReadAll(x.env, st, [o])[0] == Den(x, o);
  }

  /** What a finished pass makes of computed node `j`: it is gone if and only if the
      plan releases it, and readable with its value otherwise; only a node that a
      fused dispatch may leave out need not have been made. */
  ghost predicate AsPlanned(x: Pass, r: State, j: nat)
    requires PassOk(x) && j < |x.g.nodes| == |r.tensors|
  {
    && (x.rel[j] >= 0 ==> r.tensors[j].Empty?)
    && (j !in x.eliminable ==> (r.tensors[j].Empty? <==> x.rel[j] >= 0) && (x.rel[j] == -1 ==> CanRead(x, r, j)))
  }

  /** Every buffer a finished pass leaves live is the caller's or owned by a tensor
      that the plan keeps. */
  ghost predicate OnlyKeptLive(x: Pass, r: State)
    requires PassOk(x) && |x.g.nodes| == |r.tensors|
  {
    forall p <- r.live :: p in x.start.live || exists j: nat :: Owns(x, r, j) && r.tensors[j].ptr == p && x.rel[j] == -1
  }

  /** A completed run, whole or in segments. */
  ghost predicate Completed(x: Pass, r: State)
    requires PassOk(x) && |x.g.nodes| == |r.tensors|
  {
    && (forall o <- x.g.outputs :: CanRead(x, r, o))
    && (forall j :: 0 <= j < |x.g.nodes| && !IsSource(x.g.nodes[j]) ==> AsPlanned(x, r, j))
    && OnlyKeptLive(x, r)
  }

  lemma LeftAsPlanned(x: Pass, done: set<nat>, r: State, j: nat)
    requires Running(x, done, |x.g.nodes|, r) && j < |x.g.nodes| && !IsSource(x.g.nodes[j])
    ensures AsPlanned(x, r, j)
  {
    assert NodeInv(x, r, done, |x.g.nodes|, j);
    ReleasedFacts(x, j);
    if x.rel[j] == -1 && j !in x.eliminable {
      assert Needed(x, |x.g.nodes|, j);
      assert NodeOk(x.g, j);
      var id := x.g.nodes[j].id;
      ReadOne(x, r, done, |x.g.nodes|, id);
      assert ReadAll(x.env, r, [id])[0] == Den(x, j);
    }
  }

  lemma FinishedIsCompleted(x: Pass, done: set<nat>, r: State)
    requires Running(x, done, |x.g.nodes|, r) && EliminableExact(x)
    ensures Completed(x, r)
  {
    forall o | o in x.g.outputs
      ensures CanRead(x, r, o)
    {
      OutputsSurvive(x, done, r, o);
    }
    forall j | 0 <= j < |x.g.nodes| && !IsSource(x.g.nodes[j])
      ensures AsPlanned(x, r, j)
    {
      LeftAsPlanned(x, done, r, j);
    }
    forall p | p in r.live && p !in x.start.live
      ensures exists j: nat :: Owns(x, r, j) && r.tensors[j].ptr == p && x.rel[j] == -1
    {
      var j: nat :| Owns(x, r, j) && r.tensors[j].ptr == p;
      assert NodeInv(x, r, done, |x.g.nodes|, j);
      ReleasedFacts(x, j);
    }
  }

  /** Meaning: a completed pass leaves every graph output readable, holding the
      value the graph denotes; exactly the nodes the plan releases are gone, and
      every other one still holds its value. */
  lemma PassComputesGraph(x: Pass, st: State)
    requires Startable(x, st)
    ensures var r := Execute(x.g, x.env, |x.g.nodes| - 1, st);
            !r.fault && (!r.failed ==> Completed(x, r))
  {
    hide Completed;
    var done := PassIsSafe(x, st, |x.g.nodes| - 1);
    var r := Execute(x.g, x.env, |x.g.nodes| - 1, st);
    if !r.failed {
      FinishedIsCompleted(x, done, r);
    }
  }

  /** The planner and the executor together: with the queue prepare_execution
      builds, every pass over a well-formed graph is safe and computes it. */
  lemma PlannedPassComputesGraph(g: Graph, cfg: Config, x: Pass, st: State)
    requires WellFormed(g) && x.g == g && x.rel == Schedule(g, cfg) && IsReleaseQueue(g, cfg, x.env.queue)
    requires |g.nodes| == |x.start.tensors| > 0 && x.start.live <= x.start.mem.Keys && PoolOk(x.env) && !x.env.reuse
    requires forall s :: 0 <= s < |g.nodes| && IsSource(g.nodes[s]) ==> SourceBound(x, s)
    requires EliminableExact(x) && RowsConsistent(x)
    requires st == x.start && Quiet(g, st) && !st.failed
    ensures PassOk(x) && QueueMatches(x)
    ensures var r := Execute(g, x.env, |g.nodes| - 1, st);
            !r.fault && (!r.failed ==> Completed(x, r))
  {
    hide Completed, EliminableExact, RowsConsistent, IsReleaseQueue, WellFormed, Schedule, SourceBound, QueueMatches, Execute, Inv;
    BuiltIsPlanned(g, cfg, x);
    QuietIsStartable(x, st);
    PassComputesGraph(x, st);
  }

  lemma BuiltIsPlanned(g: Graph, cfg: Config, x: Pass)
    requires WellFormed(g) && x.g == g && x.rel == Schedule(g, cfg) && IsReleaseQueue(g, cfg, x.env.queue)
    requires |g.nodes| == |x.start.tensors| && x.start.live <= x.start.mem.Keys && PoolOk(x.env) && !x.env.reuse
    requires forall s :: 0 <= s < |g.nodes| && IsSource(g.nodes[s]) ==> SourceBound(x, s)
    ensures Planned(x)
  {
    PlanIsSafe(g, cfg);
    PlannedQueue(g, cfg, x);
  }

  // ---- fusion ----

  /** Two passes over the same graph, bindings, kernels and schedule that may
      differ in everything else: pool, borrowing, fusion switches, acceptance. */
  ghost predicate SameProgram(x: Pass, y: Pass) {
    x.g == y.g && x.start == y.start && x.rel == y.rel && x.env.kernel == y.env.kernel
  }

  lemma {:induction false} SameMeaning(x: Pass, y: Pass, j: nat)
    requires PassOk(x) && PassOk(y) && SameProgram(x, y) && j < |x.g.nodes|
    ensures Den(x, j) == Den(y, j)
    decreases j
  {
    if !IsSource(x.g.nodes[j]) {
      assert NodeOk(x.g, j);
      var ids := Args(x.g.nodes[j]);
      forall k | 0 <= k < |ids|
        ensures DenAll(x, ids, j)[k] == DenAll(y, ids, j)[k]
      {
        SameMeaning(x, y, ids[k]);
      }
      assert DenAll(x, ids, j) == DenAll(y, ids, j);
    }
  }

  /** Two finished passes agree: the same outputs, the same nodes gone, and the
      same value in every node that is kept.  Only nodes between the parts of a
      fusible chain may differ, and of those too none is left that is released. */
  ghost predicate Agree(x: Pass, r: State, y: Pass, r': State)
    requires |x.g.nodes| == |r.tensors| == |r'.tensors| && |x.rel| == |x.g.nodes|
  {
    && (forall o <- x.g.outputs :: Readable(r, o) && Readable(r', o) && Read(x.env, r, r.tensors[o]) == Read(y.env, r', r'.tensors[o]))
    && (forall j :: 0 <= j < |x.g.nodes| && !IsSource(x.g.nodes[j]) ==> AgreeAt(x, r, y, r', j))
  }

  ghost predicate AgreeAt(x: Pass, r: State, y: Pass, r': State, j: nat)
    requires j < |x.g.nodes| == |r.tensors| == |r'.tensors| && |x.rel| == |x.g.nodes|
  {
    && (x.rel[j] >= 0 ==> r.tensors[j].Empty? && r'.tensors[j].Empty?)
    && (j !in x.eliminable ==>
          && (r.tensors[j].Empty? <==> r'.tensors[j].Empty?)
          && (r.tensors[j].Buf? ==>
                Readable(r, j) && Readable(r', j) && Read(x.env, r, r.tensors[j]) == Read(y.env, r', r'.tensors[j])))
  }

  /** Any mix of fusions, accepted or declined, gives the same outputs and kept
      values as any other, none included, and frees the same set of nodes. */
  lemma FusionIsInvisible(x: Pass, y: Pass, st: State, st': State)
    requires Startable(x, st) && Startable(y, st') && SameProgram(x, y)
    ensures var r, r' := Execute(x.g, x.env, |x.g.nodes| - 1, st), Execute(y.g, y.env, |y.g.nodes| - 1, st');
            !r.failed && !r'.failed ==> Agree(x, r, y, r')
  {
    PassComputesGraph(x, st);
    PassComputesGraph(y, st');
    var r, r' := Execute(x.g, x.env, |x.g.nodes| - 1, st), Execute(y.g, y.env, |y.g.nodes| - 1, st');
    if !r.failed && !r'.failed {
      CompletedAgree(x, r, y, r');
    }
  }

  lemma CompletedAgree(x: Pass, r: State, y: Pass, r': State)
    requires PassOk(x) && PassOk(y) && SameProgram(x, y) && EliminableExact(x) && EliminableExact(y)
    requires |x.g.nodes| == |r.tensors| == |r'.tensors| && Completed(x, r) && Completed(y, r')
    ensures Agree(x, r, y, r')
  {
    hide Den, OnlyKeptLive;
    forall o | o in x.g.outputs
      ensures Readable(r, o) && Readable(r', o) && Read(x.env, r, r.tensors[o]) == Read(y.env, r', r'.tensors[o])
    {
      assert CanRead(x, r, o) && CanRead(y, r', o);
      SameMeaning(x, y, o);
    }
    forall j | 0 <= j < |x.g.nodes| && !IsSource(x.g.nodes[j])
      ensures AgreeAt(x, r, y, r', j)
    {
      assert AsPlanned(x, r, j) && AsPlanned(y, r', j);
      ReleasedFacts(x, j);
      SameEliminable(x, y, j);
      SameMeaning(x, y, j);
    }
  }

  lemma SameEliminable(x: Pass, y: Pass, j: nat)
    requires x.g == y.g && EliminableExact(x) && EliminableExact(y)
    ensures j in x.eliminable <==> j in y.eliminable
  {
  }

  // ---- segments ----

  predicate Unfused(env: Env) {
    !env.gateOn && !env.upOn && !env.injectOn
  }

  lemma UnfusedStep(g: Graph, env: Env, last: nat, last': nat, i: nat, st: State)
    requires WellFormed(g) && i < |g.nodes| == |st.tensors| && QueueShape(g, env.queue) && Unfused(env)
    ensures Step(g, env, last, i, st, NONE) == Step(g, env, last', i, st, NONE)
    ensures Step(g, env, last, i, st, NONE).1 == NONE
  {
    assert FlagsAt(g, env, last, i, NONE) == PLAIN == FlagsAt(g, env, last', i, NONE);
  }

  /** An unfused pass may be cut anywhere: running to `mid` and resuming after
      it ends in exactly the state of the uncut run. */
  lemma {:induction false} UnfusedRunSplits(g: Graph, env: Env, last: nat, mid: nat, i: nat, st: State)
    requires WellFormed(g) && i <= mid + 1 && mid <= last < |g.nodes| == |st.tensors|
    requires QueueShape(g, env.queue) && Unfused(env)
    ensures Run(g, env, mid, i, st, NONE).1 == NONE
    ensures Run(g, env, last, i, st, NONE) == Run(g, env, last, mid + 1, Run(g, env, mid, i, st, NONE).0, NONE)
    decreases mid + 1 - i
  {
    if i <= mid && !st.failed {
      UnfusedStep(g, env, last, mid, i, st);
      hide Step;
      UnfusedRunSplits(g, env, last, mid, i + 1, Step(g, env, mid, i, st, NONE).0);
    }
  }

  /** Consecutive segment ends from node `first` on. */
  predicate Cuts(g: Graph, first: nat, ends: seq<nat>)
    decreases |ends|
  {
    if ends == [] then first <= |g.nodes| else first < ends[0] <= |g.nodes| && Cuts(g, ends[0], ends[1..])
  }

  /** Where they arrive. */
  function EndOf(first: nat, ends: seq<nat>): nat {
    if ends == [] then first else ends[|ends| - 1]
  }

  /** Runs the segments one after the other, each with the fusions it may hold. */
  function RunSegments(g: Graph, env: Env, first: nat, ends: seq<nat>, st: State): (r: State)
    requires WellFormed(g) && |g.nodes| == |st.tensors| && QueueShape(g, env.queue) && Cuts(g, first, ends)
    ensures |r.tensors| == |st.tensors|
    decreases |ends|
  {
    if ends == [] then st
    else RunSegments(g, env, ends[0], ends[1..], Run(g, env, ends[0] - 1, first, st, NONE).0)
  }

  /** The first segment, and the others from where it ends. */
  lemma FirstOfSegments(g: Graph, env: Env, first: nat, ends: seq<nat>, st: State)
    requires WellFormed(g) && |g.nodes| == |st.tensors| && QueueShape(g, env.queue) && Cuts(g, first, ends)
    ensures if ends == [] then RunSegments(g, env, first, ends, st) == st && EndOf(first, ends) == first <= |g.nodes| else
      && first < ends[0] <= |g.nodes| && Cuts(g, ends[0], ends[1..])
      && RunSegments(g, env, first, ends, st) == RunSegments(g, env, ends[0], ends[1..], Run(g, env, ends[0] - 1, first, st, NONE).0)
      && EndOf(first, ends) == EndOf(ends[0], ends[1..])
  {
    hide Run, WellFormed, QueueShape;
  }

  lemma {:induction false} CutsGrow(g: Graph, first: nat, ends: seq<nat>)
    requires Cuts(g, first, ends)
    ensures first <= EndOf(first, ends) <= |g.nodes| && (ends != [] ==> first < EndOf(first, ends))
    decreases |ends|
  {
    if ends != [] {
      CutsGrow(g, ends[0], ends[1..]);
    }
  }

  /** One segment more. */
  lemma {:induction false} SegmentsSnoc(g: Graph, env: Env, first: nat, ends: seq<nat>, end: nat, st: State)
    requires WellFormed(g) && |g.nodes| == |st.tensors| && QueueShape(g, env.queue) && Cuts(g, first, ends)
    requires EndOf(first, ends) < end <= |g.nodes|
    ensures Cuts(g, first, ends + [end])
    ensures RunSegments(g, env, first, ends + [end], st) ==
            Run(g, env, end - 1, EndOf(first, ends), RunSegments(g, env, first, ends, st), NONE).0
    decreases |ends|
  {
    hide Run;
    if ends == [] {
      assert ([] + [end])[1..] == [];
    } else {
      assert (ends + [end])[1..] == ends[1..] + [end];
      SegmentsSnoc(g, env, ends[0], ends[1..], end, Run(g, env, ends[0] - 1, first, st, NONE).0);
    }
  }

  /** Without fusions, any segmentation ends in the very state of one uncut run:
      same tensors, same live buffers, hence the same releases. */
  lemma {:induction false} SegmentedIsWhole(g: Graph, env: Env, first: nat, ends: seq<nat>, st: State)
    requires WellFormed(g) && |g.nodes| == |st.tensors| && QueueShape(g, env.queue) && Cuts(g, first, ends)
    requires Unfused(env)
    ensures EndOf(first, ends) <= |g.nodes|
    ensures RunSegments(g, env, first, ends, st) ==
            if EndOf(first, ends) <= first then st else Run(g, env, EndOf(first, ends) - 1, first, st, NONE).0
    decreases |ends|
  {
    hide WellFormed, QueueShape, Unfused, Run;
    CutsGrow(g, first, ends);
    if ends != [] {
      var s := Run(g, env, ends[0] - 1, first, st, NONE).0;
      CutsGrow(g, ends[0], ends[1..]);
      UnfusedRunSplits(g, env, EndOf(first, ends) - 1, ends[0] - 1, first, st);
      SegmentedIsWhole(g, env, ends[0], ends[1..], s);
    }
  }

  /** With fusions confined to their segments, a segmented pass still computes
      the graph: no chain straddles a cut. */
  lemma {:induction false} SegmentsKeep(x: Pass, first: nat, ends: seq<nat>, done: set<nat>, st: State)
      returns (done': set<nat>)
    requires Running(x, done, first, st) && EliminableExact(x) && RowsConsistent(x) && Cuts(x.g, first, ends)
    ensures EndOf(first, ends) <= |x.g.nodes|
    ensures var r := RunSegments(x.g, x.env, first, ends, st);
            if r.failed then Inv(x, r, done', 0) else Running(x, done', EndOf(first, ends), r)
    decreases |ends|
  {
    hide *;
    CutsGrow(x.g, first, ends);
    MayRun(x, done, first, st);
    FirstOfSegments(x.g, x.env, first, ends, st);
    if ends == [] {
      done' := done;
    } else {
      var done1 := SegmentKeeps(x, first, ends[0] - 1, done, st);
      var s := Run(x.g, x.env, ends[0] - 1, first, st, NONE).0;
      if s.failed {
        FailedStays(x.g, x.env, ends[0], ends[1..], s);
        done' := done1;
      } else {
        done' := SegmentsKeep(x, ends[0], ends[1..], done1, s);
      }
    }
  }

  lemma MayRun(x: Pass, done: set<nat>, first: nat, st: State)
    requires Running(x, done, first, st)
    ensures WellFormed(x.g) && |x.g.nodes| == |st.tensors| && QueueShape(x.g, x.env.queue) && !st.failed
    ensures PendingBehind(first, NONE)
  {
  }

  lemma SegmentKeeps(x: Pass, first: nat, last: nat, done: set<nat>, st: State) returns (done': set<nat>)
    requires Running(x, done, first, st) && EliminableExact(x) && RowsConsistent(x) && first <= last < |x.g.nodes|
    ensures var r := Run(x.g, x.env, last, first, st, NONE).0;
            if r.failed then Inv(x, r, done', 0) else Running(x, done', last + 1, r)
  {
    hide Run, Inv, Covers, EliminableExact, RowsConsistent;
    done' := RunKeeps(x, last, done, first, st, NONE);
  }

  lemma {:induction false} FailedStays(g: Graph, env: Env, first: nat, ends: seq<nat>, st: State)
    requires WellFormed(g) && |g.nodes| == |st.tensors| && QueueShape(g, env.queue) && Cuts(g, first, ends) && st.failed
    ensures RunSegments(g, env, first, ends, st) == st
    decreases |ends|
  {
    if ends != [] {
      FailedStays(g, env, ends[0], ends[1..], st);
    }
  }

  lemma SegmentedPassComputesGraph(x: Pass, ends: seq<nat>, st: State)
    requires Startable(x, st) && Cuts(x.g, 0, ends) && EndOf(0, ends) == |x.g.nodes|
    ensures var r := RunSegments(x.g, x.env, 0, ends, st);
            !r.fault && (!r.failed ==> Completed(x, r))
  {
    hide Completed;
    assert Covers(x, {}, 0);
    var done := SegmentsKeep(x, 0, ends, {}, st);
    var r := RunSegments(x.g, x.env, 0, ends, st);
    if !r.failed {
      FinishedIsCompleted(x, done, r);
    }
  }

  // ---- starting from nothing ----

  /** Nothing but the caller's storage is live. */
  ghost predicate Quiet(g: Graph, st: State) {
    && WellFormed(g) && |st.tensors| == |g.nodes| > 0 && !st.fault && st.live <= st.mem.Keys
    && (forall j :: 0 <= j < |g.nodes| && !IsSource(g.nodes[j]) ==> st.tensors[j].Empty?)
  }

  /** A pass set up over a quiet state. */
  ghost predicate SetUp(x: Pass, st: State) {
    x.start == st && Planned(x) && EliminableExact(x) && RowsConsistent(x)
  }

  lemma QuietIsStartable(x: Pass, st: State)
    requires Quiet(x.g, st) && SetUp(x, st)
    ensures Inv(x, st, {}, 0)
  {
    forall j | 0 <= j < |x.g.nodes| && !IsSource(x.g.nodes[j])
      ensures NodeInv(x, st, {}, 0, j)
    {
    }
    assert forall a: nat :: !Owns(x, st, a);
  }

  // ---- rebinding inputs: why cleanup must come first ----

  /** The caller has replaced its own storage and the source tensors by `bound`,
      but the computed tensors still hold what the last pass left in them. */
  ghost predicate Rebound(x: Pass, st: State, bound: State) {
    && PassOk(x) && |bound.tensors| == |x.g.nodes| == |st.tensors| && !bound.fault && bound.live <= bound.mem.Keys
    && (forall s :: 0 <= s < |x.g.nodes| && IsSource(x.g.nodes[s]) ==>
          bound.tensors[s].Buf? && bound.tensors[s].chain == [] && bound.tensors[s].ptr in bound.live)
    && (forall j: nat :: Owns(x, st, j) ==> st.tensors[j].ptr !in bound.live)
    && st.live - x.start.live <= bound.mem.Keys
  }

  function AfterRebind(g: Graph, oldCaller: set<nat>, st: State, bound: State): (r: State)
    requires |bound.tensors| == |g.nodes| == |st.tensors|
    ensures |r.tensors| == |g.nodes|
  {
    State(seq(|g.nodes|, j requires 0 <= j < |g.nodes| => if IsSource(g.nodes[j]) then bound.tensors[j] else st.tensors[j]),
          (st.live - oldCaller) + bound.live, bound.mem, false, false, st.log)
  }

  /** A RESHAPE that still views an input's previous storage. */
  ghost predicate StaleView(x: Pass, st: State, bound: State, j: nat)
    requires PassOk(x) && |bound.tensors| == |x.g.nodes| == |st.tensors|
  {
    && j < |x.g.nodes| && x.g.nodes[j].op == RESHAPE && x.g.nodes[j].inputs != []
    && st.tensors[j].Buf? && !Owns(x, st, j)
    && var s := (assert NodeOk(x.g, j); x.g.nodes[j].inputs[0]);
       IsSource(x.g.nodes[s]) && bound.tensors[s].Buf? && bound.tensors[s].ptr != st.tensors[j].ptr
  }

  lemma RebindClassifies(x: Pass, st: State, done: set<nat>, bound: State, cleanup: bool, j: nat)
    requires Inv(x, st, done, 0) && Rebound(x, st, bound) && j < |x.g.nodes| && !IsSource(x.g.nodes[j])
    requires st.tensors[j].Buf?
    ensures LooksBorrowed(x.g, AfterRebind(x.g, x.start.live, st, bound), j, cleanup) <==>
            !Owns(x, st, j) && !StaleView(x, st, bound, j)
  {
    var st' := AfterRebind(x.g, x.start.live, st, bound);
    assert NodeInv(x, st, done, 0, j) && NodeOk(x.g, j);
    ClassificationIsExact(x, st, done, 0, j, cleanup);
    if x.g.nodes[j].inputs != [] {
      var s := x.g.nodes[j].inputs[0];
      assert st'.tensors[j] == st.tensors[j];
      assert st'.tensors[s] == if IsSource(x.g.nodes[s]) then bound.tensors[s] else st.tensors[s];
    }
  }

  /** With no stale view, the reset after rebinding is exact. */
  lemma RebindWithoutStale(x: Pass, st: State, done: set<nat>, bound: State, cleanup: bool)
    requires Inv(x, st, done, 0) && Rebound(x, st, bound) && forall j: nat :: !StaleView(x, st, bound, j)
    ensures var r := ResetTensors(x.g, AfterRebind(x.g, x.start.live, st, bound), cleanup, false);
            r.live == bound.live && !r.fault
  {
    var st' := AfterRebind(x.g, x.start.live, st, bound);
    var x' := x.(start := st'.(live := bound.live));
    var s := ClearBorrowed(x.g, st', cleanup, st', |x.g.nodes|);
    forall j | 0 <= j < |x.g.nodes| && !IsSource(x.g.nodes[j])
      ensures s.tensors[j] == if Owns(x, st, j) then st.tensors[j] else Empty
    {
      if st.tensors[j].Buf? {
        RebindClassifies(x, st, done, bound, cleanup, j);
      }
    }
    RebindInv(x, st, done, bound, s);
    var ops := Operators(x.g, |x.g.nodes|);
    forall k | 0 <= k < |ops| && s.tensors[ops[k]].Buf?
      ensures LooksBorrowed(x.g, st', ops[k], cleanup) <==> !Owns(x', s, ops[k])
    {
      RebindClassifies(x, st, done, bound, cleanup, ops[k]);
    }
    ReleaseFirstEffect(x', st', cleanup, s, {}, 0, ops, |ops|);
    OperatorsAreAll(x.g);
    ReleasedAll(x', s, ReleaseFirst(x.g, st', cleanup, s, ops, |ops|), set k | 0 <= k < |ops| :: ops[k]);
  }

  lemma RebindInv(x: Pass, st: State, done: set<nat>, bound: State, s: State)
    requires Inv(x, st, done, 0) && Rebound(x, st, bound)
    requires var st' := AfterRebind(x.g, x.start.live, st, bound); s == st'.(tensors := s.tensors)
    requires |s.tensors| == |x.g.nodes|
    requires forall j :: 0 <= j < |x.g.nodes| ==>
      (s.tensors[j] == if IsSource(x.g.nodes[j]) then bound.tensors[j] else if Owns(x, st, j) then st.tensors[j] else Empty)
    ensures Inv(x.(start := AfterRebind(x.g, x.start.live, st, bound).(live := bound.live)), s, {}, 0)
  {
    var x' := x.(start := AfterRebind(x.g, x.start.live, st, bound).(live := bound.live));
    assert PassOk(x');
    assert forall a: nat :: Owns(x', s, a) <==> Owns(x, st, a);
    forall j | 0 <= j < |x.g.nodes| && !IsSource(x.g.nodes[j])
      ensures NodeInv(x', s, {}, 0, j)
    {
      assert NodeInv(x, st, done, 0, j);
    }
    forall p | p in s.live && p !in bound.live
      ensures exists j: nat :: Owns(x', s, j) && s.tensors[j].ptr == p
    {
      var j: nat :| Owns(x, st, j) && st.tensors[j].ptr == p;
      assert Owns(x', s, j);
    }
  }

  /** Releasing through a tensor misjudged as an owner: a fault, or the loss of
      whatever buffer it points to. */
  lemma {:induction false} MisjudgedRelease(g: Graph, judge: State, cleanup: bool, st: State, batch: seq<nat>, k: nat, m: nat)
    requires WellFormed(g) && |g.nodes| == |st.tensors| == |judge.tensors| && k <= |batch|
    requires forall i :: 0 <= i < |batch| ==> batch[i] < |g.nodes| && !IsSource(g.nodes[batch[i]])
    requires forall a, b :: 0 <= a < b < |batch| ==> batch[a] < batch[b]
    requires m < |batch| && st.tensors[batch[m]].Buf? && !LooksBorrowed(g, judge, batch[m], cleanup)
    ensures var r := ReleaseFirst(g, judge, cleanup, st, batch, k);
            var p := st.tensors[batch[m]].ptr;
            && r.live <= st.live && (m >= k ==> r.tensors[batch[m]] == st.tensors[batch[m]])
            && (m < k ==> p !in r.live && (p !in st.live ==> r.fault))
  {
    if k > 0 {
      MisjudgedRelease(g, judge, cleanup, st, batch, k - 1, m);
    }
  }

  /** Rebinding before the cleanup is sound exactly when no RESHAPE directly over
      a rebound input still views its previous storage: otherwise the reset takes
      that view for an owner and releases storage that is not the executor's. */
  lemma RebindSafeExactly(x: Pass, st: State, done: set<nat>, bound: State, cleanup: bool)
    requires Inv(x, st, done, 0) && Rebound(x, st, bound)
    ensures var r := ResetTensors(x.g, AfterRebind(x.g, x.start.live, st, bound), cleanup, false);
            (r.live == bound.live && !r.fault) <==> forall j: nat :: !StaleView(x, st, bound, j)
  {
    if j: nat :| StaleView(x, st, bound, j) {
      var st' := AfterRebind(x.g, x.start.live, st, bound);
      var s := ClearBorrowed(x.g, st', cleanup, st', |x.g.nodes|);
      var ops := Operators(x.g, |x.g.nodes|);
      RebindClassifies(x, st, done, bound, cleanup, j);
      assert s.tensors[j] == st.tensors[j];
      assert j in ops;
      var m :| 0 <= m < |ops| && ops[m] == j;
      MisjudgedRelease(x.g, st', cleanup, s, ops, |ops|, m);
      StaleStorageIsNotOwned(x, st, done, bound, j);
    } else {
      RebindWithoutStale(x, st, done, bound, cleanup);
    }
  }

  lemma StaleStorageIsNotOwned(x: Pass, st: State, done: set<nat>, bound: State, j: nat)
    requires Inv(x, st, done, 0) && Rebound(x, st, bound) && StaleView(x, st, bound, j)
    ensures st.tensors[j].ptr in AfterRebind(x.g, x.start.live, st, bound).live ==> st.tensors[j].ptr in bound.live
  {
    assert NodeOk(x.g, j) && NodeInv(x, st, done, 0, j) && ViewLink(x, st, done, j);
    assert SourceBound(x, x.g.nodes[j].inputs[0]);
  }

  /** One RESHAPE over one input, which the caller bound to buffer 0 and the pass
      has left viewing it; then the input is rebound to buffer 5. */
  function ViewPass(v: Val): Pass {
    var d := DimExpr(0, 0);
    var input := Node(0, INPUT, [], Params([], [], []), Four(1, 1, 1, 1), Four(d, d, d, d), FP32);
    var view := input.(id := 1, op := RESHAPE, inputs := [0]);
    var env := Env((_, _) => v, v, [[], []], false, (_, _) => None, {1}, false, false, false, false, _ => 1, 0, {}, {}, {}, {});
    Pass(Graph([input, view], [0], [1], map[]), env, [-1, -1], {}, State([Buf(0, []), Empty], {0}, map[0 := v], false, false, []))
  }

  const VIEWING := [Buf(0, []), Buf(0, [1])]

  lemma ViewPassIsSound(v: Val)
    ensures var x := ViewPass(v); PassOk(x) && Inv(x, x.start.(tensors := VIEWING), {1}, 0)
  {
    var x := ViewPass(v);
    var st := x.start.(tensors := VIEWING);
    assert NodeOk(x.g, 0) && NodeOk(x.g, 1);
    assert SafeSchedule(x.g, x.rel) && SourceBound(x, 0) && PassOk(x);
    hide SafeSchedule;
    assert ApplyChain(x.env, [1], v) == v;
    assert ViewLink(x, st, {1}, 1) && NodeInv(x, st, {1}, 0, 1);
    assert forall j: nat :: !Owns(x, st, j);
  }

  /** After that, the reset gives back storage that is not live. */
  lemma RebindCanFail(v: Val)
    ensures var x := ViewPass(v);
      var st, bound := x.start.(tensors := VIEWING), State([Buf(5, []), Empty], {5}, map[5 := v], false, false, []);
      && PassOk(x) && Inv(x, st, {1}, 0) && Rebound(x, st, bound)
      && var r := ResetTensors(x.g, AfterRebind(x.g, x.start.live, st, bound), false, false);
      r.live != bound.live || r.fault
  {
    var x := ViewPass(v);
    var st, bound := x.start.(tensors := VIEWING), State([Buf(5, []), Empty], {5}, map[5 := v], false, false, []);
    ViewPassIsSound(v);
    hide Inv, PassOk, ResetTensors;
    assert forall j: nat :: !Owns(x, st, j);
    assert StaleView(x, st, bound, 1);
    RebindSafeExactly(x, st, {1}, bound, false);
  }
}
