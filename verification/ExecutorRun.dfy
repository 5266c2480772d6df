/** Whole passes: the node loop with its postponed producers keeps the storage
    invariant and computes the meaning of the graph, fused or not. */
module ExecutorRun {
  import opened Graph
  import opened Liveness
  import opened Fusion
  import opened Executor
  import opened ExecutorMemory

  /** The release queue realises the schedule in force: the planner's, or no
      release at all when the workspace is reused. */
  ghost predicate QueueMatches(x: Pass)
    requires |x.rel| == |x.g.nodes|
  {
    && QueueShape(x.g, x.env.queue)
    && (forall i :: 0 <= i < |x.env.queue| ==> Ascending(x.env.queue[i]))
    && (if x.env.reuse then forall j :: 0 <= j < |x.rel| ==> x.rel[j] == -1
        else forall i, j: nat :: 0 <= i < |x.env.queue| && j < |x.rel| ==> (j in x.env.queue[i] <==> x.rel[j] == i))
  }

  predicate Ascending(s: seq<nat>) {
    forall a, b :: 0 <= a < b < |s| ==> s[a] < s[b]
  }

  /** Both ends of a MoE chain see the same number of rows. */
  ghost predicate RowsConsistent(x: Pass) {
    forall m: nat, c: nat :: MoeChain(x.g, m, c) ==> x.env.rows(m) == x.env.rows(m + 1)
  }

  /** `eliminable` names the intermediates of the eligible chains. */
  ghost predicate EliminableExact(x: Pass) {
    forall j: nat :: j in x.eliminable <==> j < |x.g.nodes| && Eliminable(x.g, j)
  }

  /** A pass as the engine runs it. */
  ghost predicate Planned(x: Pass) {
    PassOk(x) && QueueMatches(x)
  }

  /** The planner's queue matches the planner's schedule. */
  lemma PlannedQueue(g: Graph, cfg: Config, x: Pass)
    requires WellFormed(g) && x.g == g && x.rel == Schedule(g, cfg)
    requires IsReleaseQueue(g, cfg, x.env.queue) && !x.env.reuse
    ensures QueueMatches(x)
  {
    forall i | 0 <= i < |x.env.queue|
      ensures Ascending(x.env.queue[i])
      ensures forall j: nat :: j < |x.rel| ==> (j in x.env.queue[i] <==> x.rel[j] == i)
      ensures forall k :: 0 <= k < |x.env.queue[i]| ==> x.env.queue[i][k] < |g.nodes|
    {
      assert IsBatch(g, cfg, x.env.queue[i], i, |g.nodes|);
    }
  }

  // ---- who must hold a value before step `i` ----

  /** Nodes a fused dispatch may leave without a value. */
  ghost predicate Eliminable(g: Graph, j: nat) {
    GatePair(g, j + 1) || UpTriple(g, j + 2) || exists c: nat :: MoeChain(g, j, c)
  }

  predicate ReadFrom(g: Graph, i: nat, j: nat) {
    exists u: nat :: i <= u < |g.nodes| && j in g.nodes[u].inputs
  }

  /** `j` is not yet released when `i` is reached and may still be read. */
  ghost predicate Needed(x: Pass, i: nat, j: nat)
    requires |x.rel| == |x.g.nodes|
  {
    && j < |x.g.nodes| && !IsSource(x.g.nodes[j]) && !(0 <= x.rel[j] < i)
    && (j in x.eliminable ==> ReadFrom(x.g, i, j))
  }

  ghost predicate Covers(x: Pass, done: set<nat>, i: nat)
    requires |x.rel| == |x.g.nodes|
  {
    && (forall j <- done :: j < i)
    && (forall j: nat :: j < i && Needed(x, i, j) ==> j in done)
  }

  /** What the loop knows about its own `pending_*` locals when it reaches `i`:
      nothing is pending, or one eligible chain has been entered and its
      consumer lies ahead, at most at `last`. */
  ghost predicate PendingOk(g: Graph, last: nat, i: nat, pend: Pending) {
    || pend == NONE
    || GatePending(g, last, i, pend) || UpPending(g, last, i, pend) || UpGatePending(g, last, i, pend)
    || InjectPending(g, last, i, pend) || MoePending(g, last, i, pend) || MoeInjectPending(g, last, i, pend)
  }

  ghost predicate GatePending(g: Graph, last: nat, i: nat, pend: Pending) {
    pend == Pending(i - 1, -1, -1, -1) && GatePair(g, i) && i <= last
  }

  ghost predicate UpPending(g: Graph, last: nat, i: nat, pend: Pending) {
    pend == Pending(-1, i - 1, -1, -1) && UpTriple(g, i + 1) && i + 1 <= last
  }

  ghost predicate UpGatePending(g: Graph, last: nat, i: nat, pend: Pending) {
    pend == Pending(i - 1, i - 2, -1, -1) && UpTriple(g, i) && i <= last
  }

  ghost predicate InjectPending(g: Graph, last: nat, i: nat, pend: Pending) {
    pend == Pending(-1, -1, pend.inject, -1) && 0 <= pend.inject < i
    && exists c: nat :: i <= c <= last && InjectRms(g, pend.inject, c)
  }

  ghost predicate MoePending(g: Graph, last: nat, i: nat, pend: Pending) {
    pend == Pending(-1, -1, -1, i - 1) && i >= 1
    && exists c: nat :: i <= c <= last && MoeChain(g, pend.moe, c)
  }

  ghost predicate MoeInjectPending(g: Graph, last: nat, i: nat, pend: Pending) {
    pend == Pending(-1, -1, pend.moe + 1, pend.moe) && 0 <= pend.moe && pend.inject < i
    && exists c: nat :: i <= c <= last && MoeChain(g, pend.moe, c)
  }

  /** Where the chain that is pending at `i` began. */
  function ChainStart(i: nat, pend: Pending): nat {
    if pend.moe >= 0 then pend.moe else if pend.inject >= 0 then pend.inject
    else if pend.up >= 0 then pend.up else if pend.sigmoid >= 0 then pend.sigmoid else i
  }

  /** The storage side of the loop invariant, for a chain that began at `b`. */
  ghost predicate Running(x: Pass, done: set<nat>, b: nat, st: State) {
    Planned(x) && b <= |x.g.nodes| && Inv(x, st, done, b) && Covers(x, done, b) && !st.failed
  }

  /** The loop invariant of the node loop. */
  ghost predicate At(x: Pass, last: nat, done: set<nat>, i: nat, st: State, pend: Pending) {
    && EliminableExact(x) && RowsConsistent(x)
    && i <= last + 1 <= |x.g.nodes| && PendingBehind(i, pend) && PendingOk(x.g, last, i, pend)
    && Running(x, done, ChainStart(i, pend), st)
    && (pend.inject >= 0 ==> Owns(x, st, pend.inject))
    && (pend.moe >= 0 ==> Owns(x, st, pend.moe) && x.env.injectOn && x.env.rows(pend.moe) >= 16)
  }

  /** What a step leaves behind: the loop invariant, or after a refused
      acquisition at least the storage invariant. */
  ghost predicate After(x: Pass, last: nat, done: set<nat>, i: nat, r: (State, Pending)) {
    if r.0.failed then Inv(x, r.0, done, 0) else At(x, last, done, i, r.0, r.1)
  }

  lemma Weaken(x: Pass, st: State, done: set<nat>, frontier: nat)
    requires Inv(x, st, done, frontier)
    ensures Inv(x, st, done, 0)
  {
    forall j | 0 <= j < |x.g.nodes| && !IsSource(x.g.nodes[j])
      ensures NodeInv(x, st, done, 0, j)
    {
      assert NodeInv(x, st, done, frontier, j);
    }
  }

  /** Inputs of a node at or after `i` that come from before `i` are ready at `i`. */
  lemma InputsReady(x: Pass, done: set<nat>, i: nat, u: nat)
    requires PassOk(x) && Covers(x, done, i) && i <= u < |x.g.nodes|
    ensures forall k :: 0 <= k < |x.g.nodes[u].inputs| && x.g.nodes[u].inputs[k] < i ==>
      Ready(x, done, x.g.nodes[u].inputs[k])
  {
    forall k | 0 <= k < |x.g.nodes[u].inputs| && x.g.nodes[u].inputs[k] < i
      ensures Ready(x, done, x.g.nodes[u].inputs[k])
    {
      assert OutlivesReader(x.g, x.rel, u, k);
      var j := x.g.nodes[u].inputs[k];
      assert j in x.g.nodes[u].inputs;
      assert IsSource(x.g.nodes[j]) || Needed(x, i, j);
    }
  }

  /** Allocation of node `i`'s own output, before anything at or after `start` is done. */
  lemma AllocateKeeps(x: Pass, st: State, done: set<nat>, start: nat, i: nat)
    requires Inv(x, st, done, start) && start <= i < |x.g.nodes| && !IsSource(x.g.nodes[i]) && i !in done
    ensures var s := AllocateOutput(x.g, x.env, st, i);
            && Inv(x, s, done, start)
            && (!s.failed ==> if Borrows(x.g, x.env, i) then s.tensors[i].Empty? else Owns(x, s, i))
            && (forall a :: 0 <= a < |x.g.nodes| && a != i ==> s.tensors[a] == st.tensors[a])
            && (!s.failed ==> !st.failed)
            && (s.failed ==> st.failed || s == st.(failed := true))
  {
    assert NodeInv(x, st, done, start, i);
    assert x.rel[i] >= 0 ==> ReleasedLate(x.g, x.rel, i);
    if st.tensors[i].Empty? && !Borrows(x.g, x.env, i) {
      AcquireKeeps(x, st, done, start, i);
    }
  }

  // ---- the cases of one step ----

  lemma SourceStep(x: Pass, last: nat, done: set<nat>, i: nat, st: State, pend: Pending)
    requires At(x, last, done, i, st, pend) && i <= last && IsSource(x.g.nodes[i])
    ensures At(x, last, done, i + 1, st, pend)
  {
    if pend == NONE {
      SkipSource(x, st, done, i);
    } else {
      PendingPastSource(x.g, last, i, pend);
    }
  }

  /** Only an inject waits across sources. */
  lemma PendingPastSource(g: Graph, last: nat, i: nat, pend: Pending)
    requires i < |g.nodes| && IsSource(g.nodes[i]) && PendingOk(g, last, i, pend) && pend != NONE
    ensures PendingOk(g, last, i + 1, pend) && ChainStart(i + 1, pend) == ChainStart(i, pend)
  {
    assert InjectPending(g, last, i, pend) || MoeInjectPending(g, last, i, pend);
  }

  /** No release is due at a source, so the frontier may pass it. */
  lemma SkipSource(x: Pass, st: State, done: set<nat>, i: nat)
    requires Inv(x, st, done, i) && Covers(x, done, i) && i < |x.g.nodes| && IsSource(x.g.nodes[i])
    ensures Inv(x, st, done, i + 1) && Covers(x, done, i + 1)
  {
    forall j | 0 <= j < |x.g.nodes| && x.rel[j] >= 0
      ensures x.rel[j] != i
    {
      assert ReleasedLate(x.g, x.rel, j);
    }
    forall j | 0 <= j < |x.g.nodes| && !IsSource(x.g.nodes[j])
      ensures NodeInv(x, st, done, i + 1, j)
    {
      assert NodeInv(x, st, done, i, j);
    }
    CoversLater(x, done, i, done, i + 1);
  }

  /** Coverage survives releases and the completion of a chain. */
  lemma CoversLater(x: Pass, done: set<nat>, b: nat, done': set<nat>, i: nat)
    requires PassOk(x) && Covers(x, done, b) && b <= i <= |x.g.nodes|
    requires forall j <- done' :: j < i
    requires forall j: nat :: j < b && j in done && !(0 <= x.rel[j] < i) ==> j in done'
    requires forall j: nat :: b <= j < i && Needed(x, i, j) ==> j in done'
    ensures Covers(x, done', i)
  {
    forall j: nat | j < b && Needed(x, i, j)
      ensures j in done'
    {
      assert ReadFrom(x.g, i, j) ==> ReadFrom(x.g, b, j);
      assert Needed(x, b, j);
    }
  }

  /** The end of a chain (or of a single node): the chain `b..i` has been
      computed and the batch of everything due by `i` is released. */
  lemma FinishChain(x: Pass, st: State, done: set<nat>, b: nat, done1: set<nat>, i: nat, batch: seq<nat>)
      returns (done': set<nat>)
    requires Planned(x) && b <= i < |x.g.nodes| && !st.failed
    requires Covers(x, done, b) && Inv(x, st, done1, b) && done <= done1 && forall j <- done1 :: j <= i
    requires forall j: nat :: b <= j <= i && !IsSource(x.g.nodes[j]) && j !in done1 ==>
      j in x.eliminable && !ReadFrom(x.g, i + 1, j)
    requires batch == if x.env.reuse then [] else if b == i then x.env.queue[i] else FusedBatch(x.env.queue, b, i, |x.g.nodes|)
    ensures Running(x, done', i + 1, ReleaseBatch(x.g, st, batch))
  {
    DueByNow(x, b, i, batch);
    hide *;
    done' := ReleaseBatchKeeps(x, st, done1, b, batch, i + 1);
    FinishedCovers(x, done, b, done1, i, ReleaseBatch(x.g, st, batch), done');
  }

  /** The batch released after the chain `b..i` is what falls due in it. */
  lemma DueByNow(x: Pass, b: nat, i: nat, batch: seq<nat>)
    requires Planned(x) && b <= i < |x.g.nodes|
    requires batch == if x.env.reuse then [] else if b == i then x.env.queue[i] else FusedBatch(x.env.queue, b, i, |x.g.nodes|)
    ensures forall p, q :: 0 <= p < q < |batch| ==> batch[p] < batch[q]
    ensures forall k :: 0 <= k < |batch| ==> batch[k] < |x.g.nodes| && 0 <= x.rel[batch[k]] < i + 1
    ensures forall j :: 0 <= j < |x.g.nodes| && b <= x.rel[j] < i + 1 ==> j in batch
  {
    forall j: nat | j < |x.g.nodes|
      ensures j in batch ==> b <= x.rel[j] <= i
      ensures b <= x.rel[j] <= i ==> j in batch
    {
      if !x.env.reuse {
        assert x.rel[j] >= 0 ==> ReleasedLate(x.g, x.rel, j);
        if b <= x.rel[j] <= i {
          assert j in x.env.queue[x.rel[j]];
        }
      }
    }
    assert forall k :: 0 <= k < |batch| ==> batch[k] in batch && batch[k] < |x.g.nodes|;
    assert !x.env.reuse && b == i ==> Ascending(batch);
  }

  lemma FinishedCovers(x: Pass, done: set<nat>, b: nat, done1: set<nat>, i: nat, st: State, done': set<nat>)
    requires Planned(x) && b <= i < |x.g.nodes|
    requires Covers(x, done, b) && done <= done1 && forall j <- done1 :: j <= i
    requires forall j: nat :: b <= j <= i && !IsSource(x.g.nodes[j]) && j !in done1 ==>
      j in x.eliminable && !ReadFrom(x.g, i + 1, j)
    requires Inv(x, st, done', i + 1) && !st.failed
    requires done' == set j | j in done1 && !(0 <= x.rel[j] < i + 1)
    ensures Running(x, done', i + 1, st)
  {
    hide Inv, QueueMatches;
    CoversLater(x, done, b, done', i + 1);
  }

  /** The flags of a consumer, and what is pending when it is reached. */
  predicate Consumes(i: nat, pend: Pending, f: Flags, b: nat) {
    && FlagsOk(i, pend, f) && !f.Deferred() && b == BatchStart(i, pend, f) && b <= i
    && NextPending(i, pend, f) == NONE && (pend.moe >= 0 ==> f.inject)
  }

  /** The end of the step that computes node `i` and with it the chain from `b`. */
  lemma FinishStep(x: Pass, done: set<nat>, b: nat, i: nat, st: State, pend: Pending, f: Flags, done1: set<nat>)
      returns (done': set<nat>)
    requires Planned(x) && i < |x.g.nodes| == |st.tensors| && Consumes(i, pend, f, b)
    requires Covers(x, done, b) && done <= done1 && forall j <- done1 :: j <= i
    requires Computed(x, Compute(x.g, x.env, i, st, pend, f), done1, b)
    requires forall j: nat :: b <= j <= i && !IsSource(x.g.nodes[j]) && j !in done1 ==>
      Compute(x.g, x.env, i, st, pend, f).failed || (j in x.eliminable && !ReadFrom(x.g, i + 1, j))
    ensures var r := StepWith(x.g, x.env, i, st, pend, f);
            if r.0.failed then Inv(x, r.0, done', 0) else Running(x, done', i + 1, r.0) && r.1 == NONE
  {
    var s := Compute(x.g, x.env, i, st, pend, f);
    if s.failed {
      done' := done1;
    } else {
      done' := FinishChain(x, s, done, b, done1, i, BatchAfter(x.g, x.env, i, pend, f));
    }
  }

  /** The state after some dispatches: intact, and complete unless `failed`. */
  ghost predicate Computed(x: Pass, s: State, done: set<nat>, b: nat) {
    if s.failed then Inv(x, s, done, 0) else Inv(x, s, done, b)
  }

  const PLAIN := Flags(false, false, false, false, false, false, false)

  lemma ComputePlain(x: Pass, done: set<nat>, i: nat, st: State) returns (done1: set<nat>)
    requires Running(x, done, i, st) && i < |x.g.nodes| && !IsSource(x.g.nodes[i])
    ensures var s := Compute(x.g, x.env, i, st, NONE, PLAIN);
            Computed(x, s, done1, i) && (!s.failed ==> i in done1)
    ensures done <= done1 <= done + {i}
  {
    AllocateKeeps(x, st, done, i, i);
    var s := AllocateOutput(x.g, x.env, st, i);
    if s.failed {
      done1 := done;
      Weaken(x, s, done, i);
    } else {
      assert NodeOk(x.g, i);
      InputsReady(x, done, i, i);
      assert x.rel[i] >= 0 ==> ReleasedLate(x.g, x.rel, i);
      DispatchKeeps(x, s, done, i, i);
      done1 := done + {i};
    }
  }

  /** An ordinary node. */
  lemma PlainStep(x: Pass, done: set<nat>, i: nat, st: State) returns (done': set<nat>)
    requires Running(x, done, i, st) && i < |x.g.nodes| && !IsSource(x.g.nodes[i])
    ensures var r := StepWith(x.g, x.env, i, st, NONE, PLAIN);
            if r.0.failed then Inv(x, r.0, done', 0) else Running(x, done', i + 1, r.0) && r.1 == NONE
  {
    hide Compute;
    var done1 := ComputePlain(x, done, i, st);
    done' := FinishStep(x, done, i, i, st, NONE, PLAIN, done1);
  }

  /** The operator after an inject is the norm that consumes it. */
  lemma {:induction false} NextOperatorIs(g: Graph, i: nat, c: nat)
    requires i <= c < |g.nodes| && OnlySources(g, i, c) && !IsSource(g.nodes[c])
    ensures NextOperator(g, i) == c
    decreases c - i
  {
    if i < c {
      NextOperatorIs(g, i + 1, c);
    }
  }

  const DEFER_SIGMOID := PLAIN.(deferSigmoid := true)
  const DEFER_UP := PLAIN.(deferUp := true)
  const DEFER_INJECT := PLAIN.(deferInject := true)
  const DEFER_MOE := PLAIN.(deferMoe := true)

  /** A postponed node that gets no buffer yet changes nothing. */
  lemma PostponeWithoutOutput(x: Pass, i: nat, st: State, pend: Pending, f: Flags)
    requires Planned(x) && i < |x.g.nodes| == |st.tensors| && FlagsOk(i, pend, f) && !st.failed
    requires f.deferSigmoid || f.deferUp
    ensures StepWith(x.g, x.env, i, st, pend, f) == (st, NextPending(i, pend, f))
  {
  }

  /** A postponed node that is allocated at once owns a buffer afterwards. */
  lemma PostponeWithOutput(x: Pass, done: set<nat>, b: nat, i: nat, st: State, pend: Pending, f: Flags)
    requires Running(x, done, b, st) && b <= i < |x.g.nodes| && FlagsOk(i, pend, f)
    requires f == DEFER_INJECT || f == DEFER_MOE
    requires !IsSource(x.g.nodes[i]) && !IsView(x.g.nodes[i])
    ensures var r := StepWith(x.g, x.env, i, st, pend, f);
            if r.0.failed then Inv(x, r.0, done, 0)
            else Running(x, done, b, r.0) && Owns(x, r.0, i) && r.1 == NextPending(i, pend, f)
                 && forall a :: 0 <= a < |x.g.nodes| && a != i ==> r.0.tensors[a] == st.tensors[a]
  {
    AllocateKeeps(x, st, done, b, i);
    var s := AllocateOutput(x.g, x.env, st, i);
    if s.failed {
      Weaken(x, s, done, b);
    }
  }

  // ---- the consumers ----

  /** A postponed producer is computed after all. */
  lemma MaterializeKeeps(x: Pass, st: State, done: set<nat>, start: nat, j: nat)
    requires Inv(x, st, done, start) && start <= j < |x.g.nodes| && !IsSource(x.g.nodes[j]) && j !in done
    requires !IsView(x.g.nodes[j]) && !st.failed
    requires AllReady(x, done, x.g.nodes[j].inputs)
    ensures var s := Materialize(x.g, x.env, st, j);
            && (if s.failed then Inv(x, s, done, start) else Inv(x, s, done + {j}, start))
            && (forall a :: 0 <= a < |x.g.nodes| && a != j ==> s.tensors[a] == st.tensors[a])
  {
    AllocateKeeps(x, st, done, start, j);
    var s := AllocateOutput(x.g, x.env, st, j);
    if !s.failed {
      DispatchKeeps(x, s, done, start, j);
    }
  }

  /** The wiring of a gate pair. */
  predicate GateEdges(g: Graph, c: nat) {
    0 < c < |g.nodes| &&
    var sigmoid, reduce := g.nodes[c - 1], g.nodes[c];
    && !IsSource(reduce) && !IsView(reduce) && !IsSource(sigmoid) && !IsView(sigmoid)
    && |reduce.inputs| == 2 && reduce.inputs[0] < c - 1 && reduce.inputs[1] == c - 1
    && |sigmoid.inputs| == 1 && sigmoid.inputs[0] < c - 1
  }

  /** A gate pair has one reader of its sigmoid, so fusing may skip it. */
  lemma GateIsPrivate(g: Graph, c: nat)
    requires WellFormed(g) && GatePair(g, c)
    ensures GateEdges(g, c) && !ReadFrom(g, c + 1, c - 1) && Eliminable(g, c - 1)
  {
    var ins := g.nodes[c].inputs;
    assert NodeOk(g, c) && NodeOk(g, c - 1);
    assert c - 1 in ins;
    SoleReader(g, c - 1, c);
    assert ins == [ins[0], ins[1]];
    assert multiset(ins) == multiset{ins[0], ins[1]};
    assert GatePair(g, (c - 1) + 1);
  }

  /** The value of a gate: reduce(norm, sigmoid(x)). */
  lemma GateValue(x: Pass, c: nat)
    requires PassOk(x) && GateEdges(x.g, c)
    ensures Den(x, c) == x.env.kernel(c, [Den(x, x.g.nodes[c].inputs[0]),
                                          x.env.kernel(c - 1, [Den(x, x.g.nodes[c - 1].inputs[0])])])
  {
    var ins := x.g.nodes[c].inputs;
    assert NodeOk(x.g, c) && NodeOk(x.g, c - 1);
    assert DenAll(x, ins, c) == [Den(x, ins[0]), Den(x, c - 1)];
    assert DenAll(x, x.g.nodes[c - 1].inputs, c - 1) == [Den(x, x.g.nodes[c - 1].inputs[0])];
  }

  lemma ReadOne(x: Pass, st: State, done: set<nat>, frontier: nat, j: u32)
    requires Inv(x, st, done, frontier) && Ready(x, done, j)
    ensures Readable(st, j) && ReadAll(x.env, st, [j]) == [Den(x, j)]
  {
    ReadsAreValues(x, st, done, frontier, [j]);
    assert Readable(st, [j][0]);
  }

  /** A fused gate writes the consumer's value and leaves the sigmoid out. */
  lemma FusedGateKeeps(x: Pass, st: State, done: set<nat>, start: nat, c: nat)
    requires Inv(x, st, done, start) && GateEdges(x.g, c) && c !in done && Owns(x, st, c) && c in x.env.acceptGate
    requires Ready(x, done, x.g.nodes[c].inputs[0]) && Ready(x, done, x.g.nodes[c - 1].inputs[0])
    ensures Inv(x, GateStep(x.g, x.env, st, c).0, done + {c}, start)
    ensures GateStep(x.g, x.env, st, c).0.failed == st.failed
  {
    var norm, ins := [In(x.g.nodes[c], 0)], x.g.nodes[c - 1].inputs;
    assert ins == [ins[0]];
    GateValue(x, c);
    ReadOne(x, st, done, start, norm[0]);
    ReadOne(x, st, done, start, ins[0]);
    assert AllReadable(st, norm + ins);
    var gate := x.env.kernel(c - 1, [Den(x, ins[0])]);
    assert ReadAll(x.env, st, norm) + [gate] == [Den(x, norm[0]), gate];
    StoreKeeps(x, st, done, start, c, Den(x, c));
  }

  /** GateStep followed by the consumer's own dispatch when that is still due. */
  function GateBlock(g: Graph, env: Env, st: State, c: nat): (r: State)
    requires WellFormed(g) && 0 < c < |g.nodes| == |st.tensors|
    ensures |r.tensors| == |st.tensors|
  {
    var (s, fused) := GateStep(g, env, st, c);
    if s.failed || fused then s else Dispatch(g, env, s, c)
  }

  /** A declined gate computes the sigmoid after all, then the consumer. */
  lemma DeclinedGateKeeps(x: Pass, st: State, done: set<nat>, start: nat, c: nat) returns (done': set<nat>)
    requires Inv(x, st, done, start) && GateEdges(x.g, c) && start < c && !st.failed && c !in x.env.acceptGate
    requires c !in done && c - 1 !in done && Owns(x, st, c)
    requires Ready(x, done, x.g.nodes[c].inputs[0]) && Ready(x, done, x.g.nodes[c - 1].inputs[0])
    ensures var s := GateBlock(x.g, x.env, st, c);
            if s.failed then Inv(x, s, done', 0) else Inv(x, s, done', start) && c in done'
    ensures done <= done' <= done + {c - 1, c}
  {
    hide Materialize;
    MaterializeKeeps(x, st, done, start, c - 1);
    var s := Materialize(x.g, x.env, st, c - 1);
    if s.failed {
      done' := done;
      Weaken(x, s, done, start);
    } else {
      done' := done + {c - 1} + {c};
      var ins := x.g.nodes[c].inputs;
      assert Ready(x, done + {c - 1}, ins[0]) && Ready(x, done + {c - 1}, ins[1]);
      DispatchKeeps(x, s, done + {c - 1}, start, c);
    }
  }

  lemma GateBlockKeeps(x: Pass, st: State, done: set<nat>, start: nat, c: nat) returns (done': set<nat>)
    requires Inv(x, st, done, start) && GateEdges(x.g, c) && start < c && !st.failed
    requires c !in done && c - 1 !in done && Owns(x, st, c)
    requires Ready(x, done, x.g.nodes[c].inputs[0]) && Ready(x, done, x.g.nodes[c - 1].inputs[0])
    ensures var s := GateBlock(x.g, x.env, st, c);
            if s.failed then Inv(x, s, done', 0) else Inv(x, s, done', start) && c in done'
    ensures done <= done' <= done + {c - 1, c}
  {
    if c in x.env.acceptGate {
      FusedGateKeeps(x, st, done, start, c);
      done' := done + {c};
    } else {
      done' := DeclinedGateKeeps(x, st, done, start, c);
    }
  }

  const GATE := PLAIN.(gate := true)
  const UP_GATE := GATE.(up := true)
  const INJECT := PLAIN.(inject := true)

  /** Consumer of a gate pair. */
  lemma ConsumeGate(x: Pass, done: set<nat>, i: nat, st: State) returns (done': set<nat>)
    requires GateEdges(x.g, i) && Running(x, done, i - 1, st)
    requires i - 1 in x.eliminable && !ReadFrom(x.g, i + 1, i - 1)
    ensures var r := StepWith(x.g, x.env, i, st, Pending(i - 1, -1, -1, -1), GATE);
            if r.0.failed then Inv(x, r.0, done', 0) else Running(x, done', i + 1, r.0) && r.1 == NONE
  {
    var pend := Pending(i - 1, -1, -1, -1);
    hide Compute;
    var done1 := ComputeGate(x, done, i, st, pend);
    done' := FinishStep(x, done, i - 1, i, st, pend, GATE, done1);
  }

  lemma GateInputsReady(x: Pass, done: set<nat>, c: nat)
    requires PassOk(x) && GateEdges(x.g, c) && Covers(x, done, c - 1)
    ensures Ready(x, done, x.g.nodes[c].inputs[0]) && Ready(x, done, x.g.nodes[c - 1].inputs[0])
  {
    InputsReady(x, done, c - 1, c);
    InputsReady(x, done, c - 1, c - 1);
  }

  lemma GateDispatch(g: Graph, env: Env, c: nat, st: State, pend: Pending)
    requires WellFormed(g) && 0 < c < |g.nodes| == |st.tensors| && !st.failed && pend == Pending(c - 1, -1, -1, -1)
    ensures DispatchBlock(g, env, c, st, pend, GATE) == GateBlock(g, env, st, c)
  {
  }

  lemma ComputeGate(x: Pass, done: set<nat>, i: nat, st: State, pend: Pending) returns (done1: set<nat>)
    requires GateEdges(x.g, i) && Running(x, done, i - 1, st) && pend == Pending(i - 1, -1, -1, -1)
    ensures var s := Compute(x.g, x.env, i, st, pend, GATE);
            Computed(x, s, done1, i - 1) && (!s.failed ==> i in done1)
    ensures done <= done1 <= done + {i - 1, i}
  {
    hide DispatchBlock, Dispatch, GateStep, Den;
    AllocateKeeps(x, st, done, i - 1, i);
    var s := AllocateOutput(x.g, x.env, st, i);
    if s.failed {
      done1 := done;
      Weaken(x, s, done, i - 1);
    } else {
      GateInputsReady(x, done, i);
      done1 := GateBlockKeeps(x, s, done, i - 1, i);
      GateDispatch(x.g, x.env, i, s, pend);
    }
  }

  /** The wiring of an up chain. */
  predicate UpEdges(g: Graph, c: nat) {
    2 <= c && GateEdges(g, c) && g.nodes[c - 1].inputs[0] == c - 2 && g.nodes[c].inputs[0] < c - 2
    && !IsSource(g.nodes[c - 2]) && !IsView(g.nodes[c - 2])
  }

  lemma UpIsWired(g: Graph, c: nat)
    requires WellFormed(g) && UpTriple(g, c)
    ensures UpEdges(g, c)
  {
    hide UpOperands, ShapeIs, SoleUse;
    UpTripleIsGatePair(g, c);
    assert NodeOk(g, c) && NodeOk(g, c - 1) && NodeOk(g, c - 2);
  }

  /** Both intermediates of an up chain are private to it. */
  lemma UpIsPrivate(g: Graph, c: nat)
    requires WellFormed(g) && UpTriple(g, c)
    ensures UpEdges(g, c)
    ensures forall j: nat :: c - 2 <= j < c ==> Eliminable(g, j) && !ReadFrom(g, c + 1, j)
  {
    UpTripleIsGatePair(g, c);
    GateIsPrivate(g, c);
    UpIsWired(g, c);
    assert UpTriple(g, (c - 2) + 2) && SoleUse(g, c - 2) && g.nodes[c - 1].inputs[0] in g.nodes[c - 1].inputs;
    hide UpTriple, GatePair, SoleUse;
    SoleReader(g, c - 2, c - 1);
    assert Eliminable(g, c - 2) && Eliminable(g, c - 1);
    assert !ReadFrom(g, c + 1, c - 2) && !ReadFrom(g, c + 1, c - 1);
  }

  /** A fused up chain writes only the consumer. */
  lemma FusedUpKeeps(x: Pass, st: State, done: set<nat>, start: nat, c: nat)
    requires Inv(x, st, done, start) && UpEdges(x.g, c) && c !in done && Owns(x, st, c) && c in x.env.acceptUp
    requires Ready(x, done, x.g.nodes[c].inputs[0]) && AllReady(x, done, x.g.nodes[c - 2].inputs)
    ensures Inv(x, UpStep(x.g, x.env, st, c).0, done + {c}, start)
    ensures UpStep(x.g, x.env, st, c).0.failed == st.failed
  {
    var norm, ins := [In(x.g.nodes[c], 0)], x.g.nodes[c - 2].inputs;
    GateValue(x, c);
    ReadOne(x, st, done, start, norm[0]);
    ReadsAreValues(x, st, done, start, ins);
    assert AllReadable(st, norm + ins);
    assert NodeOk(x.g, c - 2);
    assert ReadAll(x.env, st, ins) == DenAll(x, ins, c - 2);
    var gate := x.env.kernel(c - 1, [Den(x, c - 2)]);
    assert ReadAll(x.env, st, norm) + [gate] == [Den(x, norm[0]), gate];
    StoreKeeps(x, st, done, start, c, Den(x, c));
  }

  lemma UpDispatch(g: Graph, env: Env, c: nat, st: State, pend: Pending)
    requires WellFormed(g) && 2 <= c < |g.nodes| == |st.tensors| && !st.failed && pend == Pending(c - 1, c - 2, -1, -1)
    ensures DispatchBlock(g, env, c, st, pend, UP_GATE) ==
            if c in env.acceptUp then UpStep(g, env, st, c).0
            else var s := Materialize(g, env, st, c - 2); if s.failed then s else GateBlock(g, env, s, c)
  {
  }

  /** The dispatch block of an up chain's consumer. */
  lemma UpBlockKeeps(x: Pass, st: State, done: set<nat>, c: nat, pend: Pending) returns (done': set<nat>)
    requires UpEdges(x.g, c) && Inv(x, st, done, c - 2) && !st.failed && pend == Pending(c - 1, c - 2, -1, -1)
    requires forall j <- done :: j < c - 2
    requires Owns(x, st, c) && Ready(x, done, x.g.nodes[c].inputs[0]) && AllReady(x, done, x.g.nodes[c - 2].inputs)
    ensures var s := DispatchBlock(x.g, x.env, c, st, pend, UP_GATE);
            Computed(x, s, done', c - 2) && (!s.failed ==> c in done')
    ensures done <= done' <= done + {c - 2, c - 1, c}
  {
    hide DispatchBlock, Materialize, UpStep, GateBlock;
    UpDispatch(x.g, x.env, c, st, pend);
    if c in x.env.acceptUp {
      FusedUpKeeps(x, st, done, c - 2, c);
      done' := done + {c};
    } else {
      MaterializeKeeps(x, st, done, c - 2, c - 2);
      var s := Materialize(x.g, x.env, st, c - 2);
      if s.failed {
        done' := done;
        Weaken(x, s, done, c - 2);
      } else {
        done' := GateBlockKeeps(x, s, done + {c - 2}, c - 2, c);
      }
    }
  }

  lemma ComputeUp(x: Pass, done: set<nat>, i: nat, st: State, pend: Pending) returns (done1: set<nat>)
    requires UpEdges(x.g, i) && Running(x, done, i - 2, st) && pend == Pending(i - 1, i - 2, -1, -1)
    ensures var s := Compute(x.g, x.env, i, st, pend, UP_GATE);
            Computed(x, s, done1, i - 2) && (!s.failed ==> i in done1)
    ensures done <= done1 <= done + {i - 2, i - 1, i}
  {
    AllocateKeeps(x, st, done, i - 2, i);
    var s := AllocateOutput(x.g, x.env, st, i);
    if s.failed {
      done1 := done;
      Weaken(x, s, done, i - 2);
    } else {
      InputsReady(x, done, i - 2, i);
      InputsReady(x, done, i - 2, i - 2);
      assert NodeOk(x.g, i - 2);
      done1 := UpBlockKeeps(x, s, done, i, pend);
    }
  }

  /** Consumer of an up chain. */
  lemma ConsumeUp(x: Pass, done: set<nat>, i: nat, st: State) returns (done': set<nat>)
    requires UpEdges(x.g, i) && Running(x, done, i - 2, st)
    requires forall j: nat :: i - 2 <= j < i ==> j in x.eliminable && !ReadFrom(x.g, i + 1, j)
    ensures var r := StepWith(x.g, x.env, i, st, Pending(i - 1, i - 2, -1, -1), UP_GATE);
            if r.0.failed then Inv(x, r.0, done', 0) else Running(x, done', i + 1, r.0) && r.1 == NONE
  {
    var pend := Pending(i - 1, i - 2, -1, -1);
    hide Compute;
    var done1 := ComputeUp(x, done, i, st, pend);
    done' := FinishStep(x, done, i - 2, i, st, pend, UP_GATE, done1);
  }

  /** The wiring of an inject chain. */
  predicate InjectEdges(g: Graph, p: nat, c: nat) {
    p < c < |g.nodes| && OnlySources(g, p + 1, c)
    && !IsSource(g.nodes[p]) && !IsView(g.nodes[p]) && !IsSource(g.nodes[c]) && !IsView(g.nodes[c])
    && |g.nodes[p].inputs| == 3 && |g.nodes[c].inputs| == 2 && g.nodes[c].inputs[0] == p
  }

  /** Once the carry is done, so are all inputs of the norm. */
  lemma NormInputsReady(x: Pass, done: set<nat>, b: nat, p: nat, c: nat, done1: set<nat>)
    requires PassOk(x) && InjectEdges(x.g, p, c) && b <= p && Covers(x, done, b) && done <= done1 && p in done1
    requires !(b <= x.g.nodes[c].inputs[1] < p)
    ensures AllReady(x, done1, Args(x.g.nodes[c]))
  {
    InputsReady(x, done, b, c);
    assert NodeOk(x.g, c);
  }

  /** Inject and norm, fused or not: both are written. */
  lemma InjectBlockKeeps(x: Pass, st: State, done: set<nat>, b: nat, p: nat, c: nat)
    requires InjectEdges(x.g, p, c) && Inv(x, st, done, b) && Owns(x, st, p) && Owns(x, st, c)
    requires p !in done && c !in done
    requires AllReady(x, done, x.g.nodes[p].inputs) && AllReady(x, done + {p}, Args(x.g.nodes[c]))
    ensures var s := Dispatch(x.g, x.env, Dispatch(x.g, x.env, st, p), c);
            Inv(x, s, done + {p, c}, b) && s.failed == st.failed
  {
    assert NodeInv(x, st, done, b, p) && NodeInv(x, st, done, b, c);
    DispatchKeeps(x, st, done, b, p);
    var s := Dispatch(x.g, x.env, st, p);
    assert Owns(x, s, c);
    assert NodeInv(x, s, done + {p}, b, c);
    DispatchKeeps(x, s, done + {p}, b, c);
    assert done + {p} + {c} == done + {p, c};
  }

  lemma InjectDispatch(g: Graph, env: Env, c: nat, st: State, pend: Pending)
    requires WellFormed(g) && c < |g.nodes| == |st.tensors| && !st.failed
    requires pend == Pending(-1, -1, pend.inject, -1) && 0 <= pend.inject < c
    ensures DispatchBlock(g, env, c, st, pend, INJECT) == Dispatch(g, env, Dispatch(g, env, st, pend.inject), c)
  {
  }

  lemma ComputeInject(x: Pass, done: set<nat>, p: nat, i: nat, st: State, pend: Pending) returns (done1: set<nat>)
    requires InjectEdges(x.g, p, i) && Running(x, done, p, st) && Owns(x, st, p) && pend == Pending(-1, -1, p, -1)
    ensures var s := Compute(x.g, x.env, i, st, pend, INJECT);
            Computed(x, s, done1, p) && (!s.failed ==> p in done1 && i in done1)
    ensures done <= done1 <= done + {p, i}
  {
    AllocateKeeps(x, st, done, p, i);
    var s := AllocateOutput(x.g, x.env, st, i);
    if s.failed {
      done1 := done;
      Weaken(x, s, done, p);
    } else {
      InputsReady(x, done, p, p);
      assert NodeOk(x.g, p);
      NormInputsReady(x, done, p, p, i, done + {p});
      InjectBlockKeeps(x, s, done, p, p, i);
      InjectDispatch(x.g, x.env, i, s, pend);
      done1 := done + {p, i};
    }
  }

  /** Consumer of an inject. */
  lemma ConsumeInject(x: Pass, done: set<nat>, p: nat, i: nat, st: State) returns (done': set<nat>)
    requires InjectEdges(x.g, p, i) && Running(x, done, p, st) && Owns(x, st, p)
    ensures var r := StepWith(x.g, x.env, i, st, Pending(-1, -1, p, -1), INJECT);
            if r.0.failed then Inv(x, r.0, done', 0) else Running(x, done', i + 1, r.0) && r.1 == NONE
  {
    var pend := Pending(-1, -1, p, -1);
    hide Compute;
    var done1 := ComputeInject(x, done, p, i, st, pend);
    done' := FinishStep(x, done, p, i, st, pend, INJECT, done1);
  }

  // ---- the MoE chain ----

  /** The wiring of a MoE chain: the inject alone reads the MoE, once. */
  predicate MoeEdges(g: Graph, m: nat, c: nat) {
    InjectEdges(g, m + 1, c) && !IsSource(g.nodes[m]) && !IsView(g.nodes[m])
    && g.nodes[m + 1].inputs[0] == m && m !in g.nodes[m + 1].inputs[1..] && m !in g.nodes[c].inputs
  }

  lemma InjectIsWired(g: Graph, p: nat, c: nat)
    requires WellFormed(g) && InjectRms(g, p, c)
    ensures InjectEdges(g, p, c)
  {
    assert NodeOk(g, p);
  }

  lemma MoeIsPrivate(g: Graph, m: nat, c: nat)
    requires WellFormed(g) && MoeChain(g, m, c)
    ensures MoeEdges(g, m, c) && Eliminable(g, m) && !ReadFrom(g, c + 1, m)
  {
    InjectIsWired(g, m + 1, c);
    assert NodeOk(g, m) && NodeOk(g, m + 1);
    var ins := g.nodes[m + 1].inputs;
    assert m == ins[0] && m in ins;
    SoleReader(g, m, m + 1);
    assert ins == [m] + ins[1..];
    assert multiset(ins)[m] == 1 + multiset(ins[1..])[m];
    assert m !in multiset(ins[1..]);
  }

  lemma MoeInputsReady(x: Pass, done: set<nat>, m: nat, c: nat)
    requires PassOk(x) && MoeEdges(x.g, m, c) && Covers(x, done, m)
    ensures AllReady(x, done, x.g.nodes[m].inputs) && AllReady(x, done, x.g.nodes[m + 1].inputs[1..])
    ensures AllReady(x, done + {m}, x.g.nodes[m + 1].inputs)
    ensures forall done1: set<nat> :: done <= done1 && m + 1 in done1 ==> AllReady(x, done1, Args(x.g.nodes[c]))
  {
    assert NodeOk(x.g, m) && NodeOk(x.g, m + 1) && NodeOk(x.g, c);
    InputsReady(x, done, m, m);
    InputsReady(x, done, m, m + 1);
    var ins := x.g.nodes[m + 1].inputs;
    assert forall k :: 0 <= k < |ins[1..]| ==> ins[1..][k] == ins[k + 1] && ins[1..][k] in ins[1..];
    forall done1: set<nat> | done <= done1 && m + 1 in done1
      ensures AllReady(x, done1, Args(x.g.nodes[c]))
    {
      NormInputsReady(x, done, m, m + 1, c, done1);
    }
  }

  /** The fused kernel computes the carry from the MoE's inputs directly. */
  lemma MoeCarry(x: Pass, st: State, done: set<nat>, b: nat, m: nat, c: nat)
    requires MoeEdges(x.g, m, c) && Inv(x, st, done, b)
    requires AllReady(x, done, x.g.nodes[m].inputs) && AllReady(x, done, x.g.nodes[m + 1].inputs[1..])
    ensures AllReadable(st, x.g.nodes[m].inputs + Tail(x.g.nodes[m + 1]))
    ensures x.env.kernel(m + 1, [x.env.kernel(m, ReadAll(x.env, st, x.g.nodes[m].inputs))]
                                + ReadAll(x.env, st, Tail(x.g.nodes[m + 1]))) == Den(x, m + 1)
  {
    assert NodeOk(x.g, m) && NodeOk(x.g, m + 1);
    var ins, rest := x.g.nodes[m].inputs, x.g.nodes[m + 1].inputs[1..];
    ReadsAreValues(x, st, done, b, ins);
    ReadsAreValues(x, st, done, b, rest);
    assert ReadAll(x.env, st, ins) == DenAll(x, ins, m);
    assert [Den(x, m)] + ReadAll(x.env, st, rest) == DenAll(x, x.g.nodes[m + 1].inputs, m + 1);
  }

  lemma FusedMoeKeeps(x: Pass, st: State, done: set<nat>, b: nat, m: nat, c: nat)
    requires MoeEdges(x.g, m, c) && Inv(x, st, done, b) && Owns(x, st, m) && Owns(x, st, m + 1) && Owns(x, st, c)
    requires m !in done && m + 1 !in done && c !in done
    requires AllReady(x, done, x.g.nodes[m].inputs) && AllReady(x, done, x.g.nodes[m + 1].inputs[1..])
    requires AllReady(x, done + {m + 1}, Args(x.g.nodes[c]))
    ensures var s := MoeFused(x.g, x.env, st, m, m + 1, c);
            Inv(x, s, done + {m + 1, c}, b) && s.failed == st.failed
  {
    hide Dispatch, Read, Den;
    MoeCarry(x, st, done, b, m, c);
    StoreKeeps(x, st, done, b, m, x.env.garbage);
    var s1 := Store(st, m, x.env.garbage);
    assert Owns(x, s1, m + 1) && Owns(x, s1, c);
    StoreKeeps(x, s1, done, b, m + 1, Den(x, m + 1));
    var s2 := Store(s1, m + 1, Den(x, m + 1));
    assert Owns(x, s2, c);
    assert NodeInv(x, s2, done + {m + 1}, b, c);
    DispatchKeeps(x, s2, done + {m + 1}, b, c);
    assert done + {m + 1} + {c} == done + {m + 1, c};
  }

  /** A declined MoE chain runs its three parts in order. */
  lemma DeclinedMoeKeeps(x: Pass, st: State, done: set<nat>, b: nat, m: nat, c: nat)
    requires MoeEdges(x.g, m, c) && Inv(x, st, done, b) && Owns(x, st, m) && Owns(x, st, m + 1) && Owns(x, st, c)
    requires m !in done && m + 1 !in done && c !in done
    requires AllReady(x, done, x.g.nodes[m].inputs) && AllReady(x, done + {m}, x.g.nodes[m + 1].inputs)
    requires AllReady(x, done + {m} + {m + 1}, Args(x.g.nodes[c]))
    ensures var s := Dispatch(x.g, x.env, Dispatch(x.g, x.env, Dispatch(x.g, x.env, st, m), m + 1), c);
            Inv(x, s, done + {m, m + 1, c}, b) && s.failed == st.failed
  {
    assert NodeInv(x, st, done, b, m);
    DispatchKeeps(x, st, done, b, m);
    var s := Dispatch(x.g, x.env, st, m);
    assert Owns(x, s, m + 1) && Owns(x, s, c);
    InjectBlockKeeps(x, s, done + {m}, b, m + 1, c);
    assert done + {m} + {m + 1, c} == done + {m, m + 1, c};
  }

  lemma MoeDispatch(g: Graph, env: Env, c: nat, st: State, pend: Pending)
    requires WellFormed(g) && c < |g.nodes| == |st.tensors| && !st.failed
    requires pend == Pending(-1, -1, pend.moe + 1, pend.moe) && 0 <= pend.moe && pend.inject < c
    ensures DispatchBlock(g, env, c, st, pend, INJECT) ==
            if c in env.acceptMoe then MoeFused(g, env, st, pend.moe, pend.inject, c)
            else Dispatch(g, env, Dispatch(g, env, Dispatch(g, env, st, pend.moe), pend.inject), c)
  {
    hide MoeFused, Dispatch, GateStep, UpStep;
  }

  /** The dispatch block of a MoE chain's norm. */
  lemma MoeBlockKeeps(x: Pass, st: State, done: set<nat>, m: nat, i: nat, pend: Pending) returns (done1: set<nat>)
    requires MoeEdges(x.g, m, i) && Running(x, done, m, st) && Owns(x, st, m) && Owns(x, st, m + 1) && Owns(x, st, i)
    requires pend == Pending(-1, -1, m + 1, m)
    ensures var s := DispatchBlock(x.g, x.env, i, st, pend, INJECT);
            Computed(x, s, done1, m) && !s.failed && m + 1 in done1 && i in done1
    ensures done <= done1 <= done + {m, m + 1, i}
  {
    hide DispatchBlock, MoeFused, Dispatch;
    MoeInputsReady(x, done, m, i);
    MoeDispatch(x.g, x.env, i, st, pend);
    if i in x.env.acceptMoe {
      FusedMoeKeeps(x, st, done, m, m, i);
      done1 := done + {m + 1, i};
    } else {
      DeclinedMoeKeeps(x, st, done, m, m, i);
      done1 := done + {m, m + 1, i};
    }
  }

  lemma ComputeMoe(x: Pass, done: set<nat>, m: nat, i: nat, st: State, pend: Pending) returns (done1: set<nat>)
    requires MoeEdges(x.g, m, i) && Running(x, done, m, st) && Owns(x, st, m) && Owns(x, st, m + 1)
    requires pend == Pending(-1, -1, m + 1, m)
    ensures var s := Compute(x.g, x.env, i, st, pend, INJECT);
            Computed(x, s, done1, m) && (!s.failed ==> m + 1 in done1 && i in done1)
    ensures done <= done1 <= done + {m, m + 1, i}
  {
    hide DispatchBlock, AllocateOutput;
    AllocateKeeps(x, st, done, m, i);
    var s := AllocateOutput(x.g, x.env, st, i);
    if s.failed {
      done1 := done;
      Weaken(x, s, done, m);
    } else {
      done1 := MoeBlockKeeps(x, s, done, m, i, pend);
    }
  }

  /** Consumer of a MoE chain. */
  lemma ConsumeMoe(x: Pass, done: set<nat>, m: nat, i: nat, st: State) returns (done': set<nat>)
    requires MoeEdges(x.g, m, i) && Running(x, done, m, st) && Owns(x, st, m) && Owns(x, st, m + 1)
    requires m in x.eliminable && !ReadFrom(x.g, i + 1, m)
    ensures var r := StepWith(x.g, x.env, i, st, Pending(-1, -1, m + 1, m), INJECT);
            if r.0.failed then Inv(x, r.0, done', 0) else Running(x, done', i + 1, r.0) && r.1 == NONE
  {
    var pend := Pending(-1, -1, m + 1, m);
    hide Compute;
    var done1 := ComputeMoe(x, done, m, i, st, pend);
    done' := FinishStep(x, done, m, i, st, pend, INJECT, done1);
  }

  // ---- every step ----

  /** What kind of step is taken, read off from what is pending. */
  lemma FlagsFromPending(g: Graph, env: Env, last: nat, i: nat, pend: Pending)
    requires i <= last < |g.nodes| && !IsSource(g.nodes[i]) && PendingOk(g, last, i, pend) && PendingBehind(i, pend)
    ensures var f := FlagsAt(g, env, last, i, pend);
            && (pend == NONE ==> f in {PLAIN, DEFER_SIGMOID, DEFER_UP, DEFER_INJECT, DEFER_MOE})
            && (GatePending(g, last, i, pend) ==> f == GATE)
            && (UpPending(g, last, i, pend) ==> f == DEFER_SIGMOID)
            && (UpGatePending(g, last, i, pend) ==> f == UP_GATE)
  {
  }

  lemma InjectFlags(g: Graph, env: Env, last: nat, i: nat, pend: Pending)
    requires i <= last < |g.nodes| && !IsSource(g.nodes[i])
    requires InjectPending(g, last, i, pend) || MoeInjectPending(g, last, i, pend)
    ensures InjectRms(g, pend.inject, i) && FlagsAt(g, env, last, i, pend) == INJECT
    ensures MoeInjectPending(g, last, i, pend) ==> MoeChain(g, pend.moe, i)
  {
    if MoeInjectPending(g, last, i, pend) {
      var c: nat :| i <= c <= last && MoeChain(g, pend.moe, c);
      assert OnlySources(g, pend.inject + 1, c) && c == i;
    } else {
      var c: nat :| i <= c <= last && InjectRms(g, pend.inject, c);
      assert OnlySources(g, pend.inject + 1, c) && c == i;
    }
  }

  /** The inject of a MoE chain waits as well: the MoE's rows are its rows. */
  lemma MoeChainContinues(x: Pass, last: nat, i: nat, pend: Pending)
    requires RowsConsistent(x) && i <= last < |x.g.nodes| && PendingBehind(i, pend) && MoePending(x.g, last, i, pend)
    requires x.env.injectOn && x.env.rows(pend.moe) >= 16
    ensures !IsSource(x.g.nodes[i]) && !IsView(x.g.nodes[i])
    ensures FlagsAt(x.g, x.env, last, i, pend) == DEFER_INJECT
    ensures MoeInjectPending(x.g, last, i + 1, NextPending(i, pend, DEFER_INJECT))
  {
    var c: nat :| i <= c <= last && MoeChain(x.g, pend.moe, c);
    NextOperatorIs(x.g, i + 1, c);
  }

  lemma EnterChain(x: Pass, last: nat, done: set<nat>, i: nat, st: State, f: Flags)
    requires At(x, last, done, i, st, NONE) && i <= last && !IsSource(x.g.nodes[i])
    requires f == FlagsAt(x.g, x.env, last, i, NONE) && f in {DEFER_SIGMOID, DEFER_UP, DEFER_INJECT, DEFER_MOE}
    ensures After(x, last, done, i + 1, StepWith(x.g, x.env, i, st, NONE, f))
  {
    hide StepWith;
    EntryIsPending(x, last, i, f);
    if f == DEFER_SIGMOID || f == DEFER_UP {
      PostponeWithoutOutput(x, i, st, NONE, f);
    } else {
      PostponeWithOutput(x, done, i, i, st, NONE, f);
    }
  }

  /** What the entered chain looks like afterwards. */
  lemma EntryIsPending(x: Pass, last: nat, i: nat, f: Flags)
    requires i <= last < |x.g.nodes| && !IsSource(x.g.nodes[i])
    requires f == FlagsAt(x.g, x.env, last, i, NONE) && f in {DEFER_SIGMOID, DEFER_UP, DEFER_INJECT, DEFER_MOE}
    ensures PendingOk(x.g, last, i + 1, NextPending(i, NONE, f)) && ChainStart(i + 1, NextPending(i, NONE, f)) == i
    ensures f == DEFER_INJECT || f == DEFER_MOE ==> !IsView(x.g.nodes[i])
    ensures f == DEFER_MOE ==> x.env.injectOn && x.env.rows(i) >= 16
  {
    var p := NextPending(i, NONE, f);
    assert UpPending(x.g, last, i + 1, p) || GatePending(x.g, last, i + 1, p)
        || InjectPending(x.g, last, i + 1, p) || MoePending(x.g, last, i + 1, p);
  }

  lemma ContinueChain(x: Pass, last: nat, done: set<nat>, i: nat, st: State, pend: Pending)
    requires At(x, last, done, i, st, pend) && i <= last
    requires UpPending(x.g, last, i, pend) || MoePending(x.g, last, i, pend)
    ensures !IsSource(x.g.nodes[i])
    ensures After(x, last, done, i + 1, StepWith(x.g, x.env, i, st, pend, FlagsAt(x.g, x.env, last, i, pend)))
  {
    hide StepWith, FlagsAt, EliminableExact, RowsConsistent, GatePair, InjectRms, Covers;
    if UpPending(x.g, last, i, pend) {
      FlagsFromPending(x.g, x.env, last, i, pend);
      PostponeWithoutOutput(x, i, st, pend, DEFER_SIGMOID);
      assert UpGatePending(x.g, last, i + 1, NextPending(i, pend, DEFER_SIGMOID));
    } else {
      MoeChainContinues(x, last, i, pend);
      PostponeWithOutput(x, done, i - 1, i, st, pend, DEFER_INJECT);
    }
  }

  /** The consumer of whatever chain is pending. */
  lemma FinishPending(x: Pass, last: nat, done: set<nat>, i: nat, st: State, pend: Pending) returns (done': set<nat>)
    requires At(x, last, done, i, st, pend) && i <= last && !IsSource(x.g.nodes[i])
    requires GatePending(x.g, last, i, pend) || UpGatePending(x.g, last, i, pend)
          || InjectPending(x.g, last, i, pend) || MoeInjectPending(x.g, last, i, pend)
    ensures var r := StepWith(x.g, x.env, i, st, pend, FlagsAt(x.g, x.env, last, i, pend));
            if r.0.failed then Inv(x, r.0, done', 0) else Running(x, done', i + 1, r.0) && r.1 == NONE
  {
    hide StepWith, FlagsAt, GatePair, UpTriple, MoeChain, InjectRms;
    if GatePending(x.g, last, i, pend) {
      FlagsFromPending(x.g, x.env, last, i, pend);
      GateIsPrivate(x.g, i);
      done' := ConsumeGate(x, done, i, st);
    } else if UpGatePending(x.g, last, i, pend) {
      FlagsFromPending(x.g, x.env, last, i, pend);
      UpIsPrivate(x.g, i);
      assert i - 2 in x.eliminable && i - 1 in x.eliminable;
      done' := ConsumeUp(x, done, i, st);
    } else {
      InjectFlags(x.g, x.env, last, i, pend);
      if InjectPending(x.g, last, i, pend) {
        InjectIsWired(x.g, pend.inject, i);
        done' := ConsumeInject(x, done, pend.inject, i, st);
      } else {
        MoeIsPrivate(x.g, pend.moe, i);
        done' := ConsumeMoe(x, done, pend.moe, i, st);
      }
    }
  }

  /** Every iteration of the node loop keeps the loop invariant. */
  lemma StepKeeps(x: Pass, last: nat, done: set<nat>, i: nat, st: State, pend: Pending) returns (done': set<nat>)
    requires At(x, last, done, i, st, pend) && i <= last
    ensures After(x, last, done', i + 1, Step(x.g, x.env, last, i, st, pend))
  {
    if IsSource(x.g.nodes[i]) {
      SourceStep(x, last, done, i, st, pend);
      done' := done;
    } else {
      hide StepWith, FlagsAt, Inv, Covers, EliminableExact, RowsConsistent, Owns;
      if pend == NONE {
        var f := FlagsAt(x.g, x.env, last, i, NONE);
        FlagsFromPending(x.g, x.env, last, i, NONE);
        if f == PLAIN {
          done' := PlainStep(x, done, i, st);
        } else {
          EnterChain(x, last, done, i, st, f);
          done' := done;
        }
      } else if UpPending(x.g, last, i, pend) || MoePending(x.g, last, i, pend) {
        ContinueChain(x, last, done, i, st, pend);
        done' := done;
      } else {
        done' := FinishPending(x, last, done, i, st, pend);
      }
    }
  }

  /** Nothing is pending past the last node of a segment. */
  lemma {:induction false} RunKeeps(x: Pass, last: nat, done: set<nat>, i: nat, st: State, pend: Pending) returns (done': set<nat>)
    requires At(x, last, done, i, st, pend)
    ensures After(x, last, done', last + 1, Run(x.g, x.env, last, i, st, pend))
    decreases last + 1 - i
  {
    hide Step, Covers, PendingOk, EliminableExact, RowsConsistent, Owns;
    if i > last {
      done' := done;
    } else {
      var done1 := StepKeeps(x, last, done, i, st, pend);
      var (s, p) := Step(x.g, x.env, last, i, st, pend);
      if s.failed {
        done' := done1;
      } else {
        done' := RunKeeps(x, last, done1, i + 1, s, p);
      }
    }
  }
}
