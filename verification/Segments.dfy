/** The execution context of graph/execute.h:25-116: its imperative loops, and
    the cursor that lets a pass be suspended and resumed. */
module Segments {
  import opened Graph
  import opened Liveness
  import opened Executor
  import opened ExecutorMemory
  import opened Passes
  import opened Refusals

  /** What a suspended pass must find unchanged (graph/execute.h:106-115); `fusions`
      also says whether its segments may fuse. */
  datatype Identity = Identity(graph: nat, pool: nat, backend: nat, moeBackend: nat, seqLen: int, batch: int,
                               staticPadded: bool, fusions: bool, paddedSeq: int)

  const IDENTITY0 := Identity(0, 0, 0, 0, -1, -1, false, false, -1)

  /** What a call finds and leaves: `next` is the node to resume at, or -1 when no
      pass is suspended, and `identity` that of the last pass in segments. */
  datatype Context = Context(st: State, next: int, identity: Identity)

  /** execute_graph, which runs through node `stop` unless that is negative, or
      execute_graph_segment for the nodes [first, end), asked for under `id`. */
  datatype Call = Whole(stop: int) | Part(first: int, end: int, id: Identity)

  /** validate_graph_segment, graph/execute.cpp:1276-1303. */
  predicate Accepts(g: Graph, c: Context, q: Call)
    requires q.Part?
  {
    && 0 <= q.first < q.end <= |g.nodes|
    && (if q.first == 0 then c.next <= 0 else c.next == q.first && c.identity == q.id && !c.st.failed)
  }

  /** The fusion switches a call runs under, graph/execute.cpp:482-505. */
  function Switches(env: Env, segmented: bool, stopped: bool, fusions: bool): (r: Env)
    ensures r.queue == env.queue && r.reuse == env.reuse && r.acquire == env.acquire && r.borrows == env.borrows
  {
    var on := (!segmented && !stopped) || (segmented && fusions);
    env.(gateOn := env.gateOn && on, upOn := env.upOn && on, injectOn := env.injectOn && on,
         moeOn := env.moeOn && on && !segmented)
  }

  /** Those of a segment. */
  function Fusing(env: Env, id: Identity): (r: Env)
    ensures r.queue == env.queue && r.reuse == env.reuse && r.acquire == env.acquire && r.borrows == env.borrows
  {
    Switches(env, true, true, id.fusions)
  }

  ghost predicate Shaped(g: Graph, env: Env, st: State) {
    WellFormed(g) && |g.nodes| == |st.tensors| > 0 && QueueShape(g, env.queue)
  }

  /** execute_graph_impl, graph/execute.cpp:452-1269. */
  function Implied(g: Graph, e: Env, first: nat, last: nat, st: State): (r: State)
    requires Shaped(g, e, st) && first <= last < |g.nodes|
    ensures |r.tensors| == |st.tensors|
  {
    var s := st.(failed := false);
    Run(g, e, last, first, if first == 0 then ResetTensors(g, s, false, e.reuse) else s, NONE).0
  }

  function LastNode(g: Graph, stop: int): (r: nat)
    requires |g.nodes| > 0
    ensures r < |g.nodes|
  {
    if 0 <= stop < |g.nodes| then stop else |g.nodes| - 1
  }

  /** One call. */
  function After(g: Graph, env: Env, c: Context, q: Call): (r: Context)
    requires Shaped(g, env, c.st)
    ensures Shaped(g, env, r.st)
  {
    match q
    case Whole(stop) =>
      Context(Implied(g, Switches(env, false, stop >= 0, false), 0, LastNode(g, stop), c.st), -1, c.identity)
    case Part(first, end, id) =>
      if !Accepts(g, c, q) then c.(st := c.st.(failed := true))
      else
        var s := Implied(g, Fusing(env, id), first, end - 1, c.st);
        Context(s, if s.failed || end == |g.nodes| then -1 else end, if first == 0 then id else c.identity)
  }

  /** Any sequence of calls, made on a context in any state. */
  function AfterAll(g: Graph, env: Env, c: Context, qs: seq<Call>): (r: Context)
    requires Shaped(g, env, c.st)
    ensures Shaped(g, env, r.st)
  {
    if qs == [] then c else After(g, env, AfterAll(g, env, c, qs[..|qs| - 1]), qs[|qs| - 1])
  }

  /** The calls from `k` on are one pass in contiguous segments from node 0, all
      under one identity and without execute_graph among them. */
  predicate Chain(qs: seq<Call>, k: nat) {
    k < |qs| && qs[k].Part? && qs[k].first == 0 && forall i: nat :: k <= i < |qs| ==> Follows(qs, k, i)
  }

  /** Call `i` is a segment of the pass that call `k` opens. */
  predicate Follows(qs: seq<Call>, k: nat, i: nat)
    requires k <= i < |qs| && qs[k].Part?
  {
    && qs[i].Part? && 0 <= qs[i].first < qs[i].end && qs[i].id == qs[k].id
    && (i > k ==> qs[i - 1].Part? && qs[i].first == qs[i - 1].end)
  }

  /** Where its segments end. */
  function Ends(qs: seq<Call>, k: nat): (r: seq<nat>)
    requires Chain(qs, k)
    ensures |r| == |qs| - k && forall i :: 0 <= i < |r| ==> r[i] == EndAt(qs, k, k + i)
  {
    seq<nat>(|qs| - k, i requires 0 <= i < |qs| - k => EndAt(qs, k, k + i))
  }

  function EndAt(qs: seq<Call>, k: nat, i: nat): (r: nat)
    requires Chain(qs, k) && k <= i < |qs|
    ensures qs[i].Part? && r == qs[i].end
  {
    assert Follows(qs, k, i);
    qs[i].end
  }

  /** What those segments have done: exactly the runs of `RunSegments`, on the reset
      of the state in which the first of them was called. */
  ghost predicate InProgress(g: Graph, env: Env, c: Context, qs: seq<Call>, k: nat)
    requires Shaped(g, env, c.st)
  {
    && Chain(qs, k) && Cuts(g, 0, Ends(qs, k))
    && AfterAll(g, env, c, qs).st == RunSegments(g, Fusing(env, qs[k].id), 0, Ends(qs, k), StartOf(g, env, c, qs, k))
  }

  /** The reset state that the segments from `k` on began with. */
  function StartOf(g: Graph, env: Env, c: Context, qs: seq<Call>, k: nat): (r: State)
    requires Shaped(g, env, c.st) && k <= |qs|
    ensures |r.tensors| == |g.nodes|
  {
    ResetTensors(g, AfterAll(g, env, c, qs[..k]).st.(failed := false), false, env.reuse)
  }

  /** After an accepted segment that did not fail, the calls since the start of its
      pass are its segments in order: no other order is accepted, whatever came
      before, and nothing else has touched the state. */
  lemma {:induction false} AcceptedInOrder(g: Graph, env: Env, c: Context, qs: seq<Call>) returns (k: nat)
    requires Shaped(g, env, c.st) && c.next <= 0 && qs != []
    requires var before := AfterAll(g, env, c, qs[..|qs| - 1]);
      qs[|qs| - 1].Part? && Accepts(g, before, qs[|qs| - 1])
    requires !AfterAll(g, env, c, qs).st.failed
    ensures InProgress(g, env, c, qs, k) && EndOf(0, Ends(qs, k)) == qs[|qs| - 1].end
    ensures qs[k].id == AfterAll(g, env, c, qs).identity
    decreases |qs|, 0
  {
    hide Implied, ResetTensors, Run, RunSegments;
    var n := |qs| - 1;
    var before, q := AfterAll(g, env, c, qs[..n]), qs[n];
    if q.first == 0 {
      k := n;
      FirstSegment(g, env, c, qs);
    } else {
      k := SuspendedMeansContiguous(g, env, c, qs[..n]);
      NextSegment(g, env, c, qs, k);
    }
  }

  /** Whenever a pass is suspended and nothing was rejected since, the calls since
      its start are its segments in order, and the state is exactly theirs. */
  lemma {:induction false} SuspendedMeansContiguous(g: Graph, env: Env, c: Context, qs: seq<Call>) returns (k: nat)
    requires Shaped(g, env, c.st) && c.next <= 0
    requires AfterAll(g, env, c, qs).next > 0 && !AfterAll(g, env, c, qs).st.failed
    ensures InProgress(g, env, c, qs, k) && EndOf(0, Ends(qs, k)) == AfterAll(g, env, c, qs).next
    ensures qs[k].id == AfterAll(g, env, c, qs).identity
    decreases |qs|, 1
  {
    k := AcceptedInOrder(g, env, c, qs);
  }

  lemma AfterLast(g: Graph, env: Env, c: Context, qs: seq<Call>)
    requires Shaped(g, env, c.st) && qs != []
    ensures AfterAll(g, env, c, qs) == After(g, env, AfterAll(g, env, c, qs[..|qs| - 1]), qs[|qs| - 1])
  {
  }

  lemma AfterAccepted(g: Graph, env: Env, c: Context, q: Call)
    requires Shaped(g, env, c.st) && q.Part? && Accepts(g, c, q)
    ensures q.first > 0 ==> !c.st.failed
    ensures After(g, env, c, q).st ==
      Run(g, Fusing(env, q.id), q.end - 1, q.first,
          if q.first == 0 then ResetTensors(g, c.st.(failed := false), false, env.reuse) else c.st, NONE).0
  {
    hide ResetTensors, Run, Switches, Fusing, WellFormed, QueueShape;
    if q.first > 0 {
      assert c.st.(failed := false) == c.st;
    }
  }

  lemma StartIs(g: Graph, env: Env, c: Context, qs: seq<Call>, k: nat)
    requires Shaped(g, env, c.st) && k <= |qs|
    ensures StartOf(g, env, c, qs, k) == ResetTensors(g, AfterAll(g, env, c, qs[..k]).st.(failed := false), false, env.reuse)
  {
    hide AfterAll, ResetTensors;
  }

  /** A history that ends with an accepted segment. */
  lemma AfterPart(g: Graph, env: Env, c: Context, qs: seq<Call>)
    requires Shaped(g, env, c.st) && qs != [] && qs[|qs| - 1].Part?
    requires Accepts(g, AfterAll(g, env, c, qs[..|qs| - 1]), qs[|qs| - 1])
    ensures var before, q := AfterAll(g, env, c, qs[..|qs| - 1]).st, qs[|qs| - 1];
      && (q.first > 0 ==> !before.failed)
      && AfterAll(g, env, c, qs).st ==
           Run(g, Fusing(env, q.id), q.end - 1, q.first, if q.first == 0 then StartOf(g, env, c, qs, |qs| - 1) else before, NONE).0
  {
    hide *;
    StartIs(g, env, c, qs, |qs| - 1);
    AfterLast(g, env, c, qs);
    AfterAccepted(g, env, AfterAll(g, env, c, qs[..|qs| - 1]), qs[|qs| - 1]);
  }

  lemma FirstSegment(g: Graph, env: Env, c: Context, qs: seq<Call>)
    requires Shaped(g, env, c.st) && qs != []
    requires var q := qs[|qs| - 1]; q.Part? && q.first == 0 && Accepts(g, AfterAll(g, env, c, qs[..|qs| - 1]), q)
    ensures InProgress(g, env, c, qs, |qs| - 1) && EndOf(0, Ends(qs, |qs| - 1)) == qs[|qs| - 1].end
  {
    hide ResetTensors, Run, AfterAll, StartOf, Switches, Fusing, WellFormed, QueueShape;
    AfterPart(g, env, c, qs);
    var k, q := |qs| - 1, qs[|qs| - 1];
    assert Ends(qs, k) == [] + [q.end];
    SegmentsSnoc(g, Fusing(env, q.id), 0, [], q.end, StartOf(g, env, c, qs, k));
  }

  lemma ChainGrows(qs: seq<Call>, k: nat)
    requires k < |qs| - 1 && Chain(qs[..|qs| - 1], k)
    requires var q := qs[|qs| - 1]; q.Part? && q.first == EndOf(0, Ends(qs[..|qs| - 1], k)) < q.end && q.id == qs[k].id
    ensures Chain(qs, k) && Ends(qs, k) == Ends(qs[..|qs| - 1], k) + [qs[|qs| - 1].end]
  {
    var n := |qs| - 1;
    var before, q, ends := qs[..n], qs[n], Ends(qs[..n], k);
    assert ends[n - k - 1] == before[n - 1].end;
    assert forall i :: 0 <= i < n ==> before[i] == qs[i];
    forall i: nat | k <= i < |qs|
      ensures Follows(qs, k, i)
    {
      assert i < n ==> Follows(before, k, i);
    }
    hide Follows, Chain;
    assert Ends(qs, k) == ends + [q.end];
  }

  lemma SameStart(g: Graph, env: Env, c: Context, qs: seq<Call>, k: nat)
    requires Shaped(g, env, c.st) && k < |qs| - 1
    ensures qs[..|qs| - 1][k] == qs[k] && StartOf(g, env, c, qs[..|qs| - 1], k) == StartOf(g, env, c, qs, k)
  {
    hide AfterAll, ResetTensors;
    assert qs[..|qs| - 1][..k] == qs[..k];
  }

  lemma NextSegment(g: Graph, env: Env, c: Context, qs: seq<Call>, k: nat)
    requires Shaped(g, env, c.st) && k < |qs| - 1 && InProgress(g, env, c, qs[..|qs| - 1], k)
    requires var before, q := AfterAll(g, env, c, qs[..|qs| - 1]), qs[|qs| - 1];
      && q.Part? && q.first > 0 && Accepts(g, before, q) && qs[k].id == q.id
      && EndOf(0, Ends(qs[..|qs| - 1], k)) == q.first
    ensures InProgress(g, env, c, qs, k) && EndOf(0, Ends(qs, k)) == qs[|qs| - 1].end
  {
    hide *;
    var n, q := |qs| - 1, qs[|qs| - 1];
    var before := AfterAll(g, env, c, qs[..n]);
    AcceptsOnly(g, before, q);
    OnlyChains(g, env, c, qs[..n], k);
    var s, e, ends := StartOf(g, env, c, qs, k), Fusing(env, q.id), Ends(qs[..n], k);
    SameStart(g, env, c, qs, k);
    Unfolded(g, env, c, qs[..n], k);
    ChainGrows(qs, k);
    AfterPart(g, env, c, qs);
    Unfolded(g, env, c, qs, k);
    SegmentsSnoc(g, e, 0, ends, q.end, s);
    EndOfSnoc(0, ends, q.end);
  }

  lemma Unfolded(g: Graph, env: Env, c: Context, qs: seq<Call>, k: nat)
    requires Shaped(g, env, c.st) && Chain(qs, k)
    ensures var s, e := StartOf(g, env, c, qs, k), Fusing(env, qs[k].id);
      && WellFormed(g) && |g.nodes| == |s.tensors| && QueueShape(g, e.queue)
      && (InProgress(g, env, c, qs, k) <==>
           Cuts(g, 0, Ends(qs, k)) && AfterAll(g, env, c, qs).st == RunSegments(g, e, 0, Ends(qs, k), s))
  {
    hide ResetTensors, Run, AfterAll, RunSegments, Cuts, Ends, Switches, Fusing, WellFormed, QueueShape, After;
  }

  lemma OnlyChains(g: Graph, env: Env, c: Context, qs: seq<Call>, k: nat)
    requires Shaped(g, env, c.st) && InProgress(g, env, c, qs, k)
    ensures Chain(qs, k)
  {
    hide AfterAll, RunSegments, Cuts, Chain, Ends, StartOf, Fusing, WellFormed, QueueShape;
  }

  lemma AcceptsOnly(g: Graph, c: Context, q: Call)
    requires q.Part? && Accepts(g, c, q)
    ensures 0 <= q.first < q.end <= |g.nodes|
  {
  }

  lemma EndOfSnoc(first: nat, ends: seq<nat>, end: nat)
    ensures EndOf(first, ends + [end]) == end
  {
  }

  /** A pass completed in segments: whatever calls came before it, its segments were
      made in order, and it has computed the graph; with fusions off, in the very
      state that one uncut pass ends in. */
  lemma CompletedInSegments(g: Graph, env: Env, c: Context, qs: seq<Call>, x: Pass) returns (k: nat)
    requires Shaped(g, env, c.st) && c.next <= 0 && qs != []
    requires var q := qs[|qs| - 1];
      q.Part? && Accepts(g, AfterAll(g, env, c, qs[..|qs| - 1]), q) && q.end == |g.nodes|
    requires !AfterAll(g, env, c, qs).st.failed
    ensures Chain(qs, k) && EndOf(0, Ends(qs, k)) == |g.nodes|
    ensures var r, e, s := AfterAll(g, env, c, qs).st, Fusing(env, qs[k].id), StartOf(g, env, c, qs, k);
      && (x.g == g && x.env == e && Startable(x, s) ==> !r.fault && Completed(x, r))
      && (Unfused(e) ==> r == Execute(g, e, |g.nodes| - 1, s))
  {
    hide AfterAll, ResetTensors, Run, RunSegments, Startable, Completed, Accepts;
    k := AcceptedInOrder(g, env, c, qs);
    var e, s := Fusing(env, qs[k].id), StartOf(g, env, c, qs, k);
    if x.g == g && x.env == e && Startable(x, s) {
      SegmentedPassComputesGraph(x, Ends(qs, k), s);
    }
    if Unfused(e) {
      SegmentedIsWhole(g, e, 0, Ends(qs, k), s);
    }
  }

  /** An accepted call that fails has just been refused a buffer. */
  lemma AcceptedFails(g: Graph, env: Env, c: Context, q: Call)
    requires Shaped(g, env, c.st) && (q.Part? ==> Accepts(g, c, q))
    ensures After(g, env, c, q).st.failed ==> Refused(g, env, After(g, env, c, q).st)
  {
    var (e, first, last) := match q
      case Whole(stop) => (Switches(env, false, stop >= 0, false), 0, LastNode(g, stop))
      case Part(first, end, id) => (Fusing(env, id), first, end - 1);
    ImpliedFails(g, e, first, last, c.st);
    assert Refused(g, e, After(g, env, c, q).st) <==> Refused(g, env, After(g, env, c, q).st);
  }

  lemma ImpliedFails(g: Graph, e: Env, first: nat, last: nat, st: State)
    requires Shaped(g, e, st) && first <= last < |g.nodes|
    ensures Implied(g, e, first, last, st).failed ==> Refused(g, e, Implied(g, e, first, last, st))
  {
    hide Run, ResetTensors, Refused, WellFormed, QueueShape;
    var s := st.(failed := false);
    ResetNeverFails(g, s, false, e.reuse);
    RunFails(g, e, last, first, if first == 0 then ResetTensors(g, s, false, e.reuse) else s, NONE);
  }

  /** With a pool that refuses nothing, execute_graph completes the graph from any
      state in which a pass may start. */
  lemma WholeCompletes(g: Graph, env: Env, c: Context, x: Pass)
    requires Shaped(g, env, c.st) && Generous(g, env) && x.g == g && x.env == Switches(env, false, false, false)
    requires Startable(x, ResetTensors(g, c.st.(failed := false), false, env.reuse))
    ensures var r := After(g, env, c, Whole(-1)).st; !r.failed && Completed(x, r)
  {
    hide Run, ResetTensors, Startable, Completed, Switches, WellFormed, QueueShape;
    PassCompletes(x, ResetTensors(g, c.st.(failed := false), false, env.reuse));
  }

  /** Requests for consecutive segments from node 0 on. */
  function InOrder(ends: seq<nat>, id: Identity): (r: seq<Call>)
    ensures |r| == |ends|
  {
    seq(|ends|, k requires 0 <= k < |ends| => Part(if k == 0 then 0 else ends[k - 1], ends[k], id))
  }

  /** If the pool refuses nothing and no pass is suspended, they are all accepted and
      all succeed, and have then run exactly those segments. */
  lemma {:induction false} InOrderIsAccepted(g: Graph, env: Env, c: Context, ends: seq<nat>, id: Identity)
    requires Shaped(g, env, c.st) && Generous(g, env) && c.next <= 0 && ends != [] && Cuts(g, 0, ends)
    ensures var r := AfterAll(g, env, c, InOrder(ends, id));
      && !r.st.failed && r.identity == id && r.next == (if EndOf(0, ends) == |g.nodes| then -1 else EndOf(0, ends))
      && r.st == RunSegments(g, Fusing(env, id), 0, ends, ResetTensors(g, c.st.(failed := false), false, env.reuse))
    decreases |ends|
  {
    hide *;
    ShapeOf(g, env, c.st);
    var n := |ends| - 1;
    var before, end, start := ends[..n], ends[n], ResetTensors(g, c.st.(failed := false), false, env.reuse);
    LastCut(g, 0, ends);
    InOrderLast(ends, id);
    var qs, rest := InOrder(ends, id), AfterAll(g, env, c, InOrder(before, id));
    AfterLast(g, env, c, qs);
    if n > 0 {
      InOrderIsAccepted(g, env, c, before, id);
    } else {
      NoCalls(g, env, c, before, id, start);
    }
    OneMoreAccepted(g, env, c, rest, EndOf(0, before), end, id, start, before);
  }

  lemma ShapeOf(g: Graph, env: Env, st: State)
    requires Shaped(g, env, st)
    ensures WellFormed(g) && |g.nodes| == |st.tensors| > 0 && QueueShape(g, env.queue)
  {
  }

  lemma NoCalls(g: Graph, env: Env, c: Context, ends: seq<nat>, id: Identity, start: State)
    requires Shaped(g, env, c.st) && ends == [] && |start.tensors| == |g.nodes|
    ensures EndOf(0, ends) == 0 && AfterAll(g, env, c, InOrder(ends, id)) == c
    ensures WellFormed(g) && QueueShape(g, Fusing(env, id).queue) && Cuts(g, 0, ends)
    ensures RunSegments(g, Fusing(env, id), 0, ends, start) == start
  {
  }

  lemma {:induction false} LastCut(g: Graph, first: nat, ends: seq<nat>)
    requires Cuts(g, first, ends) && ends != []
    ensures Cuts(g, first, ends[..|ends| - 1]) && EndOf(first, ends[..|ends| - 1]) < EndOf(first, ends) == ends[|ends| - 1] <= |g.nodes|
    ensures ends[..|ends| - 1] + [ends[|ends| - 1]] == ends
    ensures |ends| > 1 ==> EndOf(first, ends[..|ends| - 1]) == ends[|ends| - 2] > first
    decreases |ends|
  {
    if |ends| > 1 {
      LastCut(g, ends[0], ends[1..]);
      assert ends[..|ends| - 1][1..] == ends[1..][..|ends[1..]| - 1];
    }
  }

  lemma InOrderLast(ends: seq<nat>, id: Identity)
    requires ends != []
    ensures var n := |ends| - 1;
      && InOrder(ends, id)[..n] == InOrder(ends[..n], id)
      && InOrder(ends, id)[n] == Part(EndOf(0, ends[..n]), ends[n], id)
  {
  }

  /** One more segment, after those before it. */
  lemma OneMoreAccepted(g: Graph, env: Env, c: Context, rest: Context, first: nat, end: nat, id: Identity, start: State, before: seq<nat>)
    requires Shaped(g, env, c.st) && Shaped(g, env, rest.st) && Generous(g, env) && |start.tensors| == |g.nodes|
    requires Cuts(g, 0, before) && first == EndOf(0, before) < end <= |g.nodes|
    requires start == ResetTensors(g, c.st.(failed := false), false, env.reuse)
    requires if before == [] then c.next <= 0 && rest == c
             else first > 0 && !rest.st.failed && rest.identity == id && rest.next == (if first == |g.nodes| then -1 else first)
                  && rest.st == RunSegments(g, Fusing(env, id), 0, before, start)
    ensures var r := After(g, env, rest, Part(first, end, id));
      && !r.st.failed && r.identity == id && r.next == (if end == |g.nodes| then -1 else end)
      && Cuts(g, 0, before + [end]) && r.st == RunSegments(g, Fusing(env, id), 0, before + [end], start)
  {
    hide ResetTensors, Run, Switches, Fusing, WellFormed, QueueShape, Implied, Refused, Generous;
    var q := Part(first, end, id);
    AfterAccepted(g, env, rest, q);
    AcceptedFails(g, env, rest, q);
    NeverRefused(g, env, After(g, env, rest, q).st);
    hide After, Accepts, Shaped;
    SegmentsSnoc(g, Fusing(env, id), 0, before, end, start);
  }

  lemma NeverRefused(g: Graph, env: Env, st: State)
    requires Generous(g, env)
    ensures !Refused(g, env, st)
  {
  }

  /** A rejection while a pass is suspended strands it: no segment is accepted
      afterwards and no tensor changes, until execute_graph resets the cursor. */
  lemma {:induction false} RejectionStrands(g: Graph, env: Env, c: Context, q: Call, later: seq<Call>)
    requires Shaped(g, env, c.st) && c.next > 0 && q.Part? && !Accepts(g, c, q) && forall i :: 0 <= i < |later| ==> later[i].Part?
    ensures var stuck := AfterAll(g, env, After(g, env, c, q), later);
      && stuck == c.(st := c.st.(failed := true)) && (forall r: Call :: r.Part? ==> !Accepts(g, stuck, r))
      && forall stop :: After(g, env, stuck, Whole(stop)).next == -1
  {
    if later != [] {
      RejectionStrands(g, env, c, q, later[..|later| - 1]);
    }
  }

  /** A context over one graph and one queue; `env`'s switches say what the
      backend supports, and the fields below change from call to call. */
  class ExecContext {
    const g: Graph
    var env: Env
    var tensors: seq<Tensor>
    var live: set<nat>
    var mem: map<nat, Val>
    var fault: bool
    /** The calls made of the pool. */
    var log: seq<PoolCall>
    var executionFailed: bool
    var identity: Identity
    var segmentNext: int
    var segmentIdentity: Identity

    ghost predicate Valid()
      reads this
    {
      Shaped(g, env, Now())
    }

    function Now(): State
      reads this
    {
      State(tensors, live, mem, fault, executionFailed, log)
    }

    function Held(): Context
      reads this
    {
      Context(Now(), segmentNext, segmentIdentity)
    }

    constructor (graph: Graph, environment: Env, bound: seq<Tensor>, callerLive: set<nat>, contents: map<nat, Val>, id: Identity)
      requires Shaped(graph, environment, State(bound, callerLive, contents, false, false, []))
      ensures Valid() && g == graph && env == environment && identity == id
      ensures Held() == Context(State(bound, callerLive, contents, false, false, []), -1, IDENTITY0)
    {
      g, env, tensors, live, mem, identity := graph, environment, bound, callerLive, contents, id;
      fault, executionFailed, log, segmentNext, segmentIdentity := false, false, [], -1, IDENTITY0;
    }

    /** One tensor of a batch (graph/execute.cpp:1205-1239). */
    method ReleaseTensor(j: nat, borrowed: bool)
      requires Valid() && j < |g.nodes|
      modifies this`tensors, this`live, this`fault, this`log
      ensures Valid() && Now() == ReleaseOne(g, old(Now()), j, borrowed)
    {
      if IsSource(g.nodes[j]) || tensors[j].Empty? {
        return;
      }
      if !borrowed {
        fault := fault || tensors[j].ptr !in live;
        live := live - {tensors[j].ptr};
        log := log + [Released(tensors[j].ptr)];
      }
      tensors := tensors[j := Empty];
    }

    /** The two release loops (graph/execute.cpp:1184-1239): classify the whole
        batch first, then let go. */
    method Release(batch: seq<nat>)
      requires Valid() && forall i :: 0 <= i < |batch| ==> batch[i] < |g.nodes|
      modifies this`tensors, this`live, this`fault, this`log
      ensures Valid() && Now() == ReleaseBatch(g, old(Now()), batch)
    {
      var borrowed: seq<bool> := [];
      for r := 0 to |batch|
        invariant |borrowed| == r && forall k :: 0 <= k < r ==> (borrowed[k] <==> LooksBorrowed(g, Now(), batch[k], false))
      {
        borrowed := borrowed + [LooksBorrowed(g, Now(), batch[r], false)];
      }
      for r := 0 to |batch|
        invariant Valid() && Now() == ReleaseFirst(g, old(Now()), false, old(Now()), batch, r)
      {
        ReleaseTensor(batch[r], borrowed[r]);
      }
    }

    /** First reset loop: classify while every producer is intact
        (graph/execute.cpp:532-556). */
    method Classify(cleanup: bool) returns (borrowed: seq<bool>)
      requires Valid()
      ensures |borrowed| == |g.nodes|
      ensures forall k :: 0 <= k < |g.nodes| ==> (borrowed[k] <==> LooksBorrowed(g, Now(), k, cleanup))
    {
      borrowed := seq(|g.nodes|, _ => false);
      for i := 0 to |g.nodes|
        invariant |borrowed| == |g.nodes|
        invariant forall k :: 0 <= k < i ==> (borrowed[k] <==> LooksBorrowed(g, Now(), k, cleanup))
      {
        borrowed := borrowed[i := LooksBorrowed(g, Now(), i, cleanup)];
      }
    }

    /** Second reset loop: clear the views (graph/execute.cpp:558-568). */
    method ClearViews(cleanup: bool, borrowed: seq<bool>)
      requires Valid() && |borrowed| == |g.nodes|
      requires forall k :: 0 <= k < |g.nodes| ==> (borrowed[k] <==> LooksBorrowed(g, Now(), k, cleanup))
      modifies this`tensors
      ensures Valid() && Now() == ClearBorrowed(g, old(Now()), cleanup, old(Now()), |g.nodes|)
    {
      hide LooksBorrowed, WellFormed, QueueShape;
      for i := 0 to |g.nodes|
        invariant Valid() && Now() == ClearBorrowed(g, old(Now()), cleanup, old(Now()), i)
      {
        if !IsSource(g.nodes[i]) && borrowed[i] {
          tensors := tensors[i := Empty];
        }
      }
    }

    /** Third reset loop: release the owners (graph/execute.cpp:570-597). */
    method ReleaseOwners(ghost judge: State, cleanup: bool, borrowed: seq<bool>)
      requires Valid() && |borrowed| == |g.nodes| == |judge.tensors|
      requires forall k :: 0 <= k < |g.nodes| ==> (borrowed[k] <==> LooksBorrowed(g, judge, k, cleanup))
      modifies this`tensors, this`live, this`fault, this`log
      ensures Valid() && Now() == OwnersTo(g, judge, cleanup, old(Now()), |g.nodes|)
    {
      hide LooksBorrowed, OwnersTo, ReleaseOne, WellFormed, QueueShape;
      OwnersNone(g, judge, cleanup, Now());
      for i := 0 to |g.nodes|
        invariant Valid() && Now() == OwnersTo(g, judge, cleanup, old(Now()), i)
      {
        OwnersStep(g, judge, cleanup, old(Now()), i);
        if !IsSource(g.nodes[i]) {
          ReleaseTensor(i, borrowed[i]);
        }
      }
    }

    /** The reset of a fresh pass; with `cleanup`, release_graph_temporaries and
        clear_graph_borrowed_views (engine/engine.cpp:80-142). */
    method Reset(cleanup: bool, reuse: bool)
      requires Valid()
      modifies this`tensors, this`live, this`fault, this`log
      ensures Valid() && Now() == ResetTensors(g, old(Now()), cleanup, reuse)
    {
      ghost var judge := Now();
      var borrowed := Classify(cleanup);
      ClearViews(cleanup, borrowed);
      if !reuse {
        ReleaseOwners(judge, cleanup, borrowed);
        OperatorsGrow(g, |g.nodes|, |g.nodes|);
      }
    }

    /** The node loop from `first` through `last` (graph/execute.cpp:635-1259),
        under the switches `e`. */
    method RunNodes(e: Env, first: nat, last: nat)
      requires Valid() && first <= last < |g.nodes| && e.queue == env.queue
      modifies this`tensors, this`live, this`mem, this`fault, this`log, this`executionFailed
      ensures Valid() && Now() == Run(g, e, last, first, old(Now()), NONE).0
    {
      hide Step, PendingBehind;
      var pend, i := NONE, first;
      NothingPending(i);
      while i <= last && !executionFailed
        invariant Valid() && first <= i <= last + 1 && PendingBehind(i, pend)
        invariant Run(g, e, last, first, old(Now()), NONE) == Run(g, e, last, i, Now(), pend)
      {
        pend := StepNode(e, last, i, pend);
        i := i + 1;
      }
    }

    lemma NothingPending(i: nat)
      ensures PendingBehind(i, NONE)
    {
    }

    /** One iteration of the node loop. */
    method StepNode(e: Env, last: nat, i: nat, pend0: Pending) returns (pend: Pending)
      requires Valid() && i <= last < |g.nodes| && e.queue == env.queue && PendingBehind(i, pend0) && !executionFailed
      modifies this`tensors, this`live, this`mem, this`fault, this`log, this`executionFailed
      ensures Valid() && (Now(), pend) == Step(g, e, last, i, old(Now()), pend0)
    {
      pend := pend0;
      if IsSource(g.nodes[i]) {
        return;
      }
      var f := FlagsAt(g, e, last, i, pend);
      hide FlagsAt, Compute, BatchAfter;
      var s := Compute(g, e, i, Now(), pend, f);
      tensors, live, mem, fault, executionFailed, log := s.tensors, s.live, s.mem, s.fault, s.failed, s.log;
      if !executionFailed {
        Release(BatchAfter(g, e, i, pend, f));
        pend := NextPending(i, pend, f);
      }
    }

    /** execute_graph_impl. */
    method ExecuteImpl(e: Env, first: nat, last: nat)
      requires Valid() && first <= last < |g.nodes| && e.queue == env.queue
      modifies this`tensors, this`live, this`mem, this`fault, this`log, this`executionFailed
      ensures Valid() && Now() == Implied(g, e, first, last, old(Now()))
    {
      executionFailed := false;
      if first == 0 {
        Reset(false, e.reuse);
      }
      RunNodes(e, first, last);
    }

    /** execute_graph, graph/execute.cpp:1271-1274; a negative `stop` runs to the end. */
    method ExecuteGraph(stop: int)
      requires Valid()
      modifies this`tensors, this`live, this`mem, this`fault, this`log, this`executionFailed, this`segmentNext
      ensures Valid() && Held() == After(g, env, old(Held()), Whole(stop))
    {
      segmentNext := -1;
      ExecuteImpl(Switches(env, false, stop >= 0, identity.fusions), 0, LastNode(g, stop));
    }

    /** execute_graph_segment, graph/execute.cpp:1276-1310; a rejected request only
        sets the failure flag. */
    method ExecuteSegment(first: int, end: int)
      requires Valid()
      modifies this`tensors, this`live, this`mem, this`fault, this`log, this`executionFailed, this`segmentNext, this`segmentIdentity
      ensures Valid() && Held() == After(g, env, old(Held()), Part(first, end, identity))
    {
      hide Implied;
      if first < 0 || end <= first || end > |g.nodes| {
        executionFailed := true;
        return;
      }
      if first == 0 {
        if segmentNext > 0 {
          executionFailed := true;
          return;
        }
        segmentIdentity := identity;
      } else if segmentNext != first || segmentIdentity != identity || executionFailed {
        executionFailed := true;
        return;
      }
      ExecuteImpl(Fusing(env, identity), first, end - 1);
      segmentNext := if executionFailed || end == |g.nodes| then -1 else end;
    }
  }

  /** The owners among the first `n` nodes released. */
  ghost function OwnersTo(g: Graph, judge: State, cleanup: bool, st: State, n: nat): (r: State)
    requires WellFormed(g) && n <= |g.nodes| == |st.tensors| == |judge.tensors|
    ensures |r.tensors| == |st.tensors|
  {
    OperatorsGrow(g, n, |g.nodes|);
    ReleaseFirst(g, judge, cleanup, st, Operators(g, |g.nodes|), |Operators(g, n)|)
  }

  lemma OwnersNone(g: Graph, judge: State, cleanup: bool, st: State)
    requires WellFormed(g) && |g.nodes| == |st.tensors| == |judge.tensors|
    ensures OwnersTo(g, judge, cleanup, st, 0) == st
  {
  }

  /** One node of the third reset loop. */
  lemma OwnersStep(g: Graph, judge: State, cleanup: bool, st: State, i: nat)
    requires WellFormed(g) && i < |g.nodes| == |st.tensors| == |judge.tensors|
    ensures OwnersTo(g, judge, cleanup, st, i + 1) ==
      if IsSource(g.nodes[i]) then OwnersTo(g, judge, cleanup, st, i)
      else ReleaseOne(g, OwnersTo(g, judge, cleanup, st, i), i, LooksBorrowed(g, judge, i, cleanup))
  {
    hide ReleaseOne, LooksBorrowed;
    if !IsSource(g.nodes[i]) {
      OperatorAt(g, i, |g.nodes|);
    }
  }

  lemma {:induction false} OperatorsGrow(g: Graph, i: nat, n: nat)
    requires i <= n <= |g.nodes|
    ensures |Operators(g, i)| <= |Operators(g, n)|
    decreases n
  {
    if i < n {
      OperatorsGrow(g, i, n - 1);
    }
  }

  /** Operator `i` stands behind exactly the operators below it. */
  lemma {:induction false} OperatorAt(g: Graph, i: nat, n: nat)
    requires i < n <= |g.nodes| && !IsSource(g.nodes[i])
    ensures |Operators(g, i)| < |Operators(g, n)| && Operators(g, n)[|Operators(g, i)|] == i
    decreases n
  {
    if i < n - 1 {
      OperatorAt(g, i, n - 1);
    }
  }
}
