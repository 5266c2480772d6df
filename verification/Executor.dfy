/** One pass of execute_graph_impl (graph/execute.cpp:452-1269) on the host
    path: buffers are acquired, borrowed, written, and given back node by node.
    Kernels are uninterpreted; the pool may hand out any free buffer. */
module Executor {
  import opened Wrappers
  import opened Graph
  import opened Liveness
  import opened Fusion

  /** What a buffer holds. */
  type Val(==, !new, 0)

  /** A tensor record: no storage, or storage `ptr` seen through a chain of view
      nodes.  A materialised tensor has the empty chain; a view copies its
      source's `ptr` (core/tensor.h:236-241 identifies storage by it). */
  datatype Tensor = Empty | Buf(ptr: nat, chain: seq<nat>)

  /** A buffer taken from the pool or given back to it. */
  datatype PoolCall = Acquired(ptr: nat) | Released(ptr: nat)

  /** `live` holds every buffer that may be read: the caller's and those acquired
      and not yet released.  `fault` records a read, write or release of storage
      that is not live; `failed` an acquisition the pool refused; `log` the calls
      made of the pool, in order. */
  datatype State = State(tensors: seq<Tensor>, live: set<nat>, mem: map<nat, Val>,
                         fault: bool, failed: bool, log: seq<PoolCall>)

  /** Everything a pass depends on besides the graph: the kernels, the plan, the
      pool's answers, which RESHAPE sources are contiguous, the fusion switches,
      each node's runtime row count, and which fused dispatches (named by their
      consumer) the backend accepts. */
  datatype Env = Env(kernel: (nat, seq<Val>) -> Val, garbage: Val,
                     queue: seq<seq<nat>>, reuse: bool,
                     acquire: (nat, set<nat>) -> Option<nat>, borrows: set<nat>,
                     gateOn: bool, upOn: bool, injectOn: bool, moeOn: bool,
                     rows: nat -> int, upMaxRows: int,
                     acceptGate: set<nat>, acceptUp: set<nat>,
                     acceptInject: set<nat>, acceptMoe: set<nat>)

  /** Producers whose dispatch is postponed, -1 for none. */
  datatype Pending = Pending(sigmoid: int, up: int, inject: int, moe: int)

  const NONE := Pending(-1, -1, -1, -1)

  // ---- reading ----

  function ApplyChain(env: Env, chain: seq<nat>, v: Val): Val {
    if chain == [] then v
    else env.kernel(chain[|chain| - 1], [ApplyChain(env, chain[..|chain| - 1], v)])
  }

  function Read(env: Env, st: State, t: Tensor): Val {
    if t.Buf? && t.ptr in st.mem then ApplyChain(env, t.chain, st.mem[t.ptr]) else env.garbage
  }

  predicate Readable(st: State, j: nat) {
    j < |st.tensors| && st.tensors[j].Buf? && st.tensors[j].ptr in st.live
  }

  /** A view reads its first input only. */
  function Args(n: Node): seq<u32> {
    if IsView(n) && n.inputs != [] then [n.inputs[0]] else n.inputs
  }

  function ReadAll(env: Env, st: State, ids: seq<u32>): seq<Val> {
    seq(|ids|, k requires 0 <= k < |ids| =>
      if ids[k] < |st.tensors| then Read(env, st, st.tensors[ids[k]]) else env.garbage)
  }

  predicate AllReadable(st: State, ids: seq<u32>) {
    forall k :: 0 <= k < |ids| ==> Readable(st, ids[k])
  }

  // ---- the pool ----

  /** Whether dispatch of node `j` makes a view (kernels/cpu/layout.cpp:58-185). */
  predicate Borrows(g: Graph, env: Env, j: nat)
    requires j < |g.nodes|
  {
    var op := g.nodes[j].op;
    op == PERMUTE || op == SLICE || (op == RESHAPE && j in env.borrows)
  }

  function Acquire(env: Env, st: State, j: nat): State
    requires j < |st.tensors|
  {
    match env.acquire(j, st.live)
    case None => st.(failed := true)
    case Some(p) => Given(env, st, j, p)
  }

  /** Tensor `j` owns buffer `p`, of unknown contents. */
  function Given(env: Env, st: State, j: nat, p: nat): State
    requires j < |st.tensors|
  {
    st.(tensors := st.tensors[j := Buf(p, [])], live := st.live + {p}, mem := st.mem[p := env.garbage],
        log := st.log + [Acquired(p)])
  }

  /** graph/execute.cpp:784-814. */
  function AllocateOutput(g: Graph, env: Env, st: State, j: nat): State
    requires j < |g.nodes| == |st.tensors|
  {
    if st.tensors[j].Empty? && !Borrows(g, env, j) then Acquire(env, st, j) else st
  }

  // ---- dispatch ----

  /** Writes a result through the output's buffer. */
  function Store(st: State, j: nat, v: Val): (r: State)
    requires j < |st.tensors|
    ensures r.tensors == st.tensors && r.live == st.live && r.failed == st.failed && r.log == st.log
  {
    if Readable(st, j) then st.(mem := st.mem[st.tensors[j].ptr := v]) else st.(fault := true)
  }

  function CheckReads(st: State, ids: seq<u32>): State {
    if AllReadable(st, ids) then st else st.(fault := true)
  }

  /** An ordinary dispatch of node `j`. */
  function Dispatch(g: Graph, env: Env, st: State, j: nat): (r: State)
    requires WellFormed(g) && j < |g.nodes| == |st.tensors|
    ensures |r.tensors| == |st.tensors| && r.failed == st.failed
  {
    var s := CheckReads(st, Args(g.nodes[j]));
    if Borrows(g, env, j) then
      assert NodeOk(g, j);
      var src := st.tensors[g.nodes[j].inputs[0]];
      s.(tensors := st.tensors[j := if src.Buf? then Buf(src.ptr, src.chain + [j]) else Empty])
    else
      Store(s, j, env.kernel(j, ReadAll(env, st, Args(g.nodes[j]))))
  }

  /** Dispatches a postponed producer that may have no buffer yet. */
  function Materialize(g: Graph, env: Env, st: State, j: nat): State
    requires WellFormed(g) && j < |g.nodes| == |st.tensors|
  {
    var s := AllocateOutput(g, env, st, j);
    if s.failed then s else Dispatch(g, env, s, j)
  }

  /** Input `k` of a node whose arity the fusion tests have checked. */
  function In(n: Node, k: nat): u32 {
    if k < |n.inputs| then n.inputs[k] else 0
  }

  function Tail(n: Node): seq<u32> {
    if n.inputs == [] then [] else n.inputs[1..]
  }

  /** graph/execute.cpp:920-931.  Each step returns the new state and whether the
      consumer's own dispatch is already done. */
  function UpStep(g: Graph, env: Env, st: State, c: nat): (r: (State, bool))
    requires WellFormed(g) && 2 <= c < |g.nodes| == |st.tensors|
    ensures |r.0.tensors| == |st.tensors|
  {
    if c in env.acceptUp then
      var norm, x := [In(g.nodes[c], 0)], g.nodes[c - 2].inputs;
      var gate := env.kernel(c - 1, [env.kernel(c - 2, ReadAll(env, st, x))]);
      (Store(CheckReads(st, norm + x), c, env.kernel(c, ReadAll(env, st, norm) + [gate])), true)
    else
      (Materialize(g, env, st, c - 2), false)
  }

  /** graph/execute.cpp:934-940: the whole MoE, inject and norm at once.  The
      fused kernel need not fill its branch tensor; the carry is written. */
  function MoeFused(g: Graph, env: Env, st: State, m: nat, p: nat, c: nat): (r: State)
    requires WellFormed(g) && m < |g.nodes| == |st.tensors| && p < |g.nodes| && c < |g.nodes|
    ensures |r.tensors| == |st.tensors| && r.failed == st.failed
  {
    var x, rest := g.nodes[m].inputs, Tail(g.nodes[p]);
    var carry := env.kernel(p, [env.kernel(m, ReadAll(env, st, x))] + ReadAll(env, st, rest));
    Dispatch(g, env, Store(Store(CheckReads(st, x + rest), m, env.garbage), p, carry), c)
  }

  /** graph/execute.cpp:932-947.  A fused inject writes the carry as well as the norm. */
  function InjectStep(g: Graph, env: Env, st: State, pend: Pending, c: nat): (r: (State, bool))
    requires WellFormed(g) && 0 <= pend.inject < c < |g.nodes| == |st.tensors| && pend.moe < c
    ensures |r.0.tensors| == |st.tensors|
  {
    if pend.moe >= 0 && c in env.acceptMoe then
      (MoeFused(g, env, st, pend.moe, pend.inject, c), true)
    else
      var s := if pend.moe >= 0 then Dispatch(g, env, st, pend.moe) else st;
      var s' := Dispatch(g, env, s, pend.inject);
      if c in env.acceptInject then (Dispatch(g, env, s', c), true) else (s', false)
  }

  /** graph/execute.cpp:948-964. */
  function GateStep(g: Graph, env: Env, st: State, c: nat): (r: (State, bool))
    requires WellFormed(g) && 0 < c < |g.nodes| == |st.tensors|
    ensures |r.0.tensors| == |st.tensors|
  {
    if c in env.acceptGate then
      var norm, x := [In(g.nodes[c], 0)], g.nodes[c - 1].inputs;
      (Store(CheckReads(st, norm + x), c,
             env.kernel(c, ReadAll(env, st, norm) + [env.kernel(c - 1, ReadAll(env, st, x))])), true)
    else
      (Materialize(g, env, st, c - 1), false)
  }

  // ---- release ----

  /** core/tensor.h:236-241: the same allocation, or both without storage. */
  predicate SharesStorage(a: Tensor, b: Tensor) {
    if a.Buf? && b.Buf? then a.ptr == b.ptr else a.Empty? && b.Empty?
  }

  /** Is `j` a borrowed view right now?  The executor asks this of RESHAPE
      (graph/execute.cpp:535-556, 1184-1203), the engine's cleanup of CONTIGUOUS
      as well (engine/engine.cpp:80-100). */
  predicate LooksBorrowed(g: Graph, st: State, j: nat, cleanup: bool)
    requires WellFormed(g) && j < |g.nodes| == |st.tensors|
  {
    var n := g.nodes[j];
    n.op == PERMUTE || n.op == SLICE ||
    ((n.op == RESHAPE || (cleanup && n.op == CONTIGUOUS)) && n.inputs != []
     && (assert NodeOk(g, j); SharesStorage(st.tensors[j], st.tensors[n.inputs[0]])))
  }

  /** graph/execute.cpp:1205-1239 for one tensor of a batch. */
  function ReleaseOne(g: Graph, st: State, j: nat, borrowed: bool): (r: State)
    requires j < |g.nodes| == |st.tensors|
    ensures |r.tensors| == |st.tensors|
  {
    var t := st.tensors[j];
    if IsSource(g.nodes[j]) || t.Empty? then st
    else if borrowed then st.(tensors := st.tensors[j := Empty])
    else st.(tensors := st.tensors[j := Empty], live := st.live - {t.ptr},
             fault := st.fault || t.ptr !in st.live, log := st.log + [Released(t.ptr)])
  }

  /** Releases the first `k` of a batch from `st`; borrowing is judged on the
      state `judge`, taken before anything was changed. */
  function ReleaseFirst(g: Graph, judge: State, cleanup: bool, st: State, batch: seq<nat>, k: nat): (r: State)
    requires WellFormed(g) && |g.nodes| == |st.tensors| == |judge.tensors| && k <= |batch|
    requires forall i :: 0 <= i < |batch| ==> batch[i] < |g.nodes|
    ensures |r.tensors| == |st.tensors|
  {
    if k == 0 then st
    else
      ReleaseOne(g, ReleaseFirst(g, judge, cleanup, st, batch, k - 1), batch[k - 1],
                 LooksBorrowed(g, judge, batch[k - 1], cleanup))
  }

  function ReleaseBatch(g: Graph, st: State, batch: seq<nat>): (r: State)
    requires WellFormed(g) && |g.nodes| == |st.tensors|
    requires forall i :: 0 <= i < |batch| ==> batch[i] < |g.nodes|
    ensures |r.tensors| == |st.tensors|
  {
    ReleaseFirst(g, st, false, st, batch, |batch|)
  }

  predicate InSomeBatch(queue: seq<seq<nat>>, j: nat, first: nat, last: nat)
    requires last < |queue|
  {
    exists i: nat :: first <= i <= last && j in queue[i]
  }

  /** The sorted union of batches `first..last` (graph/execute.cpp:330-359). */
  function FusedBatch(queue: seq<seq<nat>>, first: nat, last: nat, n: nat): (r: seq<nat>)
    requires last < |queue|
    ensures forall j: nat :: j in r <==> j < n && InSomeBatch(queue, j, first, last)
    ensures forall a :: 0 <= a < |r| ==> r[a] < n
    ensures forall a, b :: 0 <= a < b < |r| ==> r[a] < r[b]
  {
    if n == 0 then []
    else if InSomeBatch(queue, n - 1, first, last) then FusedBatch(queue, first, last, n - 1) + [n - 1]
    else FusedBatch(queue, first, last, n - 1)
  }

  // ---- one node ----

  function NextOperator(g: Graph, i: nat): (c: nat)
    requires i <= |g.nodes|
    ensures i <= c <= |g.nodes| && OnlySources(g, i, c)
    ensures c < |g.nodes| ==> !IsSource(g.nodes[c])
    decreases |g.nodes| - i
  {
    if i < |g.nodes| && IsSource(g.nodes[i]) then NextOperator(g, i + 1) else i
  }

  predicate QueueShape(g: Graph, queue: seq<seq<nat>>) {
    |queue| == |g.nodes| &&
    forall i, k :: 0 <= i < |queue| && 0 <= k < |queue[i]| ==> queue[i][k] < |g.nodes|
  }

  /** The four `defer_*` tests, graph/execute.cpp:701-715.  A chain may only be
      entered when its consumer is at most `last`, the end of the segment. */
  predicate DefersUp(g: Graph, env: Env, last: nat, i: nat) {
    env.upOn && UpTriple(g, i + 2) && i + 2 <= last && 16 <= env.rows(i) <= env.upMaxRows
  }

  predicate DefersSigmoid(g: Graph, env: Env, last: nat, i: nat, pend: Pending) {
    (pend.up >= 0 && i == pend.up + 1) ||
    (env.gateOn && GatePair(g, i + 1) && i + 1 <= last && env.rows(i) > 1)
  }

  predicate DefersInject(g: Graph, env: Env, last: nat, i: nat)
    requires i < |g.nodes|
  {
    var c := NextOperator(g, i + 1);
    env.injectOn && InjectRms(g, i, c) && c <= last && env.rows(i) > 1
  }

  predicate DefersMoe(g: Graph, env: Env, last: nat, i: nat)
    requires i < |g.nodes|
  {
    i + 1 < |g.nodes| &&
    var c := NextOperator(g, i + 2);
    env.injectOn && env.moeOn && MoeChain(g, i, c) && c <= last && 16 <= env.rows(i) <= 2048
  }

  predicate UpConsumer(g: Graph, i: nat, pend: Pending) {
    pend.up >= 0 && i == pend.up + 2 && UpTriple(g, i)
  }

  predicate InjectConsumer(g: Graph, i: nat, pend: Pending) {
    pend.inject >= 0 && InjectRms(g, pend.inject, i)
  }

  predicate GateConsumer(i: nat, pend: Pending) {
    pend.sigmoid >= 0 && i == pend.sigmoid + 1
  }

  /** The seven tests made for each node, graph/execute.cpp:698-715. */
  datatype Flags = Flags(deferSigmoid: bool, deferUp: bool, deferInject: bool, deferMoe: bool,
                         gate: bool, up: bool, inject: bool)
  {
    predicate Deferred() { deferSigmoid || deferUp || deferInject || deferMoe }
  }

  function FlagsAt(g: Graph, env: Env, last: nat, i: nat, pend: Pending): Flags
    requires i < |g.nodes|
  {
    Flags(DefersSigmoid(g, env, last, i, pend), DefersUp(g, env, last, i), DefersInject(g, env, last, i),
          DefersMoe(g, env, last, i), GateConsumer(i, pend), UpConsumer(g, i, pend), InjectConsumer(g, i, pend))
  }

  /** The `pending_*` locals name nodes already visited, in chain order. */
  predicate PendingBehind(i: nat, pend: Pending) {
    -1 <= pend.sigmoid < i && -1 <= pend.up < i && -1 <= pend.inject < i && -1 <= pend.moe < i
  }

  /** The flags agree with what is pending. */
  predicate FlagsOk(i: nat, pend: Pending, f: Flags) {
    && PendingBehind(i, pend)
    && (f.gate ==> pend.sigmoid >= 0) && (f.up ==> pend.up >= 0 && i >= 2) && (f.inject ==> pend.inject >= 0)
  }

  /** The dispatch block, graph/execute.cpp:918-994. */
  function DispatchBlock(g: Graph, env: Env, i: nat, st: State, pend: Pending, f: Flags): (r: State)
    requires WellFormed(g) && i < |g.nodes| == |st.tensors| && FlagsOk(i, pend, f)
    ensures |r.tensors| == |st.tensors|
  {
    var (s0, done0) := if f.up then UpStep(g, env, st, i) else (st, false);
    if s0.failed then s0 else
    var (s1, done1) := if f.inject then InjectStep(g, env, s0, pend, i) else (s0, done0);
    var (s2, done2) := if f.gate && !done1 then GateStep(g, env, s1, i) else (s1, done1);
    if s2.failed || done2 then s2 else Dispatch(g, env, s2, i)
  }

  /** Output allocation and dispatch of node `i`, graph/execute.cpp:783-1001. */
  function Compute(g: Graph, env: Env, i: nat, st: State, pend: Pending, f: Flags): (r: State)
    requires WellFormed(g) && i < |g.nodes| == |st.tensors| && FlagsOk(i, pend, f)
    ensures |r.tensors| == |st.tensors|
  {
    var s1 := if f.deferSigmoid || f.deferUp then st else AllocateOutput(g, env, st, i);
    if s1.failed || f.Deferred() then s1 else DispatchBlock(g, env, i, s1, pend, f)
  }

  /** Where the batch released after `i` starts. */
  function BatchStart(i: nat, pend: Pending, f: Flags): nat
    requires FlagsOk(i, pend, f)
  {
    if f.up then i - 2
    else if f.inject then (if pend.moe >= 0 then pend.moe else pend.inject)
    else if f.gate then i - 1
    else i
  }

  /** The batch released after `i`, graph/execute.cpp:1178-1183. */
  function BatchAfter(g: Graph, env: Env, i: nat, pend: Pending, f: Flags): (r: seq<nat>)
    requires i < |g.nodes| && QueueShape(g, env.queue) && FlagsOk(i, pend, f)
    ensures forall k :: 0 <= k < |r| ==> r[k] < |g.nodes|
  {
    if env.reuse || f.Deferred() || (pend.moe >= 0 && !f.inject) then []
    else
      var first := BatchStart(i, pend, f);
      if first == i then env.queue[i] else FusedBatch(env.queue, first, i, |g.nodes|)
  }

  /** graph/execute.cpp:1241-1248. */
  function NextPending(i: nat, pend: Pending, f: Flags): (r: Pending)
    requires PendingBehind(i, pend)
    ensures PendingBehind(i + 1, r)
  {
    Pending(if f.deferSigmoid then i else if f.gate then -1 else pend.sigmoid,
            if f.deferUp then i else if f.up then -1 else pend.up,
            if f.deferInject then i else if f.inject then -1 else pend.inject,
            if f.deferMoe then i else if f.inject then -1 else pend.moe)
  }

  /** One iteration of the node loop for an operator, graph/execute.cpp:645-1259. */
  function StepWith(g: Graph, env: Env, i: nat, st: State, pend: Pending, f: Flags): (r: (State, Pending))
    requires WellFormed(g) && i < |g.nodes| == |st.tensors| && QueueShape(g, env.queue) && FlagsOk(i, pend, f)
    ensures |r.0.tensors| == |st.tensors| && PendingBehind(i + 1, r.1)
  {
    var s := Compute(g, env, i, st, pend, f);
    if s.failed then (s, pend)
    else (ReleaseBatch(g, s, BatchAfter(g, env, i, pend, f)), NextPending(i, pend, f))
  }

  /** One iteration of the node loop, graph/execute.cpp:635-1259. */
  function Step(g: Graph, env: Env, last: nat, i: nat, st: State, pend: Pending): (r: (State, Pending))
    requires WellFormed(g) && i < |g.nodes| == |st.tensors| && QueueShape(g, env.queue) && PendingBehind(i, pend)
    ensures |r.0.tensors| == |st.tensors| && PendingBehind(i + 1, r.1)
  {
    if IsSource(g.nodes[i]) then (st, pend) else StepWith(g, env, i, st, pend, FlagsAt(g, env, last, i, pend))
  }

  /** The node loop from `i` through `last`; it stops at a failed acquisition. */
  function Run(g: Graph, env: Env, last: nat, i: nat, st: State, pend: Pending): (r: (State, Pending))
    requires WellFormed(g) && i <= last + 1 <= |g.nodes| == |st.tensors| && QueueShape(g, env.queue)
    requires PendingBehind(i, pend)
    ensures |r.0.tensors| == |st.tensors|
    decreases last + 1 - i
  {
    if i > last || st.failed then (st, pend)
    else
      var (s, p) := Step(g, env, last, i, st, pend);
      Run(g, env, last, i + 1, s, p)
  }
}
