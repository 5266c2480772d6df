/** Which producer/consumer chains the executor may fuse: the eligibility tests
    of prepare_execution and graph/hc_deferred_rms.h. */
module Fusion {
  import opened Graph

  /** Number of edges that read `id`, duplicates included. */
  function UseCount(g: Graph, id: nat, n: nat): nat
    requires n <= |g.nodes|
  {
    if n == 0 then 0 else UseCount(g, id, n - 1) + multiset(g.nodes[n - 1].inputs)[id]
  }

  predicate SoleUse(g: Graph, id: nat) {
    UseCount(g, id, |g.nodes|) == 1
  }

  predicate Exposed(g: Graph, id: nat) {
    id in g.outputs
  }

  predicate ShapeIs(n: Node, width: int, rows: int) {
    n.shape.x0 == width && n.shape.x1 == rows && n.shape.x2 == 1 && n.shape.x3 == 1
  }

  /** SIGMOID at `i - 1` feeding only the GR_REDUCE at `i`, graph/execute.cpp:134-148. */
  predicate GatePair(g: Graph, i: nat) {
    0 < i < |g.nodes| &&
    var sigmoid, reduce := g.nodes[i - 1], g.nodes[i];
    && sigmoid.op == SIGMOID && |sigmoid.inputs| == 1 && sigmoid.prec == FP32
    && reduce.op == GR_REDUCE && |reduce.inputs| == 2 && reduce.inputs[1] == sigmoid.id
    && SoleUse(g, i - 1) && !Exposed(g, i - 1)
  }

  /** MATMUL, SIGMOID, GR_REDUCE in a row, graph/hc_deferred_rms.h:36-66. */
  predicate UpTriple(g: Graph, c: nat) {
    2 <= c < |g.nodes| &&
    var up, sigmoid, reduce := g.nodes[c - 2], g.nodes[c - 1], g.nodes[c];
    var rows := reduce.shape.x1;
    && reduce.op == GR_REDUCE && |reduce.inputs| == 2 && reduce.prec == FP32
    && ShapeIs(reduce, 2560, rows)
    && GetI32(reduce.params, 0, 0) == 2560 && GetI32(reduce.params, 1, 4) == 4
    && sigmoid.op == SIGMOID && |sigmoid.inputs| == 1 && sigmoid.inputs[0] == up.id
    && reduce.inputs[1] == sigmoid.id && up.op == MATMUL && |up.inputs| == 2
    && up.prec == FP32 && sigmoid.prec == FP32 && !Exposed(g, c - 2) && !Exposed(g, c - 1)
    && ShapeIs(up, 10240, rows) && ShapeIs(sigmoid, 10240, rows)
    && GetI32(up.params, 0, 0) == 0 && GetI32(up.params, 1, 0) == 0 && GetI32(up.params, 2, -1) == -1
    && up.inputs[0] < c - 2 && up.inputs[1] < c - 2 && reduce.inputs[0] < c - 2
    && UpOperands(g.nodes[up.inputs[0]], g.nodes[up.inputs[1]], g.nodes[reduce.inputs[0]], rows)
    && SoleUse(g, c - 2) && SoleUse(g, c - 1)
  }

  predicate UpOperands(low: Node, weight: Node, norm: Node, rows: int) {
    && low.prec == FP32 && ShapeIs(low, 320, rows)
    && weight.op == CONSTANT && weight.prec == FP16 && ShapeIs(weight, 10240, 320)
    && norm.prec == FP32 && ShapeIs(norm, 10240, rows)
  }

  predicate OnlySources(g: Graph, from: nat, to: nat) {
    to <= |g.nodes| && forall i :: from <= i < to ==> IsSource(g.nodes[i])
  }

  /** GR_INJECT at `p`; the next operator is the GROUP_RMS_NORM at `c` that
      reads it, graph/execute.cpp:170-188. */
  predicate InjectRms(g: Graph, p: nat, c: nat) {
    p < c < |g.nodes| &&
    var inject, rms := g.nodes[p], g.nodes[c];
    && inject.op == GR_INJECT && |inject.inputs| == 3 && inject.prec == FP32
    && OnlySources(g, p + 1, c)
    && rms.op == GROUP_RMS_NORM && |rms.inputs| == 2 && rms.inputs[0] == inject.id && rms.prec == FP32
  }

  /** MOE directly before such an inject and read only by it,
      graph/hc_deferred_rms.h:89-111. */
  predicate MoeChain(g: Graph, m: nat, c: nat) {
    InjectRms(g, m + 1, c) &&
    var moe, inject, rms := g.nodes[m], g.nodes[m + 1], g.nodes[c];
    var rows := moe.shape.x1;
    && moe.op == MOE && |moe.inputs| == 8 && moe.prec == FP32 && ShapeIs(moe, 2560, rows)
    && GetI32(moe.params, 0, 0) == 2560 && GetI32(moe.params, 2, 0) == 10
    && !Exposed(g, m) && SoleUse(g, m) && inject.inputs[0] == moe.id
    && ShapeIs(inject, 10240, rows) && GetI32(inject.params, 0, 0) == 2560 && GetI32(inject.params, 1, 4) == 4
    && ShapeIs(rms, 10240, rows) && GetI32(rms.params, 0, 0) == 2560
  }

  // ---- what eligibility buys ----

  lemma {:induction false} UseCountAtLeast(g: Graph, id: nat, a: nat, n: nat)
    requires a < n <= |g.nodes|
    ensures UseCount(g, id, n) >= multiset(g.nodes[a].inputs)[id]
  {
    if a < n - 1 {
      UseCountAtLeast(g, id, a, n - 1);
    }
  }

  lemma {:induction false} UseCountOfTwo(g: Graph, id: nat, a: nat, b: nat, n: nat)
    requires a < b < n <= |g.nodes|
    ensures UseCount(g, id, n) >= multiset(g.nodes[a].inputs)[id] + multiset(g.nodes[b].inputs)[id]
  {
    if b < n - 1 {
      UseCountOfTwo(g, id, a, b, n - 1);
    } else {
      UseCountAtLeast(g, id, a, b);
    }
  }

  /** A sole use leaves no second reader, and no second edge in the one reader. */
  lemma SoleReader(g: Graph, id: nat, a: nat)
    requires a < |g.nodes| && SoleUse(g, id) && id in g.nodes[a].inputs
    ensures forall b :: 0 <= b < |g.nodes| && id in g.nodes[b].inputs ==> b == a
    ensures multiset(g.nodes[a].inputs)[id] == 1
  {
    UseCountAtLeast(g, id, a, |g.nodes|);
    assert id in multiset(g.nodes[a].inputs);
    forall b | 0 <= b < |g.nodes| && id in g.nodes[b].inputs
      ensures b == a
    {
      assert id in multiset(g.nodes[b].inputs);
      if b < a {
        UseCountOfTwo(g, id, b, a, |g.nodes|);
      } else if a < b {
        UseCountOfTwo(g, id, a, b, |g.nodes|);
      }
    }
  }

  /** An up chain is a gate pair with one more producer in front. */
  lemma UpTripleIsGatePair(g: Graph, c: nat)
    requires UpTriple(g, c)
    ensures GatePair(g, c)
  {
  }
}
