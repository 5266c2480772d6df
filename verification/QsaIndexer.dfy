/** What the rewrite feeds each attention node, following ids through the rewritten
    graph (engine/qsa_companion.cpp:173-202). */
module QsaIndexer {
  import opened Graph
  import opened Qsa

  /** Node `i` is a constant with the contents of a file. */
  predicate IsWeight(nodes: seq<Node>, i: nat, name: Bytes, prec: u8, width: int, rows: int) {
    i < |nodes| && nodes[i].op == CONSTANT && nodes[i].inputs == [] && nodes[i].params == Params([], [], [name])
    && nodes[i].prec == prec && nodes[i].shape == Four(width, rows, 1, 1)
  }

  predicate IsFrequencies(nodes: seq<Node>, i: nat, c: Config) {
    i < |nodes| && nodes[i].op == CONSTANT && nodes[i].inputs == [] && nodes[i].params == Params([], c.frequencies, ["__qsa_frequency__"])
    && nodes[i].prec == FP32 && nodes[i].shape == Four(c.rope / 2, 1, 1, 1)
  }

  /** Node `i` is the state input of number `number`. */
  predicate IsStateInput(nodes: seq<Node>, i: nat, t: Numerals, number: nat, width: int, rows: int) {
    i < |nodes| && nodes[i].op == INPUT && nodes[i].inputs == [] && nodes[i].params == Params([], [], [AUX + t.decimal(number)])
    && nodes[i].prec == FP32 && nodes[i].shape == Four(width, rows, 1, 1)
  }

  /** Node `i` projects node `x` with the layer's query/key weight. */
  predicate IsProjection(nodes: seq<Node>, i: nat, c: Config, layer: nat, x: nat, like: Node) {
    i < |nodes| && nodes[i].op == MATMUL && nodes[i].params == Params([0, 0, -1], [], []) && nodes[i].prec == FP32
    && nodes[i].shape == Four((c.heads + 1) * c.dim, like.shape.x1, 1, 1) && nodes[i].dims.x1 == like.dims.x1
    && |nodes[i].inputs| == 2 && nodes[i].inputs[0] == x
    && IsWeight(nodes, nodes[i].inputs[1], c.file(layer, 0), FP16, (c.heads + 1) * c.dim, c.hidden)
  }

  /** The rows of the pooled state. */
  function PooledRows(c: Config): int
    requires GeometryOk(c)
  {
    if c.context >= 2 * c.ratio then c.context / c.ratio else 1
  }

  /** Node `i` is the indexer of a layer: its inputs are, in order, the projection of
      `x`, the query norm, the key norm, the frequencies, the raw and the pooled state,
      and the nodes `cache` and `mask`. */
  predicate IsIndexer(nodes: seq<Node>, i: nat, c: Config, t: Numerals, layer: nat, aux: nat, x: nat, like: Node, cache: nat, mask: nat)
    requires GeometryOk(c)
  {
    i < |nodes| &&
    var n := nodes[i];
    && n.op == QSA_INDEXER && n.prec == INT32 && n.shape == Four(c.budget + c.ratio - 1, like.shape.x1, 1, 1) && n.dims.x1 == like.dims.x1
    && n.params.i32s == [c.heads, c.dim, c.rope, c.ratio, c.budget] && n.params.f32s == [c.eps]
    && |n.inputs| == 8 && IsProjection(nodes, n.inputs[0], c, layer, x, like)
    && IsWeight(nodes, n.inputs[1], c.file(layer, 1), FP32, c.dim, 1)
    && IsWeight(nodes, n.inputs[2], c.file(layer, 2), FP32, c.dim, 1)
    && IsFrequencies(nodes, n.inputs[3], c)
    && IsStateInput(nodes, n.inputs[4], t, aux, c.dim, c.context) && IsStateInput(nodes, n.inputs[5], t, aux + 1, c.dim, PooledRows(c))
    && n.inputs[6] == cache && n.inputs[7] == mask
  }

  /** Attention node `k` after the rewrite: its own inputs, moved, and then its layer's
      indexer over what the layer's projection reads. */
  ghost predicate Fed(g: Graph, p: Plan, nodes: seq<Node>, k: nat)
    requires Ready(g, p) && k < |g.nodes| && IsAttention(g.nodes[k])
  {
    var n, layer, id := g.nodes[k], LayerOf(g, p, k), NewId(g.nodes, k);
    assert TopologicalAt(g.nodes, k);
    assert TopologicalAt(g.nodes, p.projections[layer]);
    var x := g.nodes[p.projections[layer]].inputs[0];
    && id < |nodes| && nodes[id] == n.(id := id, op := QSA_SDPA, inputs := nodes[id].inputs)
    && |nodes[id].inputs| == 7 && (forall j :: 0 <= j < 6 ==> nodes[id].inputs[j] == NewId(g.nodes, n.inputs[j]))
    && IsIndexer(nodes, nodes[id].inputs[6], p.c, p.t, layer, p.aux + 2 * Attentions(g.nodes, k),
                 NewId(g.nodes, x), g.nodes[x], NewId(g.nodes, n.inputs[4]), NewId(g.nodes, n.inputs[3]))
  }

  lemma RewrittenIsFed(g: Graph, p: Plan, tap: nat, k: nat)
    requires Ready(g, p) && tap < |g.nodes| && Within(g.outputs, |g.nodes|) && Within(g.inputs, |g.nodes|)
    requires k < |g.nodes| && IsAttention(g.nodes[k])
    ensures Fed(g, p, Rewritten(g, p, tap).nodes, k)
  {
    hide Expanded, BlockOf, Resolved, GeometryOk, ReadsBack, LayerOf, NewId, IsIndexer, Block, Topological, Moved, Attentions;
    AttentionMoved(g, p, k);
    BlockStands(g, p, k);
    IndexerStands(g, p, k);
  }

  /** The attention node itself. */
  lemma AttentionMoved(g: Graph, p: Plan, k: nat)
    requires Ready(g, p) && k < |g.nodes| && IsAttention(g.nodes[k])
    ensures var nodes, n, id := Expanded(g, p, |g.nodes|), g.nodes[k], NewId(g.nodes, k);
      && TopologicalAt(g.nodes, k) && |n.inputs| == 6 && id < |nodes| && id > 0
      && nodes[id] == n.(id := id, op := QSA_SDPA, inputs := nodes[id].inputs)
      && |nodes[id].inputs| == 7 && (forall j :: 0 <= j < 6 ==> nodes[id].inputs[j] == NewId(g.nodes, n.inputs[j]))
      && nodes[id].inputs[6] == id - 1
  {
    hide Expanded, BlockOf, GeometryOk, ReadsBack, LayerOf;
    Placed(g, p, k);
    assert Resolved(g, p, k);
  }

  /** Its indexer. */
  lemma IndexerStands(g: Graph, p: Plan, k: nat)
    requires Ready(g, p) && k < |g.nodes| && IsAttention(g.nodes[k])
    requires var nodes, id := Expanded(g, p, |g.nodes|), NewId(g.nodes, k);
      BLOCK <= id < |nodes| && forall j: nat :: j < BLOCK ==> nodes[id - BLOCK + j] == BlockOf(g, p, k)[j]
    ensures TopologicalAt(g.nodes, k) && |g.nodes[k].inputs| == 6 && GeometryOk(p.c)
    ensures var layer := LayerOf(g, p, k);
      && layer in p.projections && p.projections[layer] < |g.nodes| && TopologicalAt(g.nodes, p.projections[layer])
      && |g.nodes[p.projections[layer]].inputs| == 2
      && var x := g.nodes[p.projections[layer]].inputs[0];
      IsIndexer(Expanded(g, p, |g.nodes|), NewId(g.nodes, k) - 1, p.c, p.t, layer, p.aux + 2 * Attentions(g.nodes, k),
                NewId(g.nodes, x), g.nodes[x], NewId(g.nodes, g.nodes[k].inputs[4]), NewId(g.nodes, g.nodes[k].inputs[3]))
  {
    hide Expanded, Block, BlockOf, IsIndexer, LayerOf, ReadsBack, NewId, Attentions, Resolved, GeometryOk, Topological;
    BlockOfIs(g, p, k);
    var x := g.nodes[p.projections[LayerOf(g, p, k)]].inputs[0];
    BlockFeeds(p.c, p.t, LayerOf(g, p, k), NewId(g.nodes, k) - BLOCK, g.nodes[x], NewId(g.nodes, x), p.aux + 2 * Attentions(g.nodes, k),
               NewId(g.nodes, g.nodes[k].inputs[4]), NewId(g.nodes, g.nodes[k].inputs[3]), Expanded(g, p, |g.nodes|));
  }

  /** The block of a node, and that its parts exist. */
  lemma BlockOfIs(g: Graph, p: Plan, k: nat)
    requires Ready(g, p) && k < |g.nodes| && IsAttention(g.nodes[k]) && NewId(g.nodes, k) >= BLOCK
    ensures ReadyTo(g, p, k + 1) && TopologicalAt(g.nodes, k) && |g.nodes[k].inputs| == 6 && GeometryOk(p.c)
    ensures NewId(g.nodes, k) < 0x1_0000_0000
    ensures var layer := LayerOf(g, p, k);
      && layer in p.projections && p.projections[layer] < |g.nodes| && TopologicalAt(g.nodes, p.projections[layer])
      && |g.nodes[p.projections[layer]].inputs| == 2
      && var x := g.nodes[p.projections[layer]].inputs[0];
      BlockOf(g, p, k) == Block(p.c, p.t, layer, NewId(g.nodes, k) - BLOCK, g.nodes[x], NewId(g.nodes, x), p.aux + 2 * Attentions(g.nodes, k),
                                NewId(g.nodes, g.nodes[k].inputs[4]), NewId(g.nodes, g.nodes[k].inputs[3]))
  {
    hide Block, LayerOf, ReadsBack, GeometryOk, NewId, Attentions;
    assert Resolved(g, p, k);
    assert TopologicalAt(g.nodes, k) && TopologicalAt(g.nodes, p.projections[LayerOf(g, p, k)]);
  }

  lemma BlockStands(g: Graph, p: Plan, k: nat)
    requires Ready(g, p) && k < |g.nodes| && IsAttention(g.nodes[k])
    ensures var nodes, id := Expanded(g, p, |g.nodes|), NewId(g.nodes, k);
      BLOCK <= id < |nodes| && forall j: nat :: j < BLOCK ==> nodes[id - BLOCK + j] == BlockOf(g, p, k)[j]
  {
    hide Expanded, BlockOf, Resolved, GeometryOk, ReadsBack;
    Placed(g, p, k);
    var nodes, id := Expanded(g, p, |g.nodes|), NewId(g.nodes, k);
    forall j: nat | j < BLOCK
      ensures nodes[id - BLOCK + j] == BlockOf(g, p, k)[j]
    {
      assert nodes[id - BLOCK..id][j] == nodes[id - BLOCK + j];
    }
  }

  /** The block wherever it stands. */
  lemma BlockFeeds(c: Config, t: Numerals, layer: nat, base: nat, like: Node, x: u32, aux: nat, cache: u32, mask: u32, nodes: seq<Node>)
    requires GeometryOk(c) && base + BLOCK < 0x1_0000_0000 && base + BLOCK <= |nodes|
    requires forall j: nat :: j < BLOCK ==> nodes[base + j] == Block(c, t, layer, base, like, x, aux, cache, mask)[j]
    ensures IsIndexer(nodes, base + 7, c, t, layer, aux, x, like, cache, mask)
  {
    var b := Block(c, t, layer, base, like, x, aux, cache, mask);
    assert nodes[base] == b[0] by {
      assert nodes[base + 0] == b[0];
    }
    assert nodes[base + 1] == b[1] && nodes[base + 2] == b[2] && nodes[base + 3] == b[3] && nodes[base + 4] == b[4];
    assert nodes[base + 5] == b[5] && nodes[base + 6] == b[6] && nodes[base + 7] == b[7];
    TwiceIn(c.context, c.ratio);
  }

  lemma TwiceIn(a: nat, b: nat)
    requires b > 0
    ensures a / b > 1 <==> a >= 2 * b
  {
    assert a == a / b * b + a % b;
    if a / b > 1 {
      assert a / b * b >= 2 * b;
    } else {
      assert a / b * b <= 1 * b;
    }
  }

  // ---- the values it is fed ----

  /** What the projection computes. */
  lemma ProjectionMeans<V(!new)>(nodes: seq<Node>, i: nat, c: Config, layer: nat, x: nat, like: Node, bound: nat -> V, kernel: (Node, seq<V>) -> V)
    requires Topological(nodes) && IsProjection(nodes, i, c, layer, x, like) && x < |nodes|
    ensures Meaning(nodes, bound, kernel, i) ==
      kernel(Payload(nodes[i]), [Meaning(nodes, bound, kernel, x), bound(nodes[i].inputs[1])])
  {
    assert TopologicalAt(nodes, i);
    var vs := Meanings(nodes, bound, kernel, nodes[i].inputs, i);
    assert vs == [Meaning(nodes, bound, kernel, x), bound(nodes[i].inputs[1])];
  }

  /** What the indexer computes, from the original values of the projection's input,
      the K cache and the mask, and from the added constants and states. */
  lemma IndexerMeans<V(!new)>(g: Graph, p: Plan, bind: nat -> V, bound: nat -> V, kernel: (Node, seq<V>) -> V, k: nat)
    requires Ready(g, p) && SelectsOnly(kernel) && SameBindings(g.nodes, bind, bound)
    requires k < |g.nodes| && IsAttention(g.nodes[k])
    ensures Topological(Expanded(g, p, |g.nodes|)) && Fed(g, p, Expanded(g, p, |g.nodes|), k)
    ensures Indexed(g, p, bind, bound, kernel, k)
  {
    hide Expanded, BlockOf, Resolved, GeometryOk, ReadsBack, LayerOf, NewId, Block, Moved, Attentions, SelectsOnly, SameBindings, Meaning;
    ExpandedTopological(g, p);
    AttentionMoved(g, p, k);
    BlockStands(g, p, k);
    IndexerStands(g, p, k);
    var nodes, n, layer := Expanded(g, p, |g.nodes|), g.nodes[k], LayerOf(g, p, k);
    var x := g.nodes[p.projections[layer]].inputs[0];
    ValuesKept(g, p, bind, bound, kernel, x);
    ValuesKept(g, p, bind, bound, kernel, n.inputs[4]);
    ValuesKept(g, p, bind, bound, kernel, n.inputs[3]);
    IndexerOf(nodes, NewId(g.nodes, k) - 1, p.c, p.t, layer, p.aux + 2 * Attentions(g.nodes, k), NewId(g.nodes, x), g.nodes[x],
              NewId(g.nodes, n.inputs[4]), NewId(g.nodes, n.inputs[3]), bound, kernel);
  }

  /** The selection that the rewritten attention node reads last. */
  ghost predicate Indexed<V(!new)>(g: Graph, p: Plan, bind: nat -> V, bound: nat -> V, kernel: (Node, seq<V>) -> V, k: nat)
    requires Ready(g, p) && k < |g.nodes| && IsAttention(g.nodes[k])
    requires Topological(Expanded(g, p, |g.nodes|)) && Fed(g, p, Expanded(g, p, |g.nodes|), k)
  {
    var nodes, n := Expanded(g, p, |g.nodes|), g.nodes[k];
    assert TopologicalAt(g.nodes, k) && TopologicalAt(g.nodes, p.projections[LayerOf(g, p, k)]);
    var x := g.nodes[p.projections[LayerOf(g, p, k)]].inputs[0];
    var i := nodes[NewId(g.nodes, k)].inputs[6];
    Meaning(nodes, bound, kernel, i) ==
      Selection(nodes, i, bound, kernel, Meaning(g.nodes, bind, kernel, x), Meaning(g.nodes, bind, kernel, n.inputs[4]),
                Meaning(g.nodes, bind, kernel, n.inputs[3]))
  }

  /** The indexer's kernel over the projected `x`, both norms, the frequencies, both
      states, the K cache and the mask. */
  ghost function Selection<V>(nodes: seq<Node>, i: nat, bound: nat -> V, kernel: (Node, seq<V>) -> V, x: V, cache: V, mask: V): V
    requires i < |nodes| && |nodes[i].inputs| == 8 && nodes[i].inputs[0] < |nodes| && |nodes[nodes[i].inputs[0]].inputs| == 2
  {
    var ids := nodes[i].inputs;
    var projected := kernel(Payload(nodes[ids[0]]), [x, bound(nodes[ids[0]].inputs[1])]);
    kernel(Payload(nodes[i]), [projected, bound(ids[1]), bound(ids[2]), bound(ids[3]), bound(ids[4]), bound(ids[5]), cache, mask])
  }

  lemma IndexerOf<V(!new)>(nodes: seq<Node>, i: nat, c: Config, t: Numerals, layer: nat, aux: nat, x: nat, like: Node, cache: nat, mask: nat,
                           bound: nat -> V, kernel: (Node, seq<V>) -> V)
    requires GeometryOk(c) && Topological(nodes) && IsIndexer(nodes, i, c, t, layer, aux, x, like, cache, mask)
    requires x < |nodes| && cache < |nodes| && mask < |nodes|
    ensures Meaning(nodes, bound, kernel, i) ==
      Selection(nodes, i, bound, kernel, Meaning(nodes, bound, kernel, x), Meaning(nodes, bound, kernel, cache), Meaning(nodes, bound, kernel, mask))
  {
    var ids := nodes[i].inputs;
    IndexerReads(nodes, i, c, t, layer, aux, x, like, cache, mask);
    ProjectionMeans(nodes, ids[0], c, layer, x, like, bound, kernel);
    hide IsIndexer, IsProjection, IsWeight, IsFrequencies, IsStateInput, Topological, GeometryOk;
    var vs := Meanings(nodes, bound, kernel, ids, i);
    forall k | 1 <= k <= 5
      ensures vs[k] == bound(ids[k])
    {
      SourceMeans(nodes, bound, kernel, ids[k]);
    }
    assert vs == [Meaning(nodes, bound, kernel, ids[0]), bound(ids[1]), bound(ids[2]), bound(ids[3]), bound(ids[4]), bound(ids[5]),
                  Meaning(nodes, bound, kernel, cache), Meaning(nodes, bound, kernel, mask)];
  }

  lemma IndexerReads(nodes: seq<Node>, i: nat, c: Config, t: Numerals, layer: nat, aux: nat, x: nat, like: Node, cache: nat, mask: nat)
    requires GeometryOk(c) && Topological(nodes) && IsIndexer(nodes, i, c, t, layer, aux, x, like, cache, mask)
    ensures TopologicalAt(nodes, i) && !IsSource(nodes[i])
    ensures var ids := nodes[i].inputs;
      && |ids| == 8 && ids[6] == cache && ids[7] == mask && IsProjection(nodes, ids[0], c, layer, x, like)
      && forall k :: 1 <= k <= 5 ==> ids[k] < |nodes| && IsSource(nodes[ids[k]])
  {
    assert TopologicalAt(nodes, i);
  }

  lemma SourceMeans<V(!new)>(nodes: seq<Node>, bound: nat -> V, kernel: (Node, seq<V>) -> V, i: nat)
    requires Topological(nodes) && i < |nodes| && IsSource(nodes[i])
    ensures Meaning(nodes, bound, kernel, i) == bound(i)
  {
  }

  /** Of the metadata only the mark and the tap change, the tap to where its node is now. */
  lemma RewrittenMetadata(g: Graph, p: Plan, tap: nat)
    requires Ready(g, p) && tap < |g.nodes| && Within(g.outputs, |g.nodes|) && Within(g.inputs, |g.nodes|)
    ensures var m := Rewritten(g, p, tap).metadata;
      && m.Keys == g.metadata.Keys + {"qsa"} && m["qsa"] == "contiguous-causal-fp32-v1"
      && ("mtp_state_output_node" in g.metadata ==> m["mtp_state_output_node"] == p.t.decimal(NewId(g.nodes, tap)))
      && forall k <- g.metadata :: k != "qsa" && k != "mtp_state_output_node" ==> m[k] == g.metadata[k]
  {
    hide Expanded, NewId, ExtraInputs;
    assert "qsa" != "mtp_state_output_node" by {
      assert |"qsa"| != |"mtp_state_output_node"|;
    }
  }

  /** The new states follow the old inputs two by two, unpooled before pooled, in the
      order of the attention nodes. */
  lemma {:induction false} ExtraInputsInOrder(g: Graph, n: nat, k: nat)
    requires k < n <= |g.nodes| && 9 * |g.nodes| < 0x1_0000_0000 && IsAttention(g.nodes[k])
    ensures var extra, at := ExtraInputs(g.nodes, n), 2 * Attentions(g.nodes, k);
      |extra| == 2 * Attentions(g.nodes, n) > at + 1 && extra[at] == NewId(g.nodes, k) - 3 && extra[at + 1] == NewId(g.nodes, k) - 2
  {
    ExtraInputsCount(g, n - 1);
    if k < n - 1 {
      ExtraInputsInOrder(g, n - 1, k);
    }
  }

  lemma {:induction false} ExtraInputsCount(g: Graph, n: nat)
    requires n <= |g.nodes| && 9 * |g.nodes| < 0x1_0000_0000
    ensures |ExtraInputs(g.nodes, n)| == 2 * Attentions(g.nodes, n)
  {
    if n > 0 {
      ExtraInputsCount(g, n - 1);
    }
  }
}
