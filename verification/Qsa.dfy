/** The QSA rewrite of engine/qsa_companion.cpp:104-218: what it builds, and why the
    rewritten graph means what the original did. */
module Qsa {
  import opened Wrappers
  import opened Graph

  /** std::to_string and std::stoi, the latter with the number of bytes it used.
      All that matters is that the second reads back the first. */
  datatype Numerals = Numerals(decimal: nat -> Bytes, stoi: Bytes -> Option<(int, nat)>, stoul: Bytes -> Option<nat>)

  ghost predicate ReadsBack(t: Numerals) {
    forall n: nat :: t.stoi(t.decimal(n)) == Some((n, |t.decimal(n)|))
  }

  /** The checked manifest: geometry, RoPE frequencies, layers and weight files. */
  datatype Config = Config(context: int, heads: int, dim: int, ratio: int, budget: int, rope: int, hidden: int,
                           mainHeads: int, kvHeads: int, mainDim: int, eps: u32, frequencies: seq<u32>,
                           layers: set<nat>, file: (nat, nat) -> Bytes)

  /** The bounds of lines 28 and 45-52. */
  predicate GeometryOk(c: Config) {
    && 0 < c.context <= 262144 && 1 <= c.heads <= 16 && c.rope <= c.dim <= 256 && 2 <= c.rope && c.rope % 2 == 0
    && 1 <= c.ratio <= 16 && 0 < c.budget <= 4096 && c.budget % c.ratio == 0 && c.budget + c.ratio - 1 <= 4096
    && 0 < c.hidden <= 1048576 && 0 < c.mainHeads <= 4096 && 0 < c.kvHeads <= 4096 && c.mainHeads % c.kvHeads == 0
    && c.rope <= c.mainDim <= 4096
  }

  const INT32: u8 := 6
  const AUX: Bytes := "aux_state"
  const CACHE_K: Bytes := "cache_k"
  const CACHE_V: Bytes := "cache_v"

  function ProjectionName(t: Numerals, layer: nat): Bytes {
    "./model_language_model_layers_" + t.decimal(layer) + "_self_attn_qkv_proj_weight.weights"
  }

  predicate Named(n: Node, prefix: Bytes) {
    n.params.strs != [] && prefix <= n.params.strs[0]
  }

  // ---- the nodes that are added ----

  const STATIC: DimExpr := DimExpr(0, 0)

  function Fresh(op: u32, prec: u8, width: i64, rows: i64, id: u32, inputs: seq<u32>, params: Params): Node {
    Node(id, op, inputs, params, Four(width, rows, 1, 1), Four(STATIC, STATIC, STATIC, STATIC), prec)
  }

  function Rows(n: Node, dim: DimExpr): Node {
    n.(dims := Four(STATIC, dim, STATIC, STATIC))
  }

  const BLOCK := 8

  /** The eight nodes put before an attention node, from id `base` on: three
      weights, the frequencies, the projection of the attention's own input `x`
      (now `xin`), two state inputs, and the indexer over all of them. */
  function Block(c: Config, t: Numerals, layer: nat, base: nat, x: Node, xin: u32, aux: nat, mask: u32, positions: u32): (r: seq<Node>)
    requires GeometryOk(c) && base + BLOCK < 0x1_0000_0000
    ensures |r| == BLOCK
  {
    var width := (c.heads + 1) * c.dim;
    assert 0 < width <= 17 * 256;
    var rows := x.shape.x1;
    var weight := (which: nat) => Params([], [], [c.file(layer, which)]);
    [ Fresh(CONSTANT, FP16, width, c.hidden, base, [], weight(0)),
      Fresh(CONSTANT, FP32, c.dim, 1, base + 1, [], weight(1)),
      Fresh(CONSTANT, FP32, c.dim, 1, base + 2, [], weight(2)),
      Fresh(CONSTANT, FP32, c.rope / 2, 1, base + 3, [], Params([], c.frequencies, ["__qsa_frequency__"])),
      Rows(Fresh(MATMUL, FP32, width, rows, base + 4, [xin, base], Params([0, 0, -1], [], [])), x.dims.x1),
      Fresh(INPUT, FP32, c.dim, c.context, base + 5, [], Params([], [], [AUX + t.decimal(aux)])),
      Fresh(INPUT, FP32, c.dim, if c.context / c.ratio > 1 then c.context / c.ratio else 1, base + 6, [],
            Params([], [], [AUX + t.decimal(aux + 1)])),
      Rows(Fresh(QSA_INDEXER, INT32, c.budget + c.ratio - 1, rows, base + 7,
                 [base + 4, base + 1, base + 2, base + 3, base + 5, base + 6, mask, positions],
                 Params([c.heads, c.dim, c.rope, c.ratio, c.budget], [c.eps], [])), x.dims.x1) ]
  }

  // ---- the rewritten node list ----

  /** What the first pass resolves: each layer's QKV projection and the first
      unused state number. */
  datatype Plan = Plan(c: Config, t: Numerals, projections: map<nat, nat>, aux: nat)

  ghost predicate Topological(nodes: seq<Node>) {
    forall i {:trigger TopologicalAt(nodes, i)} :: 0 <= i < |nodes| ==> TopologicalAt(nodes, i)
  }

  ghost predicate TopologicalAt(nodes: seq<Node>, i: nat)
    requires i < |nodes|
  {
    nodes[i].id == i && forall k :: 0 <= k < |nodes[i].inputs| ==> nodes[i].inputs[k] < i
  }

  predicate IsAttention(n: Node) {
    n.op == SDPA
  }

  /** Attention nodes among the first `n`. */
  function Attentions(nodes: seq<Node>, n: nat): (r: nat)
    requires n <= |nodes|
    ensures r <= n
  {
    if n == 0 then 0 else Attentions(nodes, n - 1) + if IsAttention(nodes[n - 1]) then 1 else 0
  }

  /** Where node `k` goes. */
  function NewId(nodes: seq<Node>, k: nat): (r: nat)
    requires k < |nodes|
    ensures k <= r <= k + BLOCK * (k + 1)
  {
    k + BLOCK * Attentions(nodes, k + 1)
  }

  lemma {:induction false} NewIdIncreases(nodes: seq<Node>, j: nat, k: nat)
    requires j < k < |nodes|
    ensures NewId(nodes, j) < NewId(nodes, k)
    ensures IsAttention(nodes[k]) ==> NewId(nodes, j) < NewId(nodes, k) - BLOCK
  {
    if j < k - 1 {
      NewIdIncreases(nodes, j, k - 1);
    }
  }

  predicate Within(ids: seq<u32>, n: nat) {
    forall k :: 0 <= k < |ids| ==> ids[k] < n
  }

  function Moved(nodes: seq<Node>, ids: seq<u32>): (r: seq<u32>)
    requires 9 * |nodes| < 0x1_0000_0000 && Within(ids, |nodes|)
    ensures |r| == |ids|
  {
    seq(|ids|, k requires 0 <= k < |ids| => NewId(nodes, ids[k]) as u32)
  }

  /** The attention nodes that can be rewritten: their layer, QKV projection and
      caches are where the rewrite looks for them (145-172). */
  ghost predicate Resolved(g: Graph, p: Plan, k: nat)
    requires k < |g.nodes|
  {
    && |g.nodes[k].inputs| == 6 && LayerOf(g, p, k) in p.projections
    && p.projections[LayerOf(g, p, k)] < |g.nodes|
    && |g.nodes[p.projections[LayerOf(g, p, k)]].inputs| == 2
    && p.projections[LayerOf(g, p, k)] < k
  }

  /** The layer number in the name of an attention node's K cache. */
  function LayerOf(g: Graph, p: Plan, k: nat): nat
    requires k < |g.nodes|
  {
    if |g.nodes[k].inputs| > 4 && g.nodes[k].inputs[4] < |g.nodes| then CacheLayer(p.t, g.nodes[g.nodes[k].inputs[4]]) else 0
  }

  function CacheLayer(t: Numerals, cache: Node): nat {
    if Named(cache, CACHE_K) then
      match t.stoi(cache.params.strs[0][|CACHE_K|..])
      case Some(v) => if v.0 >= 0 then v.0 else 0
      case None => 0
    else 0
  }

  /** The attention nodes among the first `n` can be rewritten. */
  ghost predicate ReadyTo(g: Graph, p: Plan, n: nat)
    requires n <= |g.nodes|
  {
    && Topological(g.nodes) && 9 * |g.nodes| < 0x1_0000_0000 && GeometryOk(p.c) && ReadsBack(p.t)
    && forall k :: 0 <= k < n && IsAttention(g.nodes[k]) ==> Resolved(g, p, k)
  }

  ghost predicate Ready(g: Graph, p: Plan) {
    ReadyTo(g, p, |g.nodes|)
  }

  /** What node `k` becomes. */
  function Carried(g: Graph, k: nat): Node
    requires k < |g.nodes| && 9 * |g.nodes| < 0x1_0000_0000
    requires forall i :: 0 <= i < |g.nodes[k].inputs| ==> g.nodes[k].inputs[i] < |g.nodes|
  {
    var n, id := g.nodes[k], NewId(g.nodes, k);
    var inputs := Moved(g.nodes, n.inputs);
    if IsAttention(n) then n.(id := id, op := QSA_SDPA, inputs := inputs + [id - 1]) else n.(id := id, inputs := inputs)
  }

  /** The block in front of attention node `k`. */
  function BlockOf(g: Graph, p: Plan, k: nat): (r: seq<Node>)
    requires k < |g.nodes| && ReadyTo(g, p, k + 1) && IsAttention(g.nodes[k])
    ensures |r| == BLOCK
  {
    assert TopologicalAt(g.nodes, k);
    var producer := p.projections[LayerOf(g, p, k)];
    assert TopologicalAt(g.nodes, producer);
    var x := g.nodes[producer].inputs[0];
    Block(p.c, p.t, LayerOf(g, p, k), NewId(g.nodes, k) - BLOCK, g.nodes[x], NewId(g.nodes, x),
          p.aux + 2 * Attentions(g.nodes, k), NewId(g.nodes, g.nodes[k].inputs[4]), NewId(g.nodes, g.nodes[k].inputs[3]))
  }

  /** The rewritten nodes for the first `n` originals. */
  function Expanded(g: Graph, p: Plan, n: nat): (r: seq<Node>)
    requires n <= |g.nodes| && ReadyTo(g, p, n)
    ensures |r| == n + BLOCK * Attentions(g.nodes, n)
  {
    if n == 0 then []
    else
      assert TopologicalAt(g.nodes, n - 1);
      Expanded(g, p, n - 1) + (if IsAttention(g.nodes[n - 1]) then BlockOf(g, p, n - 1) else []) + [Carried(g, n - 1)]
  }

  function ExtraInputs(nodes: seq<Node>, n: nat): (r: seq<u32>)
    requires n <= |nodes| && 9 * |nodes| < 0x1_0000_0000
  {
    if n == 0 then []
    else
      var before := ExtraInputs(nodes, n - 1);
      if IsAttention(nodes[n - 1]) then before + [NewId(nodes, n - 1) - 3, NewId(nodes, n - 1) - 2] else before
  }

  // ---- where everything is ----

  lemma {:induction false} ExpandedPrefix(g: Graph, p: Plan, n: nat, m: nat)
    requires n <= m <= |g.nodes| && Ready(g, p)
    ensures Expanded(g, p, n) <= Expanded(g, p, m)
  {
    hide BlockOf, Carried;
    if n < m {
      ExpandedPrefix(g, p, n, m - 1);
    }
  }

  /** The part that node `k` contributes. */
  lemma Contributed(g: Graph, p: Plan, k: nat)
    requires k < |g.nodes| && ReadyTo(g, p, k + 1) && TopologicalAt(g.nodes, k)
    ensures var now, id := Expanded(g, p, k + 1), NewId(g.nodes, k);
      && |now| == id + 1 && now[id] == Carried(g, k)
      && (IsAttention(g.nodes[k]) ==> id >= BLOCK && now[id - BLOCK..id] == BlockOf(g, p, k))
  {
    hide BlockOf, Carried, Resolved, GeometryOk, ReadsBack;
    if IsAttention(g.nodes[k]) {
      var before, block := Expanded(g, p, k), BlockOf(g, p, k);
      assert (before + block + [Carried(g, k)])[|before|..|before| + BLOCK] == block;
    }
  }

  /** Every original node is found at its new id, and every block before its
      attention node. */
  lemma Placed(g: Graph, p: Plan, k: nat)
    requires k < |g.nodes| && Ready(g, p)
    ensures var r := Expanded(g, p, |g.nodes|);
      && NewId(g.nodes, k) < |r| && TopologicalAt(g.nodes, k) && r[NewId(g.nodes, k)] == Carried(g, k)
      && (IsAttention(g.nodes[k]) ==> r[NewId(g.nodes, k) - BLOCK..NewId(g.nodes, k)] == BlockOf(g, p, k))
  {
    hide BlockOf, Carried, Resolved, GeometryOk, ReadsBack, Expanded;
    assert TopologicalAt(g.nodes, k);
    ExpandedPrefix(g, p, k + 1, |g.nodes|);
    Contributed(g, p, k);
    var r, now, id := Expanded(g, p, |g.nodes|), Expanded(g, p, k + 1), NewId(g.nodes, k);
    hide *;
    PrefixHas(now, r, id, id);
    if id >= BLOCK {
      PrefixHas(now, r, id, id - BLOCK);
    }
  }

  lemma PrefixHas<T>(now: seq<T>, r: seq<T>, id: nat, from: nat)
    requires now <= r && from <= id < |now|
    ensures r[id] == now[id] && r[from..id] == now[from..id]
  {
  }

  /** Every rewritten node is a moved original or part of a block. */
  lemma {:induction false} ComesFrom(g: Graph, p: Plan, n: nat, i: nat) returns (k: nat)
    requires n <= |g.nodes| && Ready(g, p) && i < |Expanded(g, p, n)|
    ensures k < n && i <= NewId(g.nodes, k)
    ensures i == NewId(g.nodes, k) || (IsAttention(g.nodes[k]) && NewId(g.nodes, k) - BLOCK <= i)
  {
    if i < |Expanded(g, p, n - 1)| {
      k := ComesFrom(g, p, n - 1, i);
    } else {
      k := n - 1;
    }
  }

  // ---- the rewritten list is topological ----

  lemma MovedBelow(g: Graph, k: nat)
    requires k < |g.nodes| && 9 * |g.nodes| < 0x1_0000_0000 && TopologicalAt(g.nodes, k)
    ensures forall i :: 0 <= i < |g.nodes[k].inputs| ==>
      Moved(g.nodes, g.nodes[k].inputs)[i] < NewId(g.nodes, k) - if IsAttention(g.nodes[k]) then BLOCK else 0
  {
    var ids := g.nodes[k].inputs;
    forall i | 0 <= i < |ids|
      ensures Moved(g.nodes, ids)[i] < NewId(g.nodes, k) - if IsAttention(g.nodes[k]) then BLOCK else 0
    {
      NewIdIncreases(g.nodes, ids[i], k);
    }
  }

  lemma BlockTopological(g: Graph, p: Plan, k: nat, j: nat)
    requires k < |g.nodes| && Ready(g, p) && IsAttention(g.nodes[k]) && j < BLOCK
    ensures var base := NewId(g.nodes, k) - BLOCK;
      var n := BlockOf(g, p, k)[j];
      n.id == base + j && forall i :: 0 <= i < |n.inputs| ==> n.inputs[i] < base + j
  {
    assert TopologicalAt(g.nodes, k);
    var producer := p.projections[LayerOf(g, p, k)];
    assert TopologicalAt(g.nodes, producer);
    NewIdIncreases(g.nodes, g.nodes[producer].inputs[0], k);
    NewIdIncreases(g.nodes, g.nodes[k].inputs[4], k);
    NewIdIncreases(g.nodes, g.nodes[k].inputs[3], k);
  }

  lemma ExpandedTopological(g: Graph, p: Plan)
    requires Ready(g, p)
    ensures Topological(Expanded(g, p, |g.nodes|))
  {
    forall i: nat | i < |Expanded(g, p, |g.nodes|)|
      ensures TopologicalAt(Expanded(g, p, |g.nodes|), i)
    {
      ExpandedTopologicalAt(g, p, i);
    }
  }

  lemma ExpandedTopologicalAt(g: Graph, p: Plan, i: nat)
    requires Ready(g, p) && i < |Expanded(g, p, |g.nodes|)|
    ensures TopologicalAt(Expanded(g, p, |g.nodes|), i)
  {
    hide BlockOf, Resolved, GeometryOk, ReadsBack, Expanded, Topological;
    var r := Expanded(g, p, |g.nodes|);
    var k := ComesFrom(g, p, |g.nodes|, i);
    Placed(g, p, k);
    var id := NewId(g.nodes, k);
    if i == id {
      MovedBelow(g, k);
    } else {
      assert r[i] == r[id - BLOCK..id][i - (id - BLOCK)];
      BlockTopological(g, p, k, i - (id - BLOCK));
    }
  }

  // ---- values ----

  /** What a node computes, apart from where it stands. */
  function Payload(n: Node): Node {
    n.(id := 0, inputs := [])
  }

  /** The value of node `i`: what the caller bound to an input or a constant, and
      what its kernel makes of its inputs' values otherwise. */
  ghost function Meaning<V>(nodes: seq<Node>, bind: nat -> V, kernel: (Node, seq<V>) -> V, i: nat): V
    requires Topological(nodes) && i < |nodes|
    decreases i, 1, 0
  {
    assert TopologicalAt(nodes, i);
    if IsSource(nodes[i]) then bind(i) else kernel(Payload(nodes[i]), Meanings(nodes, bind, kernel, nodes[i].inputs, i))
  }

  /** The original inputs and constants are bound as before, where they now stand;
      the added ones to anything. */
  ghost predicate SameBindings<V(!new)>(nodes: seq<Node>, bind: nat -> V, bound: nat -> V) {
    forall k: nat :: k < |nodes| && IsSource(nodes[k]) ==> bound(NewId(nodes, k)) == bind(k)
  }

  ghost function Meanings<V>(nodes: seq<Node>, bind: nat -> V, kernel: (Node, seq<V>) -> V, ids: seq<u32>, i: nat): (r: seq<V>)
    requires Topological(nodes) && i < |nodes| && forall k :: 0 <= k < |ids| ==> ids[k] < i
    ensures |r| == |ids| && forall k :: 0 <= k < |ids| ==> r[k] == Meaning(nodes, bind, kernel, ids[k])
    decreases i, 0, |ids|
  {
    if ids == [] then [] else [Meaning(nodes, bind, kernel, ids[0])] + Meanings(nodes, bind, kernel, ids[1..], i)
  }

  /** Selection only chooses which keys are visited: read as plain attention. */
  ghost predicate SelectsOnly<V(!new)>(kernel: (Node, seq<V>) -> V) {
    forall n: Node, vs: seq<V>, x: V :: n.op == QSA_SDPA ==> kernel(n, vs + [x]) == kernel(n.(op := SDPA), vs)
  }

  /** Every original node keeps its value at its new id. */
  lemma {:induction false} ValuesKept<V(!new)>(g: Graph, p: Plan, bind: nat -> V, bound: nat -> V, kernel: (Node, seq<V>) -> V, k: nat)
    requires Ready(g, p) && SelectsOnly(kernel) && k < |g.nodes| && Topological(Expanded(g, p, |g.nodes|))
    requires SameBindings(g.nodes, bind, bound)
    ensures NewId(g.nodes, k) < |Expanded(g, p, |g.nodes|)|
    ensures Meaning(Expanded(g, p, |g.nodes|), bound, kernel, NewId(g.nodes, k)) == Meaning(g.nodes, bind, kernel, k)
    decreases k
  {
    var r, id := Expanded(g, p, |g.nodes|), NewId(g.nodes, k);
    Placed(g, p, k);
    MovedBelow(g, k);
    var n := g.nodes[k];
    if IsSource(n) {
      return;
    }
    var moved := Moved(g.nodes, n.inputs);
    var was := Meanings(g.nodes, bind, kernel, n.inputs, k);
    var now := Meanings(r, bound, kernel, moved, id);
    forall i | 0 <= i < |n.inputs|
      ensures now[i] == was[i]
    {
      ValuesKept(g, p, bind, bound, kernel, n.inputs[i]);
    }
    assert now == was;
    CarriedValue(g, p, bound, kernel, k, was);
  }

  lemma CarriedValue<V(!new)>(g: Graph, p: Plan, bound: nat -> V, kernel: (Node, seq<V>) -> V, k: nat, vs: seq<V>)
    requires Ready(g, p) && SelectsOnly(kernel) && k < |g.nodes| && Topological(Expanded(g, p, |g.nodes|))
    requires TopologicalAt(g.nodes, k) && !IsSource(g.nodes[k])
    requires NewId(g.nodes, k) < |Expanded(g, p, |g.nodes|)| && Expanded(g, p, |g.nodes|)[NewId(g.nodes, k)] == Carried(g, k)
    requires forall i :: 0 <= i < |g.nodes[k].inputs| ==> Moved(g.nodes, g.nodes[k].inputs)[i] < NewId(g.nodes, k)
    requires vs == Meanings(Expanded(g, p, |g.nodes|), bound, kernel, Moved(g.nodes, g.nodes[k].inputs), NewId(g.nodes, k))
    ensures Meaning(Expanded(g, p, |g.nodes|), bound, kernel, NewId(g.nodes, k)) == kernel(Payload(g.nodes[k]), vs)
  {
    var r, id, n := Expanded(g, p, |g.nodes|), NewId(g.nodes, k), g.nodes[k];
    assert TopologicalAt(r, id);
    hide Expanded, BlockOf, Ready, NewId, Moved;
    if IsAttention(n) {
      var all := Meanings(r, bound, kernel, r[id].inputs, id);
      assert all == vs + [all[|vs|]];
      assert Payload(r[id]) == Payload(n).(op := QSA_SDPA);
      assert Payload(r[id]).(op := SDPA) == Payload(n);
    } else {
      assert Payload(r[id]) == Payload(n);
    }
  }

  // ---- state names ----

  predicate IsState(n: Node) {
    n.op == INPUT && Named(n, AUX)
  }

  /** Every state of the graph has a number below `aux` (110-116). */
  ghost predicate StatesBelow(nodes: seq<Node>, t: Numerals, aux: nat) {
    forall i :: 0 <= i < |nodes| && IsState(nodes[i]) ==>
      var digits := nodes[i].params.strs[0][|AUX|..];
      t.stoi(digits).Some? && 0 <= t.stoi(digits).value.0 < aux && t.stoi(digits).value.1 == |digits|
  }

  /** New state names differ from the graph's and from each other. */
  lemma StateNamesAreFresh(g: Graph, p: Plan, m: nat, k: nat)
    requires ReadsBack(p.t) && StatesBelow(g.nodes, p.t, p.aux)
    ensures forall i :: 0 <= i < |g.nodes| && g.nodes[i].op == INPUT && g.nodes[i].params.strs != [] ==>
      g.nodes[i].params.strs[0] != AUX + p.t.decimal(p.aux + m)
    ensures m != k ==> AUX + p.t.decimal(p.aux + m) != AUX + p.t.decimal(p.aux + k)
  {
    var name := AUX + p.t.decimal(p.aux + m);
    assert name[|AUX|..] == p.t.decimal(p.aux + m);
    assert (AUX + p.t.decimal(p.aux + k))[|AUX|..] == p.t.decimal(p.aux + k);
    assert p.t.stoi(p.t.decimal(p.aux + m)).value.0 == p.aux + m;
    assert p.t.stoi(p.t.decimal(p.aux + k)).value.0 == p.aux + k;
  }

  /** In a block only nodes 5 and 6 are inputs: the two new states. */
  lemma BlockStates(c: Config, t: Numerals, layer: nat, base: nat, x: Node, xin: u32, aux: nat, mask: u32, positions: u32)
    requires GeometryOk(c) && base + BLOCK < 0x1_0000_0000
    ensures var b := Block(c, t, layer, base, x, xin, aux, mask, positions);
      && (forall j :: 0 <= j < BLOCK ==> (b[j].op == INPUT <==> j == 5 || j == 6))
      && b[5].params.strs == [AUX + t.decimal(aux)] && b[6].params.strs == [AUX + t.decimal(aux + 1)]
  {
  }

  lemma NewInputs(g: Graph, p: Plan, k: nat, j: nat)
    requires Ready(g, p) && k < |g.nodes| && IsAttention(g.nodes[k]) && j < 2
    ensures BlockOf(g, p, k)[5 + j].op == INPUT
    ensures BlockOf(g, p, k)[5 + j].params.strs == [AUX + p.t.decimal(p.aux + (2 * Attentions(g.nodes, k) + j))]
  {
    hide BlockOf, Block, LayerOf, NewId, Topological, TopologicalAt, Attentions, GeometryOk, ReadsBack, Resolved;
    var layer, base, x, xin, mask, positions := BlockIs(g, p, k);
    var aux := p.aux + 2 * Attentions(g.nodes, k);
    hide *;
    BlockStates(p.c, p.t, layer, base, x, xin, aux, mask, positions);
    assert aux + 1 == p.aux + (2 * Attentions(g.nodes, k) + 1) && aux == p.aux + (2 * Attentions(g.nodes, k) + 0);
  }

  lemma BlockIs(g: Graph, p: Plan, k: nat) returns (layer: nat, base: nat, x: Node, xin: u32, mask: u32, positions: u32)
    requires Ready(g, p) && k < |g.nodes| && IsAttention(g.nodes[k])
    ensures GeometryOk(p.c) && base + BLOCK < 0x1_0000_0000
    ensures BlockOf(g, p, k) == Block(p.c, p.t, layer, base, x, xin, p.aux + 2 * Attentions(g.nodes, k), mask, positions)
  {
    hide Block;
    assert TopologicalAt(g.nodes, k);
    layer := LayerOf(g, p, k);
    var producer := p.projections[layer];
    assert TopologicalAt(g.nodes, producer);
    var source := g.nodes[producer].inputs[0];
    base, x, xin := NewId(g.nodes, k) - BLOCK, g.nodes[source], NewId(g.nodes, source);
    mask, positions := NewId(g.nodes, g.nodes[k].inputs[4]), NewId(g.nodes, g.nodes[k].inputs[3]);
  }

  /** The name of a new state is no other input's. */
  lemma NewInputsAreFresh(g: Graph, p: Plan, k: nat, j: nat)
    requires Ready(g, p) && StatesBelow(g.nodes, p.t, p.aux) && k < |g.nodes| && IsAttention(g.nodes[k]) && j < 2
    ensures |BlockOf(g, p, k)[5 + j].params.strs| == 1
    ensures forall i :: 0 <= i < |g.nodes| && g.nodes[i].op == INPUT && g.nodes[i].params.strs != [] ==>
      g.nodes[i].params.strs[0] != BlockOf(g, p, k)[5 + j].params.strs[0]
  {
    hide BlockOf, LayerOf, NewId, Topological, TopologicalAt, Attentions, StatesBelow;
    NewInputs(g, p, k, j);
    StateNamesAreFresh(g, p, 2 * Attentions(g.nodes, k) + j, 0);
  }

  /** Different attention nodes have different states. */
  lemma StatesAreDistinct(g: Graph, p: Plan, k: nat, j: nat, l: nat, m: nat)
    requires Ready(g, p) && StatesBelow(g.nodes, p.t, p.aux) && k < |g.nodes| && l < |g.nodes| && j < 2 && m < 2
    requires IsAttention(g.nodes[k]) && IsAttention(g.nodes[l]) && (k != l || j != m)
    ensures BlockOf(g, p, k)[5 + j].params.strs != BlockOf(g, p, l)[5 + m].params.strs
  {
    hide BlockOf, LayerOf, NewId, Topological, TopologicalAt, Attentions, StatesBelow;
    NewInputs(g, p, k, j);
    NewInputs(g, p, l, m);
    AttentionsIncrease(g.nodes, if k < l then k else l, if k < l then l else k);
    StateNamesAreFresh(g, p, 2 * Attentions(g.nodes, k) + j, 2 * Attentions(g.nodes, l) + m);
  }

  lemma {:induction false} AttentionsIncrease(nodes: seq<Node>, k: nat, l: nat)
    requires k <= l < |nodes| && IsAttention(nodes[k])
    ensures k < l ==> Attentions(nodes, k) < Attentions(nodes, l)
  {
    if k + 1 < l {
      AttentionsIncrease(nodes, k, l - 1);
    }
  }

  /** The added inputs are exactly the new state nodes. */
  lemma {:induction false} ExtraInputsAre(g: Graph, n: nat, id: u32)
    requires n <= |g.nodes| && 9 * |g.nodes| < 0x1_0000_0000
    ensures id in ExtraInputs(g.nodes, n) <==>
      exists k :: 0 <= k < n && IsAttention(g.nodes[k]) && (id == NewId(g.nodes, k) - 3 || id == NewId(g.nodes, k) - 2)
  {
    if n > 0 {
      ExtraInputsAre(g, n - 1, id);
    }
  }

  // ---- the committed graph ----

  const TAP: Bytes := "mtp_state_output_node"
  const MARK: Bytes := "qsa"

  /** The graph after the rewrite: ids remapped throughout, the new states added
      to the inputs, the MTP tap following its node. */
  function Rewritten(g: Graph, p: Plan, tap: nat): Graph
    requires Ready(g, p) && tap < |g.nodes|
    requires Within(g.outputs, |g.nodes|) && Within(g.inputs, |g.nodes|)
  {
    var metadata := if TAP in g.metadata then g.metadata[TAP := p.t.decimal(NewId(g.nodes, tap))] else g.metadata;
    var version: Bytes := "contiguous-causal-fp32-v1";
    Graph(Expanded(g, p, |g.nodes|), Moved(g.nodes, g.inputs) + ExtraInputs(g.nodes, |g.nodes|), Moved(g.nodes, g.outputs),
          metadata[MARK := version])
  }

  /** Every output of the rewritten graph has the value of the original output. */
  lemma OutputsKept<V(!new)>(g: Graph, p: Plan, tap: nat, bind: nat -> V, bound: nat -> V, kernel: (Node, seq<V>) -> V)
    requires Ready(g, p) && SelectsOnly(kernel) && tap < |g.nodes| && SameBindings(g.nodes, bind, bound)
    requires Within(g.outputs, |g.nodes|) && Within(g.inputs, |g.nodes|)
    ensures var h := Rewritten(g, p, tap);
      && Topological(h.nodes) && |h.outputs| == |g.outputs|
      && (forall i :: 0 <= i < |g.outputs| ==>
            h.outputs[i] < |h.nodes| && Meaning(h.nodes, bound, kernel, h.outputs[i]) == Meaning(g.nodes, bind, kernel, g.outputs[i]))
      && NewId(g.nodes, tap) < |h.nodes| && Meaning(h.nodes, bound, kernel, NewId(g.nodes, tap)) == Meaning(g.nodes, bind, kernel, tap)
  {
    ExpandedTopological(g, p);
    hide Expanded, Meaning, Ready, SelectsOnly, SameBindings;
    forall i | 0 <= i < |g.outputs|
      ensures Moved(g.nodes, g.outputs)[i] < |Expanded(g, p, |g.nodes|)|
      ensures Meaning(Expanded(g, p, |g.nodes|), bound, kernel, Moved(g.nodes, g.outputs)[i]) == Meaning(g.nodes, bind, kernel, g.outputs[i])
    {
      ValuesKept(g, p, bind, bound, kernel, g.outputs[i]);
    }
    ValuesKept(g, p, bind, bound, kernel, tap);
  }
}
