/** The rewriting procedure of engine/qsa_companion.cpp:104-218, which either
    builds the whole new graph or leaves the old one alone. */
module QsaAttach {
  import opened Wrappers
  import opened Graph
  import opened Qsa

  // ---- the ancestor search (164-172) ----

  /** `b` is `a` or feeds it through any chain of inputs. */
  ghost predicate Reaches(nodes: seq<Node>, a: nat, b: nat)
    requires Topological(nodes) && a < |nodes|
    decreases a
  {
    assert TopologicalAt(nodes, a);
    a == b || exists k :: 0 <= k < |nodes[a].inputs| && Reaches(nodes, nodes[a].inputs[k], b)
  }

  lemma {:induction false} ReachesDown(nodes: seq<Node>, a: nat, b: nat)
    requires Topological(nodes) && a < |nodes| && Reaches(nodes, a, b)
    ensures b <= a
    decreases a
  {
    assert TopologicalAt(nodes, a);
    if a != b {
      var k :| 0 <= k < |nodes[a].inputs| && Reaches(nodes, nodes[a].inputs[k], b);
      ReachesDown(nodes, nodes[a].inputs[k], b);
    }
  }

  lemma {:induction false} ReachesFurther(nodes: seq<Node>, a: nat, b: nat, k: nat)
    requires Topological(nodes) && a < |nodes| && Reaches(nodes, a, b) && b < |nodes| && k < |nodes[b].inputs|
    ensures Reaches(nodes, a, nodes[b].inputs[k])
    decreases a
  {
    assert TopologicalAt(nodes, a);
    if a == b {
      assert Reaches(nodes, nodes[b].inputs[k], nodes[b].inputs[k]);
    } else {
      var j :| 0 <= j < |nodes[a].inputs| && Reaches(nodes, nodes[a].inputs[j], b);
      ReachesFurther(nodes, nodes[a].inputs[j], b, k);
    }
  }

  /** A set closed under inputs holds whatever its members reach. */
  lemma {:induction false} ClosedHolds(nodes: seq<Node>, closed: set<nat>, a: nat, b: nat)
    requires Topological(nodes) && a < |nodes| && a in closed && Reaches(nodes, a, b)
    requires forall v <- closed :: v < |nodes| && forall k :: 0 <= k < |nodes[v].inputs| ==> nodes[v].inputs[k] in closed
    ensures b in closed
    decreases a
  {
    assert TopologicalAt(nodes, a);
    if a != b {
      var k :| 0 <= k < |nodes[a].inputs| && Reaches(nodes, nodes[a].inputs[k], b);
      ClosedHolds(nodes, closed, nodes[a].inputs[k], b);
    }
  }

  ghost predicate Covered(nodes: seq<Node>, visited: set<nat>, pending: seq<nat>) {
    forall v <- visited :: v < |nodes| && forall k :: 0 <= k < |nodes[v].inputs| ==>
      nodes[v].inputs[k] in visited || nodes[v].inputs[k] in pending
  }

  lemma BoundedSet(s: set<nat>, n: nat)
    requires forall v <- s :: v < n
    ensures |s| <= n
    decreases n
  {
    if n == 0 {
      assert s == {};
    } else {
      BoundedSet(s - {n - 1}, n - 1);
      assert s <= (s - {n - 1}) + {n - 1};
      assert |s| <= |s - {n - 1}| + 1;
    }
  }

  method PushInputs(nodes: seq<Node>, ghost from: nat, id: nat, pending0: seq<nat>) returns (pending: seq<nat>)
    requires Topological(nodes) && from < |nodes| && id < |nodes| && Reaches(nodes, from, id)
    requires forall v: nat {:trigger v in pending0} :: v in pending0 ==> v < |nodes| && Reaches(nodes, from, v)
    ensures forall v: nat {:trigger v in pending} :: v in pending ==> v < |nodes| && Reaches(nodes, from, v)
    ensures forall v: nat {:trigger v in pending0} :: v in pending0 ==> v in pending
    ensures forall k :: 0 <= k < |nodes[id].inputs| ==> nodes[id].inputs[k] in pending
  {
    assert TopologicalAt(nodes, id);
    pending := pending0;
    for k := 0 to |nodes[id].inputs|
      invariant forall v: nat {:trigger v in pending} :: v in pending ==> v < |nodes| && Reaches(nodes, from, v)
      invariant forall v: nat {:trigger v in pending0} :: v in pending0 ==> v in pending
      invariant forall j :: 0 <= j < k ==> nodes[id].inputs[j] in pending
    {
      ReachesFurther(nodes, from, id, k);
      ghost var before := pending;
      pending := pending + [nodes[id].inputs[k]];
      assert forall v: nat {:trigger v in pending} {:trigger v in before} :: v in pending <==> v in before || v == nodes[id].inputs[k];
    }
  }

  method IsAncestor(nodes: seq<Node>, from: nat, producer: nat) returns (ancestor: bool)
    requires Topological(nodes) && from < |nodes|
    ensures ancestor <==> Reaches(nodes, from, producer)
  {
    var pending: seq<nat>, visited: set<nat> := [from], {};
    ancestor := false;
    ghost var room := |nodes|;
    while pending != []
      invariant Covered(nodes, visited, pending) && producer !in visited && (from in visited || from in pending)
      invariant forall v: nat {:trigger v in pending} :: v in pending ==> v < |nodes| && Reaches(nodes, from, v)
      invariant room + |visited| == |nodes|
      decreases room, |pending|
    {
      var id := pending[|pending| - 1];
      ghost var before := pending;
      pending := pending[..|pending| - 1];
      assert before == pending + [id] && id in before;
      assert forall v: nat {:trigger v in pending} :: v in pending ==> v in before;
      if id in visited {
        continue;
      }
      BoundedSet(visited + {id}, |nodes|);
      visited, room := visited + {id}, room - 1;
      if id == producer {
        return true;
      }
      pending := PushInputs(nodes, from, id, pending);
    }
    if Reaches(nodes, from, producer) {
      ClosedHolds(nodes, visited, from, producer);
    }
  }

  // ---- the first pass (104-133) ----

  /** Node `i` multiplies by the layer's QKV projection weight. */
  predicate Projects(g: Graph, t: Numerals, layer: nat, i: nat) {
    && i < |g.nodes| && g.nodes[i].op == MATMUL && |g.nodes[i].inputs| == 2 && g.nodes[i].inputs[1] < |g.nodes|
    && var w := g.nodes[g.nodes[i].inputs[1]];
    w.op == CONSTANT && w.params.strs != [] && w.params.strs[0] == ProjectionName(t, layer)
  }

  predicate ProjectionFits(g: Graph, c: Config, i: nat)
    requires i < |g.nodes| && |g.nodes[i].inputs| == 2 && Within(g.nodes[i].inputs, |g.nodes|)
  {
    var w, x := g.nodes[g.nodes[i].inputs[1]], g.nodes[g.nodes[i].inputs[0]];
    && w.shape.x0 == (2 * c.mainHeads + 2 * c.kvHeads) * c.mainDim && w.shape.x1 == c.hidden
    && x.prec == FP32 && x.shape.x0 == c.hidden && x.shape.x2 == 1 && x.shape.x3 == 1
  }

  predicate Claims(g: Graph, c: Config, t: Numerals, layer: nat, i: nat) {
    Projects(g, t, layer, i) && Within(g.nodes[i].inputs, |g.nodes|) && ProjectionFits(g, c, i)
  }

  /** What the first pass takes for a layer's projection. */
  lemma ClaimsExactly(g: Graph, c: Config, t: Numerals, layer: nat, i: nat)
    requires i < |g.nodes| && Within(g.nodes[i].inputs, |g.nodes|)
    ensures Projects(g, t, layer, i) <==>
      g.nodes[i].op == MATMUL && |g.nodes[i].inputs| == 2
      && var w := g.nodes[g.nodes[i].inputs[1]];
      w.op == CONSTANT && w.params.strs != []
      && w.params.strs[0] == "./model_language_model_layers_" + t.decimal(layer) + "_self_attn_qkv_proj_weight.weights"
    ensures Claims(g, c, t, layer, i) <==>
      Projects(g, t, layer, i)
      && var x, w := g.nodes[g.nodes[i].inputs[0]], g.nodes[g.nodes[i].inputs[1]];
      && w.shape.x0 == 2 * c.mainHeads * c.mainDim + 2 * c.kvHeads * c.mainDim && w.shape.x1 == c.hidden
      && x.prec == FP32 && x.shape.x0 == c.hidden && x.shape.x2 == x.shape.x3 == 1
  {
    assert (2 * c.mainHeads + 2 * c.kvHeads) * c.mainDim == 2 * c.mainHeads * c.mainDim + 2 * c.kvHeads * c.mainDim;
  }

  /** The projections found are those of the first `n` nodes, one a layer. */
  ghost predicate Claimed(g: Graph, c: Config, t: Numerals, n: nat, projections: map<nat, nat>) {
    && (forall l <- projections :: l in c.layers && projections[l] < n && Claims(g, c, t, l, projections[l]))
    && (forall l: nat, i: nat :: l in c.layers && i < n && Projects(g, t, l, i) ==> l in projections && projections[l] == i)
  }

  /** What is known of the first `n` nodes. */
  ghost predicate Scanned(g: Graph, c: Config, t: Numerals, n: nat, projections: map<nat, nat>, aux: nat)
    requires n <= |g.nodes|
  {
    && (forall i {:trigger TopologicalAt(g.nodes, i)} :: 0 <= i < n ==> TopologicalAt(g.nodes, i))
    && (forall i :: 0 <= i < n ==> g.nodes[i].op != QSA_INDEXER && g.nodes[i].op != QSA_SDPA)
    && StatesBelow(g.nodes[..n], t, aux)
    && Claimed(g, c, t, n, projections)
  }

  /** A node that the first pass accepts: in order, no QSA node, a readable state
      number if it is a state, and no layer's projection but its first. */
  ghost predicate Acceptable(g: Graph, c: Config, t: Numerals, i: nat)
    requires i < |g.nodes|
  {
    TopologicalAt(g.nodes, i) && g.nodes[i].op != QSA_INDEXER && g.nodes[i].op != QSA_SDPA && NumberedState(g.nodes[i], t)
    && forall l: nat :: l in c.layers && Projects(g, t, l, i) ==> FirstFit(g, c, t, l, i)
  }

  predicate NumberedState(n: Node, t: Numerals) {
    IsState(n) ==>
      var digits := n.params.strs[0][|AUX|..];
      t.stoi(digits).Some? && t.stoi(digits).value.1 == |digits| && 0 <= t.stoi(digits).value.0 < 100000
  }

  /** The projection `i` has the layer's geometry, and none before it is of that layer. */
  ghost predicate FirstFit(g: Graph, c: Config, t: Numerals, l: nat, i: nat) {
    Claims(g, c, t, l, i) && forall j: nat :: j < i ==> !Projects(g, t, l, j)
  }

  ghost predicate Resolvable(g: Graph, c: Config, t: Numerals) {
    forall i: nat :: i < |g.nodes| ==> Acceptable(g, c, t, i)
  }

  method Resolve(g: Graph, c: Config, t: Numerals) returns (plan: Option<Plan>)
    requires ReadsBack(t)
    ensures plan.Some? <==> Resolvable(g, c, t)
    ensures plan.Some? ==> plan.value.c == c && plan.value.t == t
    ensures plan.Some? ==> Scanned(g, c, t, |g.nodes|, plan.value.projections, plan.value.aux)
  {
    hide Projects, ProjectionFits, ReadsBack, Claims, Acceptable, Scanned;
    var projections: map<nat, nat>, aux: nat := map[], 0;
    NothingScanned(g, c, t);
    for i := 0 to |g.nodes|
      invariant Scanned(g, c, t, i, projections, aux) && forall j: nat :: j < i ==> Acceptable(g, c, t, j)
    {
      var ok;
      ok, projections, aux := ResolveNode(g, c, t, i, projections, aux);
      if !ok {
        return None;
      }
    }
    plan := Some(Plan(c, t, projections, aux));
  }

  lemma NothingScanned(g: Graph, c: Config, t: Numerals)
    ensures Scanned(g, c, t, 0, map[], 0)
  {
  }

  method ResolveNode(g: Graph, c: Config, t: Numerals, i: nat, projections0: map<nat, nat>, aux0: nat)
      returns (ok: bool, projections: map<nat, nat>, aux: nat)
    requires i < |g.nodes| && ReadsBack(t) && Scanned(g, c, t, i, projections0, aux0)
    ensures ok <==> Acceptable(g, c, t, i)
    ensures ok ==> Scanned(g, c, t, i + 1, projections, aux)
  {
    hide Projects, ProjectionFits, ReadsBack, Claims, Claimed, FirstFit, NumberedState, StatesBelow;
    var n := g.nodes[i];
    projections, aux := projections0, aux0;
    if n.id != i {
      return false, projections, aux;
    }
    for k := 0 to |n.inputs|
      invariant forall j :: 0 <= j < k ==> n.inputs[j] < i
    {
      if n.inputs[k] >= i {
        return false, projections, aux;
      }
    }
    assert TopologicalAt(g.nodes, i);
    ok, aux := NextState(g, t, i, aux);
    if !ok || n.op == QSA_INDEXER || n.op == QSA_SDPA {
      return false, projections, aux;
    }
    ok, projections := Claim(g, c, t, i, projections);
  }

  /** Auxiliary state numbers seen so far (110-116). */
  method NextState(g: Graph, t: Numerals, i: nat, aux0: nat) returns (ok: bool, aux: nat)
    requires i < |g.nodes| && StatesBelow(g.nodes[..i], t, aux0)
    ensures ok <==> NumberedState(g.nodes[i], t)
    ensures ok ==> StatesBelow(g.nodes[..i + 1], t, aux) && aux >= aux0
  {
    aux := aux0;
    assert g.nodes[..i + 1] == g.nodes[..i] + [g.nodes[i]];
    if !IsState(g.nodes[i]) {
      return true, aux;
    }
    var digits := g.nodes[i].params.strs[0][|AUX|..];
    var value := t.stoi(digits);
    if value.None? || value.value.1 != |digits| || value.value.0 < 0 || value.value.0 >= 100000 {
      return false, aux;
    }
    ok, aux := true, if value.value.0 + 1 > aux then value.value.0 + 1 else aux;
  }

  /** The layers whose projection node `i` is (119-133): none may have one already. */
  method Claim(g: Graph, c: Config, t: Numerals, i: nat, projections0: map<nat, nat>) returns (ok: bool, projections: map<nat, nat>)
    requires i < |g.nodes| && TopologicalAt(g.nodes, i)
    requires Claimed(g, c, t, i, projections0)
    ensures ok <==> forall l: nat :: l in c.layers && Projects(g, t, l, i) ==> FirstFit(g, c, t, l, i)
    ensures ok ==> Claimed(g, c, t, i + 1, projections)
  {
    hide Projects, ProjectionFits, FirstFit;
    projections := projections0;
    var rest := c.layers;
    while rest != {}
      invariant rest <= c.layers
      invariant forall l <- projections :: l in c.layers && projections[l] < i + 1 && Claims(g, c, t, l, projections[l])
      invariant forall l <- projections0 :: l in projections && projections[l] == projections0[l]
      invariant forall l <- projections :: l in projections0 || l !in rest
      invariant forall l: nat :: l in c.layers && l !in rest && Projects(g, t, l, i) ==>
        FirstFit(g, c, t, l, i) && l in projections && projections[l] == i
    {
      assert (forall l: nat :: l !in rest) ==> rest == {};
      var l :| l in rest;
      rest := rest - {l};
      if Projects(g, t, l, i) {
        ProjectsInRange(g, t, l, i);
        FitsFirst(g, c, t, l, i, projections0);
        if l in projections || !ProjectionFits(g, c, i) {
          return false, projections;
        }
        projections := projections[l := i];
      }
    }
    ok := true;
  }

  lemma FitsFirst(g: Graph, c: Config, t: Numerals, l: nat, i: nat, projections: map<nat, nat>)
    requires i < |g.nodes| && l in c.layers && Projects(g, t, l, i) && Claimed(g, c, t, i, projections)
    requires |g.nodes[i].inputs| == 2 && Within(g.nodes[i].inputs, |g.nodes|)
    ensures FirstFit(g, c, t, l, i) <==> l !in projections && ProjectionFits(g, c, i)
  {
    hide Projects, ProjectionFits;
    if l in projections {
      assert Claims(g, c, t, l, projections[l]);
    }
  }

  lemma ProjectsInRange(g: Graph, t: Numerals, l: nat, i: nat)
    requires i < |g.nodes| && TopologicalAt(g.nodes, i) && Projects(g, t, l, i)
    ensures |g.nodes[i].inputs| == 2 && Within(g.nodes[i].inputs, |g.nodes|)
  {
  }

  // ---- the attention nodes (145-172) ----

  /** The signature, caches and geometry of an attention node that can be
      rewritten, and its query depending on its layer's projection. */
  ghost predicate Supported(g: Graph, p: Plan, k: nat)
    requires Topological(g.nodes) && k < |g.nodes|
  {
    TopologicalAt(g.nodes, k) && Signature(g, p, k)
    && Reaches(g.nodes, g.nodes[k].inputs[0], p.projections[LayerOf(g, p, k)])
  }

  predicate Signature(g: Graph, p: Plan, k: nat)
    requires k < |g.nodes| && Within(g.nodes[k].inputs, |g.nodes|)
  {
    var o, layer := g.nodes[k], LayerOf(g, p, k);
    && |o.inputs| == 6 && |o.params.i32s| >= 6
    && var cache, values := g.nodes[o.inputs[4]], g.nodes[o.inputs[5]];
    && cache.op == INPUT && Named(cache, CACHE_K)
    && var digits := cache.params.strs[0][|CACHE_K|..];
    && p.t.stoi(digits).Some? && p.t.stoi(digits).value.1 == |digits| && p.t.stoi(digits).value.0 >= 0
    && layer in p.c.layers && layer in p.projections
    && o.params.i32s[..6] == [2, 1, p.c.mainHeads, p.c.kvHeads, p.c.mainDim, p.c.mainDim]
    && values.op == INPUT && values.params.strs != [] && values.params.strs[0] == CACHE_V + p.t.decimal(layer)
    && cache.shape.x0 == p.c.mainDim && cache.shape.x2 == p.c.kvHeads
    && values.shape.x0 == p.c.mainDim && values.shape.x2 == p.c.kvHeads
  }

  /** What an attention node of layer `l` must look like, its caches named as the
      converter names them. */
  predicate Canonical(g: Graph, p: Plan, k: nat, l: nat)
    requires k < |g.nodes| && Within(g.nodes[k].inputs, |g.nodes|)
  {
    var o, c := g.nodes[k], p.c;
    && |o.inputs| == 6 && |o.params.i32s| >= 6
    && o.params.i32s[..6] == [2, 1, c.mainHeads, c.kvHeads, c.mainDim, c.mainDim]
    && var keys, values := g.nodes[o.inputs[4]], g.nodes[o.inputs[5]];
    && keys.op == INPUT && keys.params.strs != [] && keys.params.strs[0] == "cache_k" + p.t.decimal(l)
    && values.op == INPUT && values.params.strs != [] && values.params.strs[0] == "cache_v" + p.t.decimal(l)
    && keys.shape.x0 == values.shape.x0 == c.mainDim && keys.shape.x2 == values.shape.x2 == c.kvHeads
    && l in c.layers && l in p.projections
  }

  /** The signature test accepts it for that layer; and whatever it accepts looks so,
      but that the layer number may be written in any way that reads back. */
  lemma SignatureAccepts(g: Graph, p: Plan, k: nat, l: nat)
    requires ReadsBack(p.t) && k < |g.nodes| && Within(g.nodes[k].inputs, |g.nodes|)
    ensures Canonical(g, p, k, l) ==> Signature(g, p, k) && LayerOf(g, p, k) == l
    ensures Signature(g, p, k) ==>
      var o := g.nodes[k];
      && |o.inputs| == 6 && "cache_k" <= g.nodes[o.inputs[4]].params.strs[0]
      && (g.nodes[o.inputs[4]].params.strs[0] == "cache_k" + p.t.decimal(LayerOf(g, p, k)) ==> Canonical(g, p, k, LayerOf(g, p, k)))
  {
    var o := g.nodes[k];
    if |o.inputs| == 6 {
      var keys := g.nodes[o.inputs[4]];
      if keys.params.strs != [] && keys.params.strs[0] == "cache_k" + p.t.decimal(l) {
        assert keys.params.strs[0][7..] == p.t.decimal(l);
      }
    }
  }

  /** The layers of the attention nodes among the first `n`. */
  ghost function LayersTo(g: Graph, p: Plan, n: nat): set<nat>
    requires n <= |g.nodes|
  {
    set k: nat | k < n && IsAttention(g.nodes[k]) :: LayerOf(g, p, k)
  }

  /** No layer has two attention nodes. */
  ghost predicate OneEach(g: Graph, p: Plan, n: nat)
    requires n <= |g.nodes|
  {
    forall j: nat, k: nat :: j < k < n && IsAttention(g.nodes[j]) && IsAttention(g.nodes[k]) ==> LayerOf(g, p, j) != LayerOf(g, p, k)
  }

  method CheckAttention(g: Graph, p: Plan, k: nat) returns (ok: bool)
    requires Topological(g.nodes) && k < |g.nodes| && Scanned(g, p.c, p.t, |g.nodes|, p.projections, p.aux)
    ensures ok <==> Supported(g, p, k)
    ensures ok ==> Resolved(g, p, k)
  {
    assert TopologicalAt(g.nodes, k);
    if !Signature(g, p, k) {
      return false;
    }
    var layer := LayerOf(g, p, k);
    assert Projects(g, p.t, layer, p.projections[layer]);
    ok := IsAncestor(g.nodes, g.nodes[k].inputs[0], p.projections[layer]);
    if ok {
      ReachesDown(g.nodes, g.nodes[k].inputs[0], p.projections[layer]);
    }
  }

  // ---- building and committing (135-218) ----

  /** The first `n` nodes rewritten. */
  ghost predicate Built(g: Graph, p: Plan, n: nat, nodes: seq<Node>, remap: seq<u32>, extra: seq<u32>, attached: set<nat>)
    requires n <= |g.nodes|
  {
    && ReadyTo(g, p, n) && nodes == Expanded(g, p, n) && extra == ExtraInputs(g.nodes, n)
    && |remap| == n && (forall k :: 0 <= k < n ==> remap[k] == NewId(g.nodes, k))
    && attached == LayersTo(g, p, n) && OneEach(g, p, n)
    && forall k :: 0 <= k < n && IsAttention(g.nodes[k]) ==> Supported(g, p, k)
  }

  method RemapInputs(g: Graph, remap: seq<u32>, ids: seq<u32>) returns (moved: seq<u32>)
    requires 9 * |g.nodes| < 0x1_0000_0000 && Within(ids, |g.nodes|) && Within(ids, |remap|)
    requires |remap| <= |g.nodes| && forall k :: 0 <= k < |remap| ==> remap[k] == NewId(g.nodes, k)
    ensures moved == Moved(g.nodes, ids)
  {
    moved := ids;
    for k := 0 to |ids|
      invariant |moved| == |ids| && forall j :: 0 <= j < k ==> moved[j] == NewId(g.nodes, ids[j])
      invariant forall j :: k <= j < |ids| ==> moved[j] == ids[j]
    {
      moved := moved[k := remap[moved[k]]];
    }
  }

  /** Every attention node can be rewritten, and each layer has exactly one. */
  ghost predicate EachOnce(g: Graph, p: Plan)
    requires Topological(g.nodes)
  {
    && (forall k: nat :: k < |g.nodes| && IsAttention(g.nodes[k]) ==> Supported(g, p, k))
    && OneEach(g, p, |g.nodes|) && LayersTo(g, p, |g.nodes|) == p.c.layers
  }

  lemma SeenTwice(g: Graph, p: Plan, i: nat)
    requires i < |g.nodes| && IsAttention(g.nodes[i]) && LayerOf(g, p, i) in LayersTo(g, p, i)
    ensures !OneEach(g, p, |g.nodes|)
  {
    var j: nat :| j < i && IsAttention(g.nodes[j]) && LayerOf(g, p, j) == LayerOf(g, p, i);
  }

  method Build(g: Graph, p: Plan) returns (ok: bool, nodes: seq<Node>, remap: seq<u32>, extra: seq<u32>)
    requires 9 * |g.nodes| < 0x1_0000_0000 && GeometryOk(p.c) && ReadsBack(p.t)
    requires Scanned(g, p.c, p.t, |g.nodes|, p.projections, p.aux) && Topological(g.nodes)
    ensures ok <==> EachOnce(g, p)
    ensures ok ==> Built(g, p, |g.nodes|, nodes, remap, extra, p.c.layers)
  {
    hide Scanned, Supported, OneEach, LayersTo, Expanded, ExtraInputs, ReadyTo, NewId;
    nodes, remap, extra := [], [], [];
    var attached: set<nat>, aux := {}, p.aux;
    NothingBuilt(g, p);
    for i := 0 to |g.nodes|
      invariant Built(g, p, i, nodes, remap, extra, attached) && aux == p.aux + 2 * Attentions(g.nodes, i)
    {
      var n := g.nodes[i];
      if IsAttention(n) {
        var fine := CheckAttention(g, p, i);
        var layer := LayerOf(g, p, i);
        if !fine || layer in attached {
          if fine {
            SeenTwice(g, p, i);
          }
          return false, nodes, remap, extra;
        }
        nodes, remap, extra := AddAttention(g, p, i, nodes, remap, extra, attached, aux);
        attached, aux := attached + {layer}, aux + 2;
      } else {
        nodes, remap := AddNode(g, p, i, nodes, remap, extra, attached);
      }
    }
    ok := attached == p.c.layers;
  }

  lemma NothingBuilt(g: Graph, p: Plan)
    requires 9 * |g.nodes| < 0x1_0000_0000 && GeometryOk(p.c) && ReadsBack(p.t) && Topological(g.nodes)
    ensures Built(g, p, 0, [], [], [], {})
  {
  }

  method AddNode(g: Graph, p: Plan, i: nat, nodes0: seq<Node>, remap0: seq<u32>, ghost extra: seq<u32>, ghost attached: set<nat>)
      returns (nodes: seq<Node>, remap: seq<u32>)
    requires i < |g.nodes| && !IsAttention(g.nodes[i]) && Built(g, p, i, nodes0, remap0, extra, attached)
    ensures Built(g, p, i + 1, nodes, remap, extra, attached)
  {
    assert TopologicalAt(g.nodes, i);
    var id := |nodes0|;
    assert id == NewId(g.nodes, i);
    var inputs := RemapInputs(g, remap0, g.nodes[i].inputs);
    nodes := nodes0 + [g.nodes[i].(id := id, inputs := inputs)];
    remap := remap0 + [id];
    hide BlockOf, Resolved, GeometryOk, ReadsBack, Supported, LayerOf, NewId;
    assert nodes == Expanded(g, p, i + 1);
    hide Built, Expanded;
    BuiltNext(g, p, i, nodes0, remap0, extra, attached);
  }

  lemma LayersSame(g: Graph, p: Plan, i: nat)
    requires i < |g.nodes|
    ensures LayersTo(g, p, i + 1) == LayersTo(g, p, i) + if IsAttention(g.nodes[i]) then {LayerOf(g, p, i)} else {}
    ensures OneEach(g, p, i) && (IsAttention(g.nodes[i]) ==> LayerOf(g, p, i) !in LayersTo(g, p, i)) ==> OneEach(g, p, i + 1)
  {
  }

  method AddAttention(g: Graph, p: Plan, i: nat, nodes0: seq<Node>, remap0: seq<u32>, extra0: seq<u32>, ghost attached: set<nat>, aux: nat)
      returns (nodes: seq<Node>, remap: seq<u32>, extra: seq<u32>)
    requires i < |g.nodes| && IsAttention(g.nodes[i]) && Built(g, p, i, nodes0, remap0, extra0, attached)
    requires Supported(g, p, i) && Resolved(g, p, i) && LayerOf(g, p, i) !in attached && aux == p.aux + 2 * Attentions(g.nodes, i)
    ensures Built(g, p, i + 1, nodes, remap, extra, attached + {LayerOf(g, p, i)})
  {
    assert TopologicalAt(g.nodes, i);
    var id := |nodes0| + BLOCK;
    assert id == NewId(g.nodes, i);
    var inputs := RemapInputs(g, remap0, g.nodes[i].inputs);
    var block := MakeBlock(g, p, i, id - BLOCK, remap0, inputs, aux);
    hide *;
    nodes := nodes0 + block + [g.nodes[i].(id := id, op := QSA_SDPA, inputs := inputs + [id - 1])];
    remap := remap0 + [id];
    extra := extra0 + [id - 3, id - 2];
    AttentionAdded(g, p, i, nodes, inputs, block, id);
    BuiltNext(g, p, i, nodes0, remap0, extra0, attached);
  }

  lemma AttentionAdded(g: Graph, p: Plan, i: nat, nodes: seq<Node>, inputs: seq<u32>, block: seq<Node>, id: u32)
    requires i < |g.nodes| && ReadyTo(g, p, i) && IsAttention(g.nodes[i]) && Resolved(g, p, i) && TopologicalAt(g.nodes, i)
    requires Within(g.nodes[i].inputs, |g.nodes|)
    requires id == NewId(g.nodes, i) && id >= BLOCK && inputs == Moved(g.nodes, g.nodes[i].inputs)
    requires ReadyTo(g, p, i + 1) && block == BlockOf(g, p, i)
    requires nodes == Expanded(g, p, i) + block + [g.nodes[i].(id := id, op := QSA_SDPA, inputs := inputs + [id - 1])]
    ensures nodes == Expanded(g, p, i + 1)
    ensures ExtraInputs(g.nodes, i + 1) == ExtraInputs(g.nodes, i) + [id - 3, id - 2]
  {
    hide BlockOf, ReadyTo, Resolved, NewId, Moved;
  }

  /** One node more. */
  lemma BuiltNext(g: Graph, p: Plan, i: nat, nodes0: seq<Node>, remap0: seq<u32>, extra0: seq<u32>, attached: set<nat>)
    requires i < |g.nodes| && Built(g, p, i, nodes0, remap0, extra0, attached)
    requires IsAttention(g.nodes[i]) ==> Supported(g, p, i) && Resolved(g, p, i) && LayerOf(g, p, i) !in attached
    requires 9 * |g.nodes| < 0x1_0000_0000 && ReadyTo(g, p, i + 1)
    ensures Built(g, p, i + 1, Expanded(g, p, i + 1), remap0 + [NewId(g.nodes, i)], ExtraInputs(g.nodes, i + 1),
                  if IsAttention(g.nodes[i]) then attached + {LayerOf(g, p, i)} else attached)
  {
    hide Expanded, ExtraInputs, ReadyTo, Supported, Resolved, LayerOf, NewId, LayersTo, OneEach;
    LayersSame(g, p, i);
  }

  /** The eight new nodes (173-202). */
  method MakeBlock(g: Graph, p: Plan, i: nat, base: nat, remap: seq<u32>, inputs: seq<u32>, aux: nat) returns (block: seq<Node>)
    requires i < |g.nodes| && IsAttention(g.nodes[i]) && ReadyTo(g, p, i) && Resolved(g, p, i) && TopologicalAt(g.nodes, i)
    requires |remap| == i && forall k :: 0 <= k < i ==> remap[k] == NewId(g.nodes, k)
    requires inputs == Moved(g.nodes, g.nodes[i].inputs) && base == NewId(g.nodes, i) - BLOCK
    requires aux == p.aux + 2 * Attentions(g.nodes, i)
    ensures ReadyTo(g, p, i + 1) && block == BlockOf(g, p, i)
  {
    var producer := p.projections[LayerOf(g, p, i)];
    assert TopologicalAt(g.nodes, producer);
    var x := g.nodes[producer].inputs[0];
    hide Block;
    block := Block(p.c, p.t, LayerOf(g, p, i), base, g.nodes[x], remap[x], aux, inputs[4], inputs[3]);
  }

  /** Each layer's projection, where it has one. */
  ghost function ProjectionsOf(g: Graph, c: Config, t: Numerals): map<nat, nat> {
    map l: nat | l in c.layers && (exists i: nat :: Projects(g, t, l, i)) :: Projection(g, t, l)
  }

  ghost function Projection(g: Graph, t: Numerals, l: nat): (i: nat)
    requires exists i: nat :: Projects(g, t, l, i)
    ensures Projects(g, t, l, i)
  {
    var i: nat :| Projects(g, t, l, i);
    i
  }

  lemma ProjectionsAre(g: Graph, c: Config, t: Numerals, projections: map<nat, nat>)
    requires Claimed(g, c, t, |g.nodes|, projections)
    ensures projections == ProjectionsOf(g, c, t)
  {
    forall l: nat
      ensures l in projections <==> l in ProjectionsOf(g, c, t)
      ensures l in projections ==> projections[l] == ProjectionsOf(g, c, t)[l]
    {
      if l in projections {
        assert Projects(g, t, l, projections[l]);
      }
    }
  }

  /** What the rewrite asks of a graph: the first pass accepts it, each layer's one
      attention node can be rewritten, and the ids it mentions exist. */
  ghost predicate Attachable(g: Graph, c: Config, t: Numerals) {
    && Resolvable(g, c, t) && Topological(g.nodes) && EachOnce(g, Plan(c, t, ProjectionsOf(g, c, t), 0))
    && Within(g.inputs, |g.nodes|) && Within(g.outputs, |g.nodes|) && Tappable(g, t)
  }

  predicate Tappable(g: Graph, t: Numerals) {
    TAP in g.metadata ==> t.stoul(g.metadata[TAP]).Some? && t.stoul(g.metadata[TAP]).value < |g.nodes|
  }

  /** The state numbers have no part in it. */
  lemma AnyNumbers(g: Graph, p: Plan, aux: nat)
    requires Topological(g.nodes)
    ensures EachOnce(g, p.(aux := aux)) <==> EachOnce(g, p)
  {
    var q := p.(aux := aux);
    assert forall k :: 0 <= k < |g.nodes| ==> LayerOf(g, q, k) == LayerOf(g, p, k);
    assert LayersTo(g, q, |g.nodes|) == LayersTo(g, p, |g.nodes|);
    forall k: nat | k < |g.nodes|
      ensures Supported(g, q, k) <==> Supported(g, p, k)
    {
      assert TopologicalAt(g.nodes, k);
    }
  }

  /** attach_qsa_companion from line 104: a failure leaves the graph unchanged; a
      success commits the whole rewrite, every layer having its one attention node. */
  method Attach(g0: Graph, c: Config, t: Numerals) returns (ok: bool, g: Graph, ghost p: Plan, ghost tap: nat)
    requires 9 * |g0.nodes| < 0x1_0000_0000 && GeometryOk(c) && c.layers != {} && ReadsBack(t)
    ensures ok <==> Attachable(g0, c, t)
    ensures !ok ==> g == g0
    ensures ok ==>
      && Ready(g0, p) && p.c == c && p.t == t && StatesBelow(g0.nodes, t, p.aux)
      && tap < |g0.nodes| && Within(g0.outputs, |g0.nodes|) && Within(g0.inputs, |g0.nodes|) && g == Rewritten(g0, p, tap)
      && (TAP in g0.metadata ==> t.stoul(g0.metadata[TAP]) == Some(tap))
      && LayersTo(g0, p, |g0.nodes|) == c.layers && OneEach(g0, p, |g0.nodes|)
      && (forall k :: 0 <= k < |g0.nodes| && IsAttention(g0.nodes[k]) ==> Supported(g0, p, k))
      && (forall i :: 0 <= i < |g0.nodes| ==> g0.nodes[i].op != QSA_INDEXER && g0.nodes[i].op != QSA_SDPA)
  {
    ok, g, p, tap := false, g0, Plan(c, t, map[], 0), 0;
    var plan := Resolve(g0, c, t);
    if plan.None? {
      return;
    }
    p := plan.value;
    hide Scanned, Resolvable, ProjectionsOf, OneEach, LayersTo, Supported, StatesBelow;
    hide Rewritten, NewId, GeometryOk, ReadsBack, IsAttention, Topological, Claimed;
    ScannedAll(g0, p);
    ScannedPlan(g0, p);
    NoLayersWithoutNodes(g0, p);
    var fine, nodes, remap, extra := Build(g0, plan.value);
    if fine {
      ok, g, tap := Commit(g0, plan.value, nodes, remap, extra);
    }
  }

  /** The new graph, if every id it mentions exists (206-218). */
  method Commit(g0: Graph, p: Plan, nodes: seq<Node>, remap: seq<u32>, extra: seq<u32>) returns (ok: bool, g: Graph, ghost tap: nat)
    requires Ready(g0, p) && nodes == Expanded(g0, p, |g0.nodes|) && extra == ExtraInputs(g0.nodes, |g0.nodes|) && g0.nodes != []
    requires |remap| == |g0.nodes| && forall k :: 0 <= k < |remap| ==> remap[k] == NewId(g0.nodes, k)
    ensures ok <==> Within(g0.inputs, |g0.nodes|) && Within(g0.outputs, |g0.nodes|) && Tappable(g0, p.t)
    ensures !ok ==> g == g0
    ensures ok ==>
      && tap < |g0.nodes| && Within(g0.outputs, |g0.nodes|) && Within(g0.inputs, |g0.nodes|) && g == Rewritten(g0, p, tap)
      && (TAP in g0.metadata ==> p.t.stoul(g0.metadata[TAP]) == Some(tap))
  {
    hide Expanded, ExtraInputs, NewId;
    ok, g, tap := false, g0, 0;
    if !Within(g0.inputs, |remap|) || !Within(g0.outputs, |remap|) {
      return;
    }
    var metadata := g0.metadata;
    if TAP in metadata {
      var id := p.t.stoul(metadata[TAP]);
      if id.None? || id.value >= |remap| {
        return;
      }
      tap := id.value;
      metadata := metadata[TAP := p.t.decimal(remap[id.value])];
    }
    var inputs := RemapInputs(g0, remap, g0.inputs);
    var outputs := RemapInputs(g0, remap, g0.outputs);
    var version: Bytes := "contiguous-causal-fp32-v1";
    ok, g := true, Graph(nodes, inputs + extra, outputs, metadata[MARK := version]);
  }

  /** The plan of the first pass, but for its state numbers, is the graph's. */
  lemma ScannedPlan(g: Graph, p: Plan)
    requires Scanned(g, p.c, p.t, |g.nodes|, p.projections, p.aux) && Topological(g.nodes)
    ensures EachOnce(g, p) <==> EachOnce(g, Plan(p.c, p.t, ProjectionsOf(g, p.c, p.t), 0))
  {
    hide Supported, OneEach, LayersTo, Topological, ProjectionsOf, EachOnce;
    ProjectionsAre(g, p.c, p.t, p.projections);
    AnyNumbers(g, p, 0);
    assert p.(aux := 0) == Plan(p.c, p.t, ProjectionsOf(g, p.c, p.t), 0);
  }

  lemma NoLayersWithoutNodes(g: Graph, p: Plan)
    ensures g.nodes == [] ==> LayersTo(g, p, |g.nodes|) == {}
  {
  }

  lemma ScannedAll(g: Graph, p: Plan)
    requires Scanned(g, p.c, p.t, |g.nodes|, p.projections, p.aux)
    ensures Topological(g.nodes) && StatesBelow(g.nodes, p.t, p.aux)
    ensures forall i :: 0 <= i < |g.nodes| ==> g.nodes[i].op != QSA_INDEXER && g.nodes[i].op != QSA_SDPA
  {
    assert g.nodes[..|g.nodes|] == g.nodes;
  }
}
