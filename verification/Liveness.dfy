/** The last-use planner of prepare_execution (graph/execute.cpp:109-360):
    when may the executor give back the storage of each node's output? */
module Liveness {
  import opened Graph

  /** The planner's switches.  `mutableInputs` holds the backends' explicit
      state contracts: for a node, the input positions it may write. */
  datatype Config = Config(conservative: bool, readonlyLastUse: bool,
                           mutableInputs: map<nat, set<nat>>)

  /** What graph_load guarantees (graph/io.cpp:165-213), together with the
      converters' conventions that sources have no inputs and views have one. */
  ghost predicate WellFormed(g: Graph) {
    && (forall i {:trigger NodeOk(g, i)} :: 0 <= i < |g.nodes| ==> NodeOk(g, i))
    && (forall o <- g.outputs :: o < |g.nodes|)
  }

  ghost predicate NodeOk(g: Graph, i: nat)
    requires i < |g.nodes|
  {
    var n := g.nodes[i];
    && n.id == i
    && (forall k :: 0 <= k < |n.inputs| ==> n.inputs[k] < i)
    && (IsSource(n) ==> n.inputs == [])
    && (IsView(n) ==> n.inputs != [])
  }

  predicate ViewLike(n: Node, cfg: Config) {
    IsView(n) || (n.op == CONTIGUOUS && cfg.conservative)
  }

  /** Kernels that copy updates into input 7 and keep their output apart. */
  predicate CopiesState(n: Node) {
    n.op == SDPA_MLA_ABSORB || n.op == HY4_INDEXER
  }

  /** Kernels that may alias or mutate persistent storage. */
  predicate Stateful(n: Node) {
    n.op in {SDPA, SDPA_MLA, QSA_SDPA, QSA_INDEXER, GATED_DELTANET_PREFILL,
             GATED_DELTANET_DECODE, GATED_DELTANET_CONV_DECODE, SHORTCONV,
             RMS_NORM_ROPE, QK_RMS_NORM_ROPE, ADD_RMS_NORM, DSV4_COMPRESSOR,
             DSV4_INDEXER, DSV4_SPARSE_ATTN, PLE_LOOKUP, PLE_DILATED_CONV}
  }

  /** A node that makes the planner give up: nothing is released at all. */
  predicate Blocks(g: Graph, cfg: Config, i: nat)
    requires i < |g.nodes|
  {
    var n := g.nodes[i];
    if CopiesState(n) then
      |n.inputs| <= 7 || n.inputs[7] >= |g.nodes| || g.nodes[n.inputs[7]].op != INPUT
    else
      Stateful(n) && !cfg.conservative
  }

  ghost predicate Disabled(g: Graph, cfg: Config) {
    exists i :: 0 <= i < |g.nodes| && Blocks(g, cfg, i)
  }

  // ---- what the plan is for: reading a value through any chain of views ----

  /** Node `d` is `j` or a view of a view of ... of `j`. */
  ghost predicate Derives(g: Graph, cfg: Config, d: nat, j: nat)
    requires WellFormed(g)
    decreases d
  {
    d < |g.nodes| &&
    (d == j || (ViewLike(g.nodes[d], cfg) && g.nodes[d].inputs != []
                && NodeOk(g, d) && Derives(g, cfg, g.nodes[d].inputs[0], j)))
  }

  /** Step `i` touches the output of `d`: it creates it or reads it. */
  predicate Touches(g: Graph, i: nat, d: nat) {
    i < |g.nodes| && (i == d || d in g.nodes[i].inputs)
  }

  /** A valid contract of a protected node under the diagnostic switch. */
  predicate HasContract(g: Graph, cfg: Config, i: nat)
    requires i < |g.nodes|
  {
    && cfg.readonlyLastUse && i in cfg.mutableInputs && |g.nodes[i].inputs| < 64
    && forall k <- cfg.mutableInputs[i] :: k < |g.nodes[i].inputs|
  }

  /** Storage the protected node `i` pins for the whole pass. */
  predicate Pins(g: Graph, cfg: Config, i: nat, d: nat)
    requires i < |g.nodes|
  {
    Stateful(g.nodes[i]) && !CopiesState(g.nodes[i]) &&
    var ins := g.nodes[i].inputs;
    if HasContract(g, cfg, i) then exists k :: 0 <= k < |ins| && k in cfg.mutableInputs[i] && ins[k] == d
    else d == i || d in ins
  }

  ghost predicate Retained(g: Graph, cfg: Config, d: nat) {
    d in g.outputs || exists i :: 0 <= i < |g.nodes| && Pins(g, cfg, i, d)
  }

  // ---- the values the planner's three passes compute ----

  predicate ChildOf(g: Graph, cfg: Config, c: nat, j: nat)
    requires c < |g.nodes|
  {
    ViewLike(g.nodes[c], cfg) && g.nodes[c].inputs != [] && g.nodes[c].inputs[0] == j
  }

  /** Last of the first `n` nodes that touches `j`. */
  function LastDirect(g: Graph, j: nat, n: nat): (r: nat)
    requires j < n <= |g.nodes|
    ensures j <= r < n && Touches(g, r, j)
    ensures forall i :: r < i < n ==> !Touches(g, i, j)
  {
    if n == j + 1 then j
    else if j in g.nodes[n - 1].inputs then n - 1
    else LastDirect(g, j, n - 1)
  }

  function Max(a: int, b: int): int { if a >= b then a else b }

  /** `j`'s last use once the view children at or after `c` have passed
      theirs up. */
  function LastUseFrom(g: Graph, cfg: Config, j: nat, c: nat): (r: nat)
    requires j < c <= |g.nodes|
    ensures j <= r < |g.nodes|
    decreases |g.nodes| - j, |g.nodes| - c
  {
    if c == |g.nodes| then LastDirect(g, j, c)
    else if ChildOf(g, cfg, c, j) then Max(LastUseFrom(g, cfg, j, c + 1), LastUseFrom(g, cfg, c, c + 1))
    else LastUseFrom(g, cfg, j, c + 1)
  }

  function LastUse(g: Graph, cfg: Config, j: nat): (r: nat)
    requires j < |g.nodes|
    ensures j <= r < |g.nodes|
  {
    LastUseFrom(g, cfg, j, j + 1)
  }

  ghost predicate KeptFrom(g: Graph, cfg: Config, j: nat, c: nat)
    requires j < c <= |g.nodes|
    decreases |g.nodes| - j, |g.nodes| - c
  {
    if c == |g.nodes| then Retained(g, cfg, j)
    else KeptFrom(g, cfg, j, c + 1) || (ChildOf(g, cfg, c, j) && KeptFrom(g, cfg, c, c + 1))
  }

  ghost predicate Kept(g: Graph, cfg: Config, j: nat)
    requires j < |g.nodes|
  {
    KeptFrom(g, cfg, j, j + 1)
  }

  /** The node after which `j` is released, or -1 for never. */
  ghost function ReleaseAt(g: Graph, cfg: Config, j: nat): (r: int)
    requires j < |g.nodes|
    ensures r == -1 || j <= r < |g.nodes|
  {
    if Disabled(g, cfg) || IsSource(g.nodes[j]) || Kept(g, cfg, j) then -1 else LastUse(g, cfg, j)
  }

  // ---- the plan is exact: no later touch exists, and the release is no later than needed ----

  lemma {:induction false} ChildDerives(g: Graph, cfg: Config, d: nat, c: nat, j: nat)
    requires WellFormed(g) && c < |g.nodes| && ChildOf(g, cfg, c, j) && Derives(g, cfg, d, c)
    ensures Derives(g, cfg, d, j)
    decreases d
  {
    assert NodeOk(g, c);
    if d != c {
      ChildDerives(g, cfg, g.nodes[d].inputs[0], c, j);
    }
  }

  /** Every derived node other than `j` is derived from a child of `j`. */
  lemma {:induction false} FirstChild(g: Graph, cfg: Config, d: nat, j: nat) returns (c: nat)
    requires WellFormed(g) && Derives(g, cfg, d, j) && d != j
    ensures j < c <= d < |g.nodes| && ChildOf(g, cfg, c, j) && Derives(g, cfg, d, c)
    decreases d
  {
    var s := g.nodes[d].inputs[0];
    assert NodeOk(g, d);
    if s == j {
      c := d;
    } else {
      c := FirstChild(g, cfg, s, j);
    }
  }

  lemma {:induction false} LastUseDominatesChildren(g: Graph, cfg: Config, j: nat, c: nat, from: nat)
    requires j < from <= c < |g.nodes| && ChildOf(g, cfg, c, j)
    ensures LastUse(g, cfg, c) <= LastUseFrom(g, cfg, j, from)
    decreases c - from
  {
    if from < c {
      LastUseDominatesChildren(g, cfg, j, c, from + 1);
    }
  }

  lemma {:induction false} LastUseDominatesDirect(g: Graph, cfg: Config, j: nat, c: nat)
    requires j < c <= |g.nodes|
    ensures LastDirect(g, j, |g.nodes|) <= LastUseFrom(g, cfg, j, c)
    decreases |g.nodes| - c
  {
    if c < |g.nodes| {
      LastUseDominatesDirect(g, cfg, j, c + 1);
    }
  }

  /** Nothing that can read `j`'s storage runs after its last use. */
  lemma {:induction false} NoTouchAfterLastUse(g: Graph, cfg: Config, j: nat, d: nat, i: nat)
    requires WellFormed(g) && j < |g.nodes| && Derives(g, cfg, d, j) && Touches(g, i, d)
    ensures i <= LastUse(g, cfg, j)
    decreases |g.nodes| - j
  {
    if d == j {
      assert NodeOk(g, i);
      LastUseDominatesDirect(g, cfg, j, j + 1);
    } else {
      var c := FirstChild(g, cfg, d, j);
      NoTouchAfterLastUse(g, cfg, c, d, i);
      LastUseDominatesChildren(g, cfg, j, c, j + 1);
    }
  }

  /** The last use is itself a touch of `j` or of something derived from it,
      so no earlier release would be safe. */
  lemma {:induction false} LastUseIsATouch(g: Graph, cfg: Config, j: nat, c: nat) returns (d: nat)
    requires WellFormed(g) && j < c <= |g.nodes|
    ensures Derives(g, cfg, d, j) && Touches(g, LastUseFrom(g, cfg, j, c), d)
    decreases |g.nodes| - j, |g.nodes| - c
  {
    if c == |g.nodes| {
      d := j;
    } else {
      d := LastUseIsATouch(g, cfg, j, c + 1);
      if ChildOf(g, cfg, c, j) && LastUseFrom(g, cfg, c, c + 1) > LastUseFrom(g, cfg, j, c + 1) {
        d := LastUseIsATouch(g, cfg, c, c + 1);
        ChildDerives(g, cfg, d, c, j);
      }
    }
  }

  lemma {:induction false} KeptIfChildKept(g: Graph, cfg: Config, j: nat, c: nat, from: nat)
    requires j < from <= c < |g.nodes| && ChildOf(g, cfg, c, j) && Kept(g, cfg, c)
    ensures KeptFrom(g, cfg, j, from)
    decreases c - from
  {
    if from < c {
      KeptIfChildKept(g, cfg, j, c, from + 1);
    }
  }

  lemma {:induction false} KeptIfRetained(g: Graph, cfg: Config, j: nat, c: nat)
    requires j < c <= |g.nodes| && Retained(g, cfg, j)
    ensures KeptFrom(g, cfg, j, c)
    decreases |g.nodes| - c
  {
    if c < |g.nodes| {
      KeptIfRetained(g, cfg, j, c + 1);
    }
  }

  lemma {:induction false} KeptWitness(g: Graph, cfg: Config, j: nat, c: nat) returns (d: nat)
    requires WellFormed(g) && j < c <= |g.nodes| && KeptFrom(g, cfg, j, c)
    ensures Derives(g, cfg, d, j) && Retained(g, cfg, d)
    decreases |g.nodes| - j, |g.nodes| - c
  {
    if c == |g.nodes| {
      d := j;
    } else if KeptFrom(g, cfg, j, c + 1) {
      d := KeptWitness(g, cfg, j, c + 1);
    } else {
      d := KeptWitness(g, cfg, c, c + 1);
      ChildDerives(g, cfg, d, c, j);
    }
  }

  lemma {:induction false} DerivedKeepsSource(g: Graph, cfg: Config, d: nat, j: nat)
    requires WellFormed(g) && j < |g.nodes| && Derives(g, cfg, d, j) && Retained(g, cfg, d)
    ensures Kept(g, cfg, j)
    decreases |g.nodes| - j
  {
    if d == j {
      KeptIfRetained(g, cfg, j, j + 1);
    } else {
      var c := FirstChild(g, cfg, d, j);
      DerivedKeepsSource(g, cfg, d, c);
      KeptIfChildKept(g, cfg, j, c, j + 1);
    }
  }

  /** A node is kept exactly when an output or pinned tensor can be a view of it. */
  lemma KeptExactly(g: Graph, cfg: Config, j: nat)
    requires WellFormed(g) && j < |g.nodes|
    ensures Kept(g, cfg, j) <==> exists d :: Derives(g, cfg, d, j) && Retained(g, cfg, d)
  {
    if Kept(g, cfg, j) {
      var d := KeptWitness(g, cfg, j, j + 1);
    }
    forall d | Derives(g, cfg, d, j) && Retained(g, cfg, d) {
      DerivedKeepsSource(g, cfg, d, j);
    }
  }

  /** The plan in terms of the graph alone: `j` is released at `r` exactly when
      the plan is on, `j` is computed, nothing retained can view it, and `r` is
      the last step that touches anything derived from it. */
  lemma ReleaseExactly(g: Graph, cfg: Config, j: nat, r: nat)
    requires WellFormed(g) && j < |g.nodes|
    ensures ReleaseAt(g, cfg, j) == r <==>
            && !Disabled(g, cfg) && !IsSource(g.nodes[j])
            && (forall d :: Derives(g, cfg, d, j) ==> !Retained(g, cfg, d))
            && (exists d :: Derives(g, cfg, d, j) && Touches(g, r, d))
            && (forall d: nat, i: nat :: Derives(g, cfg, d, j) && Touches(g, i, d) ==> i <= r)
  {
    KeptExactly(g, cfg, j);
    var d := LastUseIsATouch(g, cfg, j, j + 1);
    forall d: nat, i: nat | Derives(g, cfg, d, j) && Touches(g, i, d)
      ensures i <= LastUse(g, cfg, j)
    {
      NoTouchAfterLastUse(g, cfg, j, d, i);
    }
  }

  // ---- the planner itself: the loops of prepare_execution ----

  /** graph/execute.cpp:252-275: last direct uses going forward, then every
      view passes its last use to its source going backward. */
  method FindLastUses(g: Graph, cfg: Config) returns (lastUse: seq<int>)
    requires WellFormed(g)
    ensures |lastUse| == |g.nodes|
    ensures forall j :: 0 <= j < |g.nodes| ==> lastUse[j] == LastUse(g, cfg, j)
  {
    lastUse := seq(|g.nodes|, _ => -1);
    for i := 0 to |g.nodes|
      invariant |lastUse| == |g.nodes|
      invariant forall j :: 0 <= j < |g.nodes| ==> lastUse[j] == if j < i then LastDirect(g, j, i) else -1
    {
      ghost var before := lastUse;
      var ins := g.nodes[i].inputs;
      assert NodeOk(g, i);
      lastUse := lastUse[i := Max(lastUse[i], i)];
      for k := 0 to |ins|
        invariant |lastUse| == |g.nodes|
        invariant forall j :: 0 <= j < |g.nodes| ==>
          lastUse[j] == if j == i || j in ins[..k] then i else before[j]
      {
        assert ins[..k + 1] == ins[..k] + [ins[k]];
        lastUse := lastUse[ins[k] := Max(lastUse[ins[k]], i)];
      }
      assert ins[..|ins|] == ins;
    }
    var i := |g.nodes|;
    while i > 0
      invariant 0 <= i <= |g.nodes| == |lastUse|
      invariant forall j :: 0 <= j < |g.nodes| ==>
        lastUse[j] == LastUseFrom(g, cfg, j, if i <= j then j + 1 else i)
    {
      i := i - 1;
      if ViewLike(g.nodes[i], cfg) && g.nodes[i].inputs != [] {
        assert NodeOk(g, i);
        var source := g.nodes[i].inputs[0];
        lastUse := lastUse[source := Max(lastUse[source], lastUse[i])];
      }
    }
  }

  /** graph/execute.cpp:261-318: outputs and pinned storage are kept, and so is
      everything they may be views of. */
  method FindKept(g: Graph, cfg: Config) returns (keep: seq<bool>)
    requires WellFormed(g)
    ensures |keep| == |g.nodes|
    ensures forall j :: 0 <= j < |g.nodes| ==> (keep[j] <==> Kept(g, cfg, j))
  {
    keep := seq(|g.nodes|, _ => false);
    for k := 0 to |g.outputs|
      invariant |keep| == |g.nodes|
      invariant forall j :: 0 <= j < |g.nodes| ==> (keep[j] <==> j in g.outputs[..k])
    {
      assert g.outputs[..k + 1] == g.outputs[..k] + [g.outputs[k]];
      assert g.outputs[k] in g.outputs;
      keep := keep[g.outputs[k] := true];
    }
    assert g.outputs[..|g.outputs|] == g.outputs;
    for i := 0 to |g.nodes|
      invariant |keep| == |g.nodes|
      invariant forall j :: 0 <= j < |g.nodes| ==>
        (keep[j] <==> j in g.outputs || exists p :: 0 <= p < i && Pins(g, cfg, p, j))
    {
      if Stateful(g.nodes[i]) && !CopiesState(g.nodes[i]) {
        keep := PinStorage(g, cfg, i, keep);
      }
    }
    var i := |g.nodes|;
    while i > 0
      invariant 0 <= i <= |g.nodes| == |keep|
      invariant forall j :: 0 <= j < |g.nodes| ==>
        (keep[j] <==> KeptFrom(g, cfg, j, if i <= j then j + 1 else i))
    {
      i := i - 1;
      if ViewLike(g.nodes[i], cfg) && g.nodes[i].inputs != [] && keep[i] {
        assert NodeOk(g, i);
        keep := keep[g.nodes[i].inputs[0] := true];
      }
    }
  }

  /** graph/execute.cpp:282-302: one protected node marks the storage it pins. */
  method PinStorage(g: Graph, cfg: Config, i: nat, keep0: seq<bool>) returns (keep: seq<bool>)
    requires WellFormed(g) && i < |g.nodes| == |keep0|
    requires Stateful(g.nodes[i]) && !CopiesState(g.nodes[i])
    ensures |keep| == |g.nodes|
    ensures forall j :: 0 <= j < |g.nodes| ==> (keep[j] <==> keep0[j] || Pins(g, cfg, i, j))
  {
    keep := keep0;
    var ins := g.nodes[i].inputs;
    assert NodeOk(g, i);
    if HasContract(g, cfg, i) {
      for k := 0 to |ins|
        invariant |keep| == |g.nodes|
        invariant forall j :: 0 <= j < |g.nodes| ==>
          (keep[j] <==> keep0[j] || exists m :: 0 <= m < k && m in cfg.mutableInputs[i] && ins[m] == j)
      {
        if k in cfg.mutableInputs[i] {
          keep := keep[ins[k] := true];
        }
      }
    } else {
      keep := keep[i := true];
      for k := 0 to |ins|
        invariant |keep| == |g.nodes|
        invariant forall j :: 0 <= j < |g.nodes| ==> (keep[j] <==> keep0[j] || j == i || j in ins[..k])
      {
        assert ins[..k + 1] == ins[..k] + [ins[k]];
        keep := keep[ins[k] := true];
      }
      assert ins[..|ins|] == ins;
    }
  }

  /** The release queue: batch `i` lists, in id order, what is freed after node `i`. */
  ghost predicate IsReleaseQueue(g: Graph, cfg: Config, queue: seq<seq<nat>>) {
    && |queue| == |g.nodes|
    && forall i :: 0 <= i < |queue| ==> IsBatch(g, cfg, queue[i], i, |g.nodes|)
  }

  /** `batch` lists exactly the nodes below `limit` released after node `i`, each once. */
  ghost predicate IsBatch(g: Graph, cfg: Config, batch: seq<nat>, i: nat, limit: nat)
    requires limit <= |g.nodes|
  {
    && (forall k :: 0 <= k < |batch| ==> batch[k] < limit && ReleaseAt(g, cfg, batch[k]) == i)
    && (forall k, m :: 0 <= k < m < |batch| ==> batch[k] < batch[m])
    && (forall j :: 0 <= j < limit && ReleaseAt(g, cfg, j) == i ==> j in batch)
  }

  /** prepare_execution's liveness part, graph/execute.cpp:203-329. */
  method PrepareRelease(g: Graph, cfg: Config) returns (queue: seq<seq<nat>>)
    requires WellFormed(g)
    ensures IsReleaseQueue(g, cfg, queue)
  {
    queue := seq(|g.nodes|, _ => []);
    for i := 0 to |g.nodes|
      invariant queue == seq(|g.nodes|, _ => [])
      invariant forall p :: 0 <= p < i ==> !Blocks(g, cfg, p)
    {
      if Blocks(g, cfg, i) {
        return;
      }
    }
    var lastUse := FindLastUses(g, cfg);
    var keep := FindKept(g, cfg);
    for j := 0 to |g.nodes|
      invariant |queue| == |g.nodes|
      invariant forall i :: 0 <= i < |queue| ==> IsBatch(g, cfg, queue[i], i, j)
    {
      if !IsSource(g.nodes[j]) && !keep[j] {
        var at := lastUse[j];
        queue := queue[at := queue[at] + [j]];
      }
    }
  }

  /** The kernels that may write their inputs (216-232), by number. */
  const PROTECTED: set<u32> := {22, 23, 24, 50, 51, 52, 53, 110, 111, 112, 135, 137, 140, 160, 161, 162}

  /** The output and the inputs of a node without a contract; otherwise the inputs that
      the contract names. */
  predicate MayWrite(g: Graph, cfg: Config, i: nat, d: nat)
    requires i < |g.nodes|
  {
    var ins := g.nodes[i].inputs;
    if cfg.readonlyLastUse && i in cfg.mutableInputs && |ins| <= 63 && forall k <- cfg.mutableInputs[i] :: k < |ins|
    then exists k :: 0 <= k < |ins| && k in cfg.mutableInputs[i] && ins[k] == d
    else d == i || d in ins
  }

  /** Which nodes pin what, and which leave nothing to release. */
  lemma PinsExactly(g: Graph, cfg: Config, i: nat, d: nat)
    requires i < |g.nodes|
    ensures Pins(g, cfg, i, d) <==> g.nodes[i].op in PROTECTED && MayWrite(g, cfg, i, d)
    ensures Blocks(g, cfg, i) <==>
      var n := g.nodes[i];
      || (n.op in PROTECTED && !cfg.conservative)
      || ((n.op == 54 || n.op == 142) && (|n.inputs| <= 7 || n.inputs[7] >= |g.nodes| || g.nodes[n.inputs[7]].op != INPUT))
  {
    ProtectedAre(g.nodes[i]);
  }

  lemma ProtectedAre(n: Node)
    ensures n.op in PROTECTED <==> Stateful(n) && !CopiesState(n)
    ensures CopiesState(n) <==> n.op == 54 || n.op == 142
    ensures Stateful(n) <==> n.op in PROTECTED
  {
  }

  /** A protected node without a contract keeps its output and all its inputs, with all
      that they view; one with a contract the inputs that it may write.  A copying kernel
      whose state is not an input of the graph leaves nothing to release. */
  lemma ProtectedIsKept(g: Graph, cfg: Config, i: nat, d: nat, j: nat)
    requires WellFormed(g) && i < |g.nodes| && j < |g.nodes| && d < |g.nodes| && Derives(g, cfg, d, j)
    requires
      var n := g.nodes[i];
      || (n.op in PROTECTED && (!cfg.conservative || MayWrite(g, cfg, i, d)))
      || ((n.op == 54 || n.op == 142) && (|n.inputs| <= 7 || n.inputs[7] >= |g.nodes| || g.nodes[n.inputs[7]].op != INPUT))
    ensures ReleaseAt(g, cfg, j) == -1
  {
    assert NodeOk(g, i);
    if !Blocks(g, cfg, i) {
      assert Pins(g, cfg, i, d);
      assert Retained(g, cfg, d);
      KeptExactly(g, cfg, j);
    }
  }

  /** RESHAPE, PERMUTE and SLICE, and CONTIGUOUS under conservative liveness, by number:
      what they view is never released before they are. */
  lemma ViewsHoldTheirSource(g: Graph, cfg: Config, i: nat)
    requires WellFormed(g) && i < |g.nodes| && g.nodes[i].inputs != []
    requires g.nodes[i].op in {60, 61, 63} || (g.nodes[i].op == 65 && cfg.conservative)
    ensures var j := g.nodes[i].inputs[0];
      j < i && LastUse(g, cfg, i) <= LastUse(g, cfg, j)
      && (ReleaseAt(g, cfg, j) == -1 || 0 <= ReleaseAt(g, cfg, i) <= ReleaseAt(g, cfg, j))
  {
    assert NodeOk(g, i);
    var j := g.nodes[i].inputs[0];
    LastUseDominatesChildren(g, cfg, j, i, j + 1);
    KeptExactly(g, cfg, i);
    KeptExactly(g, cfg, j);
    forall d | Derives(g, cfg, d, i)
      ensures Derives(g, cfg, d, j)
    {
      ChildDerives(g, cfg, d, i, j);
    }
  }
}
