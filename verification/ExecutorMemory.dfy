/** The storage invariant of a pass and the effect of every primitive on it:
    acquire, write, borrow, release. */
module ExecutorMemory {
  import opened Graph
  import opened Liveness
  import opened Executor

  /** What the executor needs of a release schedule (`rel[j]` is the step after
      which `j` is freed, -1 for never). */
  ghost predicate SafeSchedule(g: Graph, rel: seq<int>)
    requires WellFormed(g)
  {
    && |rel| == |g.nodes|
    && (forall j :: 0 <= j < |rel| ==> rel[j] >= -1)
    && (forall j :: 0 <= j < |rel| && rel[j] >= 0 ==> ReleasedLate(g, rel, j))
    && (forall i, k :: 0 <= i < |rel| && 0 <= k < |g.nodes[i].inputs| ==> OutlivesReader(g, rel, i, k))
    && (forall c :: 0 <= c < |rel| && IsView(g.nodes[c]) ==> OutlivesView(g, rel, c))
  }

  ghost predicate ReleasedLate(g: Graph, rel: seq<int>, j: nat)
    requires j < |rel| == |g.nodes|
  {
    !IsSource(g.nodes[j]) && j <= rel[j] < |rel| && !IsSource(g.nodes[rel[j]]) && j !in g.outputs
  }

  ghost predicate OutlivesReader(g: Graph, rel: seq<int>, i: nat, k: nat)
    requires WellFormed(g) && i < |rel| == |g.nodes| && k < |g.nodes[i].inputs|
  {
    assert NodeOk(g, i);
    var x := g.nodes[i].inputs[k];
    rel[x] >= 0 ==> i <= rel[x]
  }

  ghost predicate OutlivesView(g: Graph, rel: seq<int>, c: nat)
    requires WellFormed(g) && c < |rel| == |g.nodes| && IsView(g.nodes[c])
  {
    assert NodeOk(g, c);
    var x := g.nodes[c].inputs[0];
    rel[x] >= 0 ==> 0 <= rel[c] <= rel[x]
  }

  ghost function Schedule(g: Graph, cfg: Config): (rel: seq<int>)
    ensures |rel| == |g.nodes|
    ensures forall j :: 0 <= j < |rel| ==> rel[j] == ReleaseAt(g, cfg, j)
  {
    seq(|g.nodes|, j requires 0 <= j < |g.nodes| => ReleaseAt(g, cfg, j))
  }

  /** The planner's schedule is safe. */
  lemma PlanIsSafe(g: Graph, cfg: Config)
    requires WellFormed(g)
    ensures SafeSchedule(g, Schedule(g, cfg))
  {
    var rel := Schedule(g, cfg);
    forall j | 0 <= j < |rel| && rel[j] >= 0
      ensures ReleasedLate(g, rel, j)
    {
      ReleaseExactly(g, cfg, j, rel[j]);
      assert Derives(g, cfg, j, j) && !Retained(g, cfg, j);
      var d :| Derives(g, cfg, d, j) && Touches(g, rel[j], d);
      if d != j {
        var c := FirstChild(g, cfg, d, j);
      }
      assert NodeOk(g, rel[j]);
    }
    forall i, k | 0 <= i < |rel| && 0 <= k < |g.nodes[i].inputs|
      ensures OutlivesReader(g, rel, i, k)
    {
      assert NodeOk(g, i);
      var x := g.nodes[i].inputs[k];
      if rel[x] >= 0 {
        assert Derives(g, cfg, x, x) && Touches(g, i, x);
        NoTouchAfterLastUse(g, cfg, x, x, i);
      }
    }
    forall c | 0 <= c < |rel| && IsView(g.nodes[c])
      ensures OutlivesView(g, rel, c)
    {
      assert NodeOk(g, c);
      var x := g.nodes[c].inputs[0];
      assert ChildOf(g, cfg, c, x);
      if rel[x] >= 0 {
        LastUseDominatesChildren(g, cfg, x, c, x + 1);
        if Kept(g, cfg, c) {
          KeptIfChildKept(g, cfg, x, c, x + 1);
        }
      }
    }
  }

  /** Keeping everything is a safe schedule too. */
  lemma NeverReleasingIsSafe(g: Graph)
    requires WellFormed(g)
    ensures SafeSchedule(g, seq(|g.nodes|, _ => -1))
  {
    var rel := seq(|g.nodes|, _ => -1);
    forall i, k | 0 <= i < |rel| && 0 <= k < |g.nodes[i].inputs|
      ensures OutlivesReader(g, rel, i, k)
    {
      assert NodeOk(g, i);
    }
    forall c | 0 <= c < |rel| && IsView(g.nodes[c])
      ensures OutlivesView(g, rel, c)
    {
      assert NodeOk(g, c);
    }
  }

  /** A pass: the graph, the environment, the schedule in force, the nodes that a
      fused dispatch may leave without a value, and the caller's storage, with
      which every source tensor is bound (graph/execute.h:143). */
  datatype Pass = Pass(g: Graph, env: Env, rel: seq<int>, eliminable: set<nat>, start: State)

  ghost predicate PassOk(x: Pass) {
    && WellFormed(x.g) && SafeSchedule(x.g, x.rel)
    && |x.start.tensors| == |x.g.nodes|
    && x.start.live <= x.start.mem.Keys
    && (forall s {:trigger SourceBound(x, s)} :: 0 <= s < |x.g.nodes| && IsSource(x.g.nodes[s]) ==> SourceBound(x, s))
    && PoolOk(x.env)
  }

  ghost predicate SourceBound(x: Pass, s: nat)
    requires s < |x.start.tensors|
  {
    var t := x.start.tensors[s];
    t.Buf? && t.chain == [] && t.ptr in x.start.live
  }

  /** The pool never hands out a live buffer (runtime/host_buffer_pool.cpp:130-160). */
  ghost predicate PoolOk(env: Env) {
    forall j: nat, live: set<nat> :: env.acquire(j, live).Some? ==> env.acquire(j, live).value !in live
  }

  // ---- the meaning of the graph ----

  /** The value of node `j`: sources hold what the caller bound, every other node
      applies its kernel. */
  ghost function Den(x: Pass, j: nat): Val
    requires PassOk(x) && j < |x.g.nodes|
    decreases j, 1, 0
  {
    if IsSource(x.g.nodes[j]) then
      assert SourceBound(x, j);
      x.start.mem[x.start.tensors[j].ptr]
    else
      assert NodeOk(x.g, j);
      x.env.kernel(j, DenAll(x, Args(x.g.nodes[j]), j))
  }

  ghost function DenAll(x: Pass, ids: seq<u32>, bound: nat): (r: seq<Val>)
    requires PassOk(x) && bound <= |x.g.nodes|
    requires forall k :: 0 <= k < |ids| ==> ids[k] < bound
    ensures |r| == |ids| && forall k :: 0 <= k < |ids| ==> r[k] == Den(x, ids[k])
    decreases bound, 0, |ids|
  {
    if ids == [] then [] else [Den(x, ids[0])] + DenAll(x, ids[1..], bound)
  }

  // ---- the invariant ----

  ghost predicate Owns(x: Pass, st: State, j: nat) {
    j < |x.g.nodes| == |st.tensors| && !IsSource(x.g.nodes[j]) && st.tensors[j].Buf? && st.tensors[j].chain == []
  }

  /** `j`'s value can be read: it is bound by the caller or in `done`. */
  ghost predicate Ready(x: Pass, done: set<nat>, j: nat) {
    j < |x.g.nodes| && (IsSource(x.g.nodes[j]) || j in done)
  }

  ghost predicate AllReady(x: Pass, done: set<nat>, ids: seq<u32>) {
    forall k :: 0 <= k < |ids| ==> Ready(x, done, ids[k])
  }

  /** A borrowed tensor is its source's storage seen through one more view. */
  ghost predicate ViewLink(x: Pass, st: State, done: set<nat>, j: nat)
    requires WellFormed(x.g) && j < |x.g.nodes| == |st.tensors| && st.tensors[j].Buf?
  {
    IsView(x.g.nodes[j]) &&
    var s := (assert NodeOk(x.g, j); x.g.nodes[j].inputs[0]);
    && Ready(x, done, s) && st.tensors[s].Buf?
    && st.tensors[j] == Buf(st.tensors[s].ptr, st.tensors[s].chain + [j])
  }

  /** Storage and value of one computed node, when `done` nodes hold their values
      and everything scheduled before `frontier` has been given back. */
  ghost predicate NodeInv(x: Pass, st: State, done: set<nat>, frontier: nat, j: nat)
    requires PassOk(x) && j < |x.g.nodes| == |st.tensors|
  {
    var t := st.tensors[j];
    && (Owns(x, st, j) ==> t.ptr in st.live && t.ptr !in x.start.live && !Borrows(x.g, x.env, j))
    && (t.Buf? && t.chain != [] ==> j in done)
    && (j in done ==> t.Buf? && Read(x.env, st, t) == Den(x, j) && (t.chain != [] ==> ViewLink(x, st, done, j)))
    && (0 <= x.rel[j] < frontier ==> t.Empty?)
  }

  /** The caller's storage is untouched. */
  ghost predicate CallerIntact(x: Pass, st: State)
    requires |x.start.tensors| == |x.g.nodes| == |st.tensors|
  {
    && x.start.live <= st.live <= st.mem.Keys
    && (forall p <- x.start.live :: p in x.start.mem && st.mem[p] == x.start.mem[p])
    && (forall s :: 0 <= s < |x.g.nodes| && IsSource(x.g.nodes[s]) ==> st.tensors[s] == x.start.tensors[s])
  }

  /** Every acquired buffer has exactly one owner. */
  ghost predicate OneOwner(x: Pass, st: State) {
    && (forall a: nat, b: nat :: Owns(x, st, a) && Owns(x, st, b) && a != b ==> st.tensors[a].ptr != st.tensors[b].ptr)
    && (forall p <- st.live :: p in x.start.live || exists j: nat :: Owns(x, st, j) && st.tensors[j].ptr == p)
  }

  ghost predicate Inv(x: Pass, st: State, done: set<nat>, frontier: nat) {
    && PassOk(x) && |st.tensors| == |x.g.nodes| && !st.fault
    && CallerIntact(x, st) && OneOwner(x, st)
    && (forall j <- done :: j < |x.g.nodes| && !IsSource(x.g.nodes[j]))
    && NodesInv(x, st, done, frontier)
  }

  /** Following view links from a readable tensor ends at a live owner. */
  lemma {:induction false} Root(x: Pass, st: State, done: set<nat>, frontier: nat, d: nat) returns (o: nat)
    requires Inv(x, st, done, frontier) && Ready(x, done, d)
    ensures o <= d && Ready(x, done, o) && st.tensors[d].Buf? && st.tensors[o] == Buf(st.tensors[d].ptr, [])
    ensures st.tensors[d].ptr in st.live
    ensures IsSource(x.g.nodes[o]) || Owns(x, st, o)
    ensures d in done && IsSource(x.g.nodes[o]) ==> st.tensors[d].ptr in x.start.live
    decreases d
  {
    if IsSource(x.g.nodes[d]) {
      assert SourceBound(x, d);
      o := d;
    } else {
      assert NodeInv(x, st, done, frontier, d);
      if st.tensors[d].chain == [] {
        o := d;
      } else {
        assert NodeOk(x.g, d);
        o := Root(x, st, done, frontier, x.g.nodes[d].inputs[0]);
        if IsSource(x.g.nodes[o]) {
          assert SourceBound(x, o);
        }
      }
    }
  }

  /** Reading ready nodes is safe and returns their values. */
  lemma ReadsAreValues(x: Pass, st: State, done: set<nat>, frontier: nat, ids: seq<u32>)
    requires Inv(x, st, done, frontier) && AllReady(x, done, ids)
    ensures AllReadable(st, ids)
    ensures forall k :: 0 <= k < |ids| ==> ReadAll(x.env, st, ids)[k] == Den(x, ids[k])
  {
    forall k | 0 <= k < |ids|
      ensures Readable(st, ids[k]) && Read(x.env, st, st.tensors[ids[k]]) == Den(x, ids[k])
    {
      var o := Root(x, st, done, frontier, ids[k]);
      if IsSource(x.g.nodes[ids[k]]) {
        assert SourceBound(x, ids[k]);
      } else {
        assert NodeInv(x, st, done, frontier, ids[k]);
      }
    }
  }

  ghost predicate NodesInv(x: Pass, st: State, done: set<nat>, frontier: nat)
    requires PassOk(x) && |x.g.nodes| == |st.tensors|
  {
    forall j {:trigger NodeInv(x, st, done, frontier, j)} :: 0 <= j < |x.g.nodes| && !IsSource(x.g.nodes[j]) ==>
      NodeInv(x, st, done, frontier, j)
  }

  /** A fresh buffer disturbs no other tensor ... */
  lemma AcquireNodes(x: Pass, st: State, done: set<nat>, frontier: nat, j: nat, p: nat)
    requires Inv(x, st, done, frontier) && j < |x.g.nodes| && !IsSource(x.g.nodes[j]) && p !in st.live
    requires st.tensors[j].Empty? && !Borrows(x.g, x.env, j) && !(0 <= x.rel[j] < frontier)
    ensures NodesInv(x, Given(x.env, st, j, p), done, frontier)
  {
    var st' := Given(x.env, st, j, p);
    assert NodeInv(x, st, done, frontier, j);
    forall d | 0 <= d < |x.g.nodes| && !IsSource(x.g.nodes[d])
      ensures NodeInv(x, st', done, frontier, d)
    {
      assert NodeInv(x, st, done, frontier, d);
      if d in done {
        var o := Root(x, st, done, frontier, d);
        if st.tensors[d].chain != [] {
          assert NodeOk(x.g, d) && ViewLink(x, st, done, d);
          assert ViewLink(x, st', done, d);
        }
      }
    }
  }

  /** ... and has one owner. */
  lemma AcquireOwners(x: Pass, st: State, done: set<nat>, frontier: nat, j: nat, p: nat)
    requires Inv(x, st, done, frontier) && j < |x.g.nodes| && !IsSource(x.g.nodes[j]) && p !in st.live
    requires st.tensors[j].Empty?
    ensures OneOwner(x, Given(x.env, st, j, p))
  {
    var st' := Given(x.env, st, j, p);
    assert forall a: nat :: Owns(x, st', a) <==> a == j || Owns(x, st, a);
    assert forall a: nat :: Owns(x, st, a) ==> NodeInv(x, st, done, frontier, a);
    forall q | q in st'.live && q !in x.start.live
      ensures exists a: nat :: Owns(x, st', a) && st'.tensors[a].ptr == q
    {
      if q == p {
        assert Owns(x, st', j);
      } else {
        var a: nat :| Owns(x, st, a) && st.tensors[a].ptr == q;
        assert Owns(x, st', a);
      }
    }
  }

  /** Acquiring a buffer for an empty tensor. */
  lemma AcquireKeeps(x: Pass, st: State, done: set<nat>, frontier: nat, j: nat)
    requires Inv(x, st, done, frontier) && j < |x.g.nodes| && !IsSource(x.g.nodes[j])
    requires st.tensors[j].Empty? && !Borrows(x.g, x.env, j) && !(0 <= x.rel[j] < frontier)
    ensures Inv(x, Acquire(x.env, st, j), done, frontier)
    ensures st.failed || !Acquire(x.env, st, j).failed ==> Acquire(x.env, st, j).failed == st.failed
    ensures !Acquire(x.env, st, j).failed ==> Owns(x, Acquire(x.env, st, j), j)
    ensures forall a :: 0 <= a < |x.g.nodes| && a != j ==> Acquire(x.env, st, j).tensors[a] == st.tensors[a]
  {
    match x.env.acquire(j, st.live)
    case None =>
      KeepsInv(x, st, st.(failed := true), done, frontier);
    case Some(p) =>
      AcquireNodes(x, st, done, frontier, j, p);
      AcquireOwners(x, st, done, frontier, j, p);
  }

  /** The invariant does not look at `failed`. */
  lemma KeepsInv(x: Pass, st: State, st': State, done: set<nat>, frontier: nat)
    requires Inv(x, st, done, frontier) && st' == st.(failed := st'.failed)
    ensures Inv(x, st', done, frontier)
  {
    assert forall a: nat :: Owns(x, st', a) <==> Owns(x, st, a);
    forall d | 0 <= d < |x.g.nodes| && !IsSource(x.g.nodes[d])
      ensures NodeInv(x, st', done, frontier, d)
    {
      assert NodeInv(x, st, done, frontier, d);
      if d in done && st.tensors[d].chain != [] {
        assert NodeOk(x.g, d) && ViewLink(x, st, done, d) && ViewLink(x, st', done, d);
      }
    }
  }

  /** Writing through an owner nobody reads yet; `v` makes the node done when it
      is the node's value. */
  lemma StoreKeeps(x: Pass, st: State, done: set<nat>, frontier: nat, j: nat, v: Val)
    requires Inv(x, st, done, frontier) && Owns(x, st, j) && j !in done
    ensures Inv(x, Store(st, j, v), done, frontier)
    ensures v == Den(x, j) ==> Inv(x, Store(st, j, v), done + {j}, frontier)
    ensures Store(st, j, v).tensors == st.tensors
  {
    var st' := Store(st, j, v);
    assert NodeInv(x, st, done, frontier, j);
    assert forall a: nat :: Owns(x, st', a) <==> Owns(x, st, a);
    forall d | 0 <= d < |x.g.nodes| && !IsSource(x.g.nodes[d])
      ensures NodeInv(x, st', done, frontier, d)
      ensures v == Den(x, j) ==> NodeInv(x, st', done + {j}, frontier, d)
    {
      assert NodeInv(x, st, done, frontier, d);
      if d in done {
        var o := Root(x, st, done, frontier, d);
      }
    }
  }

  /** Borrowing: the tensor becomes a view of its ready source ... */
  lemma BorrowReads(x: Pass, st: State, done: set<nat>, frontier: nat, j: nat)
    requires Inv(x, st, done, frontier) && j < |x.g.nodes| && !IsSource(x.g.nodes[j]) && Borrows(x.g, x.env, j)
    requires AllReady(x, done, Args(x.g.nodes[j]))
    ensures NodeOk(x.g, j)
    ensures var s := x.g.nodes[j].inputs[0];
            && Ready(x, done, s) && st.tensors[s].Buf?
            && Dispatch(x.g, x.env, st, j) == st.(tensors := st.tensors[j := Buf(st.tensors[s].ptr, st.tensors[s].chain + [j])])
            && Read(x.env, st, Buf(st.tensors[s].ptr, st.tensors[s].chain + [j])) == Den(x, j)
  {
    assert NodeOk(x.g, j);
    var ids := Args(x.g.nodes[j]);
    var s := ids[0];
    ReadsAreValues(x, st, done, frontier, ids);
    assert Readable(st, ids[0]);
    var t := Buf(st.tensors[s].ptr, st.tensors[s].chain + [j]);
    assert t.chain[..|t.chain| - 1] == st.tensors[s].chain;
    assert [Read(x.env, st, st.tensors[s])] == ReadAll(x.env, st, ids) == DenAll(x, ids, j);
  }

  /** ... and the node is done. */
  lemma BorrowKeeps(x: Pass, st: State, done: set<nat>, frontier: nat, j: nat)
    requires Inv(x, st, done, frontier) && j < |x.g.nodes| && j !in done && !IsSource(x.g.nodes[j])
    requires Borrows(x.g, x.env, j) && st.tensors[j].Empty? && !(0 <= x.rel[j] < frontier)
    requires AllReady(x, done, Args(x.g.nodes[j]))
    ensures Inv(x, Dispatch(x.g, x.env, st, j), done + {j}, frontier)
  {
    BorrowReads(x, st, done, frontier, j);
    var s := x.g.nodes[j].inputs[0];
    SetViewKeeps(x, st, done, frontier, j, s, Buf(st.tensors[s].ptr, st.tensors[s].chain + [j]));
  }

  lemma SetViewKeeps(x: Pass, st: State, done: set<nat>, frontier: nat, j: nat, s: nat, t: Tensor)
    requires Inv(x, st, done, frontier) && j < |x.g.nodes| && j !in done && !IsSource(x.g.nodes[j])
    requires NodeOk(x.g, j) && IsView(x.g.nodes[j]) && s == x.g.nodes[j].inputs[0]
    requires Ready(x, done, s) && st.tensors[s].Buf? && t == Buf(st.tensors[s].ptr, st.tensors[s].chain + [j])
    requires Read(x.env, st, t) == Den(x, j)
    requires st.tensors[j].Empty? && !(0 <= x.rel[j] < frontier)
    ensures Inv(x, st.(tensors := st.tensors[j := t]), done + {j}, frontier)
  {
    var st' := st.(tensors := st.tensors[j := t]);
    forall d | 0 <= d < |x.g.nodes| && !IsSource(x.g.nodes[d])
      ensures NodeInv(x, st', done + {j}, frontier, d)
    {
      SetViewNode(x, st, done, frontier, j, s, t, d);
    }
    assert OneOwner(x, st') by {
      assert forall a: nat :: Owns(x, st', a) <==> Owns(x, st, a);
    }
  }

  lemma SetViewNode(x: Pass, st: State, done: set<nat>, frontier: nat, j: nat, s: nat, t: Tensor, d: nat)
    requires PassOk(x) && |st.tensors| == |x.g.nodes| && j < |x.g.nodes| && j !in done && !IsSource(x.g.nodes[j])
    requires NodeOk(x.g, j) && IsView(x.g.nodes[j]) && s == x.g.nodes[j].inputs[0]
    requires Ready(x, done, s) && st.tensors[s].Buf? && t == Buf(st.tensors[s].ptr, st.tensors[s].chain + [j])
    requires Read(x.env, st, t) == Den(x, j)
    requires st.tensors[j].Empty? && !(0 <= x.rel[j] < frontier)
    requires d < |x.g.nodes| && !IsSource(x.g.nodes[d]) && NodeInv(x, st, done, frontier, d)
    ensures NodeInv(x, st.(tensors := st.tensors[j := t]), done + {j}, frontier, d)
  {
    var st' := st.(tensors := st.tensors[j := t]);
    if d == j {
      assert ViewLink(x, st', done + {j}, j);
    } else if d in done && st.tensors[d].chain != [] {
      assert NodeOk(x.g, d) && ViewLink(x, st, done, d);
      assert ViewLink(x, st', done + {j}, d);
    }
  }

  /** An ordinary dispatch with ready inputs makes the node done. */
  lemma DispatchKeeps(x: Pass, st: State, done: set<nat>, frontier: nat, j: nat)
    requires Inv(x, st, done, frontier) && j < |x.g.nodes| && j !in done && !IsSource(x.g.nodes[j])
    requires if Borrows(x.g, x.env, j) then st.tensors[j].Empty? && !(0 <= x.rel[j] < frontier) else Owns(x, st, j)
    requires AllReady(x, done, Args(x.g.nodes[j]))
    ensures Inv(x, Dispatch(x.g, x.env, st, j), done + {j}, frontier)
    ensures Dispatch(x.g, x.env, st, j).failed == st.failed
    ensures forall a :: 0 <= a < |x.g.nodes| && a != j ==> Dispatch(x.g, x.env, st, j).tensors[a] == st.tensors[a]
  {
    if Borrows(x.g, x.env, j) {
      BorrowKeeps(x, st, done, frontier, j);
    } else {
      assert NodeOk(x.g, j);
      var ids := Args(x.g.nodes[j]);
      ReadsAreValues(x, st, done, frontier, ids);
      assert ReadAll(x.env, st, ids) == DenAll(x, ids, j);
      assert NodeInv(x, st, done, frontier, j);
      StoreKeeps(x, st, done, frontier, j, x.env.kernel(j, ReadAll(x.env, st, ids)));
    }
  }

  // ---- giving storage back ----

  /** Storage identity tells owners from views: the classification by
      shares_storage_with is exact whenever the invariant holds. */
  lemma ClassificationIsExact(x: Pass, st: State, done: set<nat>, frontier: nat, j: nat, cleanup: bool)
    requires Inv(x, st, done, frontier) && j < |x.g.nodes| && !IsSource(x.g.nodes[j]) && st.tensors[j].Buf?
    ensures LooksBorrowed(x.g, st, j, cleanup) <==> !Owns(x, st, j)
  {
    assert NodeInv(x, st, done, frontier, j) && NodeOk(x.g, j);
    if x.g.nodes[j].inputs != [] {
      var s := x.g.nodes[j].inputs[0];
      if IsSource(x.g.nodes[s]) {
        assert SourceBound(x, s);
      } else {
        assert NodeInv(x, st, done, frontier, s);
        if s in done {
          var o := Root(x, st, done, frontier, s);
        }
      }
    }
  }

  /** What releasing a batch does, when borrowing was judged correctly. */
  ghost predicate ReleasedAs(x: Pass, st: State, r: State, gone: set<nat>)
    requires |st.tensors| == |x.g.nodes|
  {
    && |r.tensors| == |st.tensors| && r.mem == st.mem && r.fault == st.fault && r.failed == st.failed
    && (forall d :: 0 <= d < |st.tensors| ==> r.tensors[d] == if d in gone then Empty else st.tensors[d])
    && r.live <= st.live
    && (forall p <- st.live :: p in r.live <==> forall d <- gone :: !(Owns(x, st, d) && st.tensors[d].ptr == p))
  }

  lemma ReleaseOneEffect(x: Pass, st: State, r: State, gone: set<nat>, j: nat, borrowed: bool)
    requires |st.tensors| == |x.g.nodes| && OneOwner(x, st) && ReleasedAs(x, st, r, gone)
    requires j < |x.g.nodes| && !IsSource(x.g.nodes[j]) && j !in gone
    requires Owns(x, st, j) ==> st.tensors[j].ptr in st.live
    requires st.tensors[j].Buf? ==> (borrowed <==> !Owns(x, st, j))
    ensures ReleasedAs(x, st, ReleaseOne(x.g, r, j, borrowed), gone + {j})
  {
    var r' := ReleaseOne(x.g, r, j, borrowed);
    assert r.tensors[j] == st.tensors[j];
    if Owns(x, st, j) {
      assert st.tensors[j].ptr in r.live;
    }
  }

  lemma {:induction false} ReleaseFirstEffect(x: Pass, judge: State, cleanup: bool, st: State, done: set<nat>, frontier: nat,
                                              batch: seq<nat>, k: nat)
    requires Inv(x, st, done, frontier) && |judge.tensors| == |x.g.nodes| && k <= |batch|
    requires forall i :: 0 <= i < |batch| ==> batch[i] < |x.g.nodes| && !IsSource(x.g.nodes[batch[i]])
    requires forall a, b :: 0 <= a < b < |batch| ==> batch[a] < batch[b]
    requires forall i :: 0 <= i < |batch| && st.tensors[batch[i]].Buf? ==>
      (LooksBorrowed(x.g, judge, batch[i], cleanup) <==> !Owns(x, st, batch[i]))
    ensures ReleasedAs(x, st, ReleaseFirst(x.g, judge, cleanup, st, batch, k), set i | 0 <= i < k :: batch[i])
  {
    if k > 0 {
      ReleaseFirstEffect(x, judge, cleanup, st, done, frontier, batch, k - 1);
      var gone := set i | 0 <= i < k - 1 :: batch[i];
      var j := batch[k - 1];
      assert (set i | 0 <= i < k :: batch[i]) == gone + {j};
      assert NodeInv(x, st, done, frontier, j);
      ReleaseOneEffect(x, st, ReleaseFirst(x.g, judge, cleanup, st, batch, k - 1), gone, j, LooksBorrowed(x.g, judge, j, cleanup));
    }
  }

  /** After releasing all that is due before `next`, the invariant holds with
      the later frontier and the released nodes no longer done. */
  lemma ReleaseKeeps(x: Pass, st: State, done: set<nat>, frontier: nat, r: State, gone: set<nat>, next: nat)
    requires Inv(x, st, done, frontier) && ReleasedAs(x, st, r, gone) && frontier <= next
    requires forall j <- gone :: j < |x.g.nodes| && !IsSource(x.g.nodes[j]) && 0 <= x.rel[j] < next
    requires forall j :: 0 <= j < |x.g.nodes| && frontier <= x.rel[j] < next ==> j in gone
    ensures Inv(x, r, done - gone, next)
  {
    var done' := done - gone;
    assert forall a: nat :: Owns(x, r, a) <==> Owns(x, st, a) && a !in gone;
    forall d | 0 <= d < |x.g.nodes| && !IsSource(x.g.nodes[d])
      ensures NodeInv(x, r, done', next, d)
    {
      assert NodeInv(x, st, done, frontier, d);
      if d in done' && st.tensors[d].chain != [] {
        assert NodeOk(x.g, d) && ViewLink(x, st, done, d) && OutlivesView(x.g, x.rel, d);
        assert ViewLink(x, r, done', d);
      }
      if Owns(x, r, d) {
        assert forall g <- gone :: !(Owns(x, st, g) && st.tensors[g].ptr == st.tensors[d].ptr);
      }
    }
    assert CallerIntact(x, r) by {
      forall p | p in x.start.live
        ensures p in r.live
      {
        assert forall d <- gone :: Owns(x, st, d) ==> NodeInv(x, st, done, frontier, d);
      }
    }
    forall p | p in r.live && p !in x.start.live
      ensures exists j: nat :: Owns(x, r, j) && r.tensors[j].ptr == p
    {
      var j: nat :| Owns(x, st, j) && st.tensors[j].ptr == p;
      assert j !in gone;
      assert Owns(x, r, j);
    }
  }

  /** A batch of the release queue. */
  lemma ReleaseBatchKeeps(x: Pass, st: State, done: set<nat>, frontier: nat, batch: seq<nat>, next: nat)
      returns (done': set<nat>)
    requires Inv(x, st, done, frontier) && frontier <= next
    requires forall a, b :: 0 <= a < b < |batch| ==> batch[a] < batch[b]
    requires forall k :: 0 <= k < |batch| ==> batch[k] < |x.g.nodes| && 0 <= x.rel[batch[k]] < next
    requires forall j :: 0 <= j < |x.g.nodes| && frontier <= x.rel[j] < next ==> j in batch
    ensures Inv(x, ReleaseBatch(x.g, st, batch), done', next)
    ensures done' == set j | j in done && !(0 <= x.rel[j] < next)
    ensures ReleaseBatch(x.g, st, batch).failed == st.failed
  {
    forall k | 0 <= k < |batch|
      ensures !IsSource(x.g.nodes[batch[k]])
      ensures st.tensors[batch[k]].Buf? ==> (LooksBorrowed(x.g, st, batch[k], false) <==> !Owns(x, st, batch[k]))
    {
      assert ReleasedLate(x.g, x.rel, batch[k]);
      if st.tensors[batch[k]].Buf? {
        ClassificationIsExact(x, st, done, frontier, batch[k], false);
      }
    }
    ReleaseFirstEffect(x, st, false, st, done, frontier, batch, |batch|);
    var gone := set k | 0 <= k < |batch| :: batch[k];
    ReleaseKeeps(x, st, done, frontier, ReleaseBatch(x.g, st, batch), gone, next);
    done' := done - gone;
    forall j | j in done && 0 <= x.rel[j] < next
      ensures j in gone
    {
      assert NodeInv(x, st, done, frontier, j);
    }
  }
}
