/** Any sequence of engine calls: rebind the inputs, run a pass, whole or in segments,
    over what the last call kept, clean up.  Buffers are neither lost nor given back
    twice. */
module Calls {
  import opened Graph
  import opened Liveness
  import opened Executor
  import opened ExecutorMemory
  import opened ExecutorRun
  import opened Passes
  import opened PoolLog
  import opened Refusals

  /** One call: the caller's storage and source tensors, the pass, the ends of its
      segments, which need not reach the end of the graph, and whether the cleanup
      keeps the workspace (engine/engine.cpp:152-159). */
  datatype Turn = Turn(bound: State, env: Env, rel: seq<int>, eliminable: set<nat>, ends: seq<nat>, keep: bool)

  /** Between calls every computed tensor is empty or owns a live buffer of its own
      that is not the caller's, and nothing else is live. */
  ghost predicate Idle(g: Graph, caller: set<nat>, st: State) {
    && |st.tensors| == |g.nodes| > 0 && !st.fault && caller <= st.live
    && (forall j :: 0 <= j < |g.nodes| && Keeps(g, st, j) ==>
          st.tensors[j].chain == [] && st.tensors[j].ptr in st.live && st.tensors[j].ptr !in caller)
    && (forall a: nat, b: nat :: Keeps(g, st, a) && Keeps(g, st, b) && a != b ==> st.tensors[a].ptr != st.tensors[b].ptr)
    && (forall p <- st.live :: p in caller || exists j: nat :: Keeps(g, st, j) && st.tensors[j].ptr == p)
  }

  /** Computed tensor `j` holds storage. */
  predicate Keeps(g: Graph, st: State, j: nat) {
    j < |g.nodes| == |st.tensors| && !IsSource(g.nodes[j]) && st.tensors[j].Buf?
  }

  /** No kept tensor is one that a pass with these contiguous sources makes a view. */
  ghost predicate NoneBorrowed(g: Graph, env: Env, st: State) {
    forall j: nat :: Keeps(g, st, j) ==> !Borrows(g, env, j)
  }

  /** The pass of a call. */
  function PassOf(g: Graph, caller: set<nat>, st: State, t: Turn): (x: Pass)
    requires |t.bound.tensors| == |g.nodes| == |st.tensors|
    ensures x.g == g && x.env == t.env && x.rel == t.rel && x.start.live == t.bound.live
  {
    Pass(g, t.env, t.rel, t.eliminable, AfterRebind(g, caller, st, t.bound).(live := t.bound.live))
  }

  /** What a caller provides: sources bound to live storage that is not the
      executor's own, a safe schedule with its queue, and, where the workspace is
      reused, the same contiguous RESHAPE sources as in the call before. */
  ghost predicate TurnOk(g: Graph, caller: set<nat>, before: Env, st: State, t: Turn) {
    && |t.bound.tensors| == |g.nodes| == |st.tensors| && Cuts(g, 0, t.ends)
    && !t.bound.fault && t.bound.live <= t.bound.mem.Keys && st.live - caller <= t.bound.mem.Keys
    && (forall j: nat :: Keeps(g, st, j) ==> st.tensors[j].ptr !in t.bound.live)
    && Planned(PassOf(g, caller, st, t)) && EliminableExact(PassOf(g, caller, st, t)) && RowsConsistent(PassOf(g, caller, st, t))
    && (t.env.reuse ==> t.env.borrows == before.borrows)
  }

  /** The state in which the node loops of a call start, and in which they end. */
  function Begun(g: Graph, caller: set<nat>, st: State, t: Turn): (r: State)
    requires |t.bound.tensors| == |g.nodes| == |st.tensors| && PassOk(PassOf(g, caller, st, t))
    ensures |r.tensors| == |g.nodes|
  {
    ResetTensors(g, AfterRebind(g, caller, st, t.bound), false, t.env.reuse)
  }

  function Ran(g: Graph, caller: set<nat>, st: State, t: Turn): (r: State)
    requires |t.bound.tensors| == |g.nodes| == |st.tensors| && Cuts(g, 0, t.ends) && Planned(PassOf(g, caller, st, t))
    ensures |r.tensors| == |g.nodes|
  {
    RunSegments(g, t.env, 0, t.ends, Begun(g, caller, st, t))
  }

  /** The state that a call leaves. */
  function Ended(g: Graph, caller: set<nat>, st: State, t: Turn): (r: State)
    requires |t.bound.tensors| == |g.nodes| == |st.tensors| && Cuts(g, 0, t.ends) && Planned(PassOf(g, caller, st, t))
    ensures |r.tensors| == |g.nodes|
  {
    ResetTensors(g, Ran(g, caller, st, t), true, t.keep)
  }

  /** A fresh engine is idle. */
  lemma QuietIsIdle(g: Graph, env: Env, st: State)
    requires Quiet(g, st)
    ensures Idle(g, st.live, st) && NoneBorrowed(g, env, st)
  {
    assert forall j: nat :: !Keeps(g, st, j);
  }

  // ---- one call ----

  /** An idle state under new bindings meets the storage invariant with nothing
      computed, for any pass that makes no view of a kept tensor. */
  lemma IdleIsSound(x: Pass, caller: set<nat>, st: State, bound: State)
    requires PassOk(x) && Idle(x.g, caller, st) && NoneBorrowed(x.g, x.env, st) && |bound.tensors| == |x.g.nodes|
    requires x.start == AfterRebind(x.g, caller, st, bound).(live := bound.live)
    requires bound.live <= bound.mem.Keys && st.live - caller <= bound.mem.Keys
    requires forall j: nat :: Keeps(x.g, st, j) ==> st.tensors[j].ptr !in bound.live
    ensures Inv(x, AfterRebind(x.g, caller, st, bound), {}, 0)
  {
    var s := AfterRebind(x.g, caller, st, bound);
    assert forall j: nat :: Owns(x, s, j) <==> Keeps(x.g, st, j);
    forall j | 0 <= j < |x.g.nodes| && !IsSource(x.g.nodes[j])
      ensures NodeInv(x, s, {}, 0, j)
    {
      assert s.tensors[j] == st.tensors[j];
    }
    forall p | p in s.live && p !in bound.live
      ensures exists j: nat :: Owns(x, s, j) && s.tensors[j].ptr == p
    {
      var j: nat :| Keeps(x.g, st, j) && st.tensors[j].ptr == p;
      assert Owns(x, s, j);
    }
  }

  /** A full reset leaves no owner, so it does not matter which RESHAPEs borrow. */
  lemma NothingOwned(x: Pass, y: Pass, st: State)
    requires Inv(x, st, {}, 0) && PassOk(y) && x.g == y.g && x.start == y.start
    requires forall j :: 0 <= j < |x.g.nodes| && !IsSource(x.g.nodes[j]) ==> st.tensors[j].Empty?
    ensures Inv(y, st, {}, 0)
  {
    assert forall j: nat :: !Owns(y, st, j) && !Owns(x, st, j);
    forall j | 0 <= j < |y.g.nodes| && !IsSource(y.g.nodes[j])
      ensures NodeInv(y, st, {}, 0, j)
    {
    }
  }

  /** The rebound state is sound for the pass that still borrows as the last one did. */
  lemma SoundPass(g: Graph, caller: set<nat>, before: Env, st: State, t: Turn) returns (y: Pass)
    requires Idle(g, caller, st) && NoneBorrowed(g, before, st) && TurnOk(g, caller, before, st, t)
    ensures y == PassOf(g, caller, st, t).(env := t.env.(borrows := before.borrows))
    ensures Inv(y, AfterRebind(g, caller, st, t.bound), {}, 0)
  {
    var x := PassOf(g, caller, st, t);
    y := x.(env := x.env.(borrows := before.borrows));
    forall s | 0 <= s < |g.nodes| && IsSource(g.nodes[s])
      ensures SourceBound(y, s)
    {
      assert SourceBound(x, s);
    }
    IdleIsSound(y, caller, st, t.bound);
  }

  /** Whatever the previous call kept, the reset makes a state in which the pass may
      start. */
  lemma MayBegin(g: Graph, caller: set<nat>, before: Env, st: State, t: Turn)
    requires Idle(g, caller, st) && NoneBorrowed(g, before, st) && TurnOk(g, caller, before, st, t)
    ensures Startable(PassOf(g, caller, st, t), Begun(g, caller, st, t))
  {
    var x := PassOf(g, caller, st, t);
    var y := SoundPass(g, caller, before, st, t);
    var s := AfterRebind(g, caller, st, t.bound);
    if t.env.reuse {
      assert y == x;
      ClearBorrowedKeeps(x, s, {}, false);
    } else {
      ResetReturnsEverything(y, s, {}, false);
      NothingOwned(y, x, Begun(g, caller, st, t));
    }
  }

  lemma SoundIsIdle(x: Pass, st: State)
    requires Inv(x, st, {}, 0) && |x.g.nodes| > 0
    ensures Idle(x.g, x.start.live, st) && NoneBorrowed(x.g, x.env, st)
  {
    forall j: nat
      ensures Keeps(x.g, st, j) <==> Owns(x, st, j)
    {
      if Keeps(x.g, st, j) {
        assert NodeInv(x, st, {}, 0, j);
      }
    }
    forall j: nat | Keeps(x.g, st, j)
      ensures st.tensors[j].ptr in st.live && st.tensors[j].ptr !in x.start.live && !Borrows(x.g, x.env, j)
    {
      assert NodeInv(x, st, {}, 0, j);
    }
  }

  /** What one call guarantees: no step reads, writes or gives back dead storage; a
      finished pass has computed the graph, and one that failed was just refused a
      buffer; afterwards exactly the caller's buffers,
      with their contents, and those of kept tensors are live.  With `keep` every
      owner keeps its buffer; without, the caller's buffers alone are left. */
  ghost predicate Sound(g: Graph, caller: set<nat>, st: State, t: Turn)
    requires |t.bound.tensors| == |g.nodes| == |st.tensors| && Cuts(g, 0, t.ends) && Planned(PassOf(g, caller, st, t))
  {
    var x, r, out := PassOf(g, caller, st, t), Ran(g, caller, st, t), Ended(g, caller, st, t);
    && !r.fault && (!r.failed && EndOf(0, t.ends) == |g.nodes| ==> Completed(x, r))
    && (r.failed ==> Refused(g, t.env, r))
    && Idle(g, t.bound.live, out) && (!t.keep ==> out.live == t.bound.live)
    && (t.keep ==> out.live == r.live && forall j: nat :: Owns(x, r, j) ==> out.tensors[j] == r.tensors[j])
    && (forall p <- t.bound.live :: p in out.mem && p in t.bound.mem && out.mem[p] == t.bound.mem[p])
    && (forall j :: 0 <= j < |g.nodes| && IsSource(g.nodes[j]) ==> out.tensors[j] == t.bound.tensors[j])
  }

  lemma CallIsSound(g: Graph, caller: set<nat>, before: Env, st: State, t: Turn, out: set<nat>)
    requires Idle(g, caller, st) && NoneBorrowed(g, before, st) && TurnOk(g, caller, before, st, t)
    requires Sealed(caller, out, st)
    ensures Sound(g, caller, st, t) && NoneBorrowed(g, t.env, Ended(g, caller, st, t))
    ensures Sealed(t.bound.live, out, Ended(g, caller, st, t))
  {
    hide *;
    TurnIs(g, caller, before, st, t);
    var x, r := PassOf(g, caller, st, t), Ran(g, caller, st, t);
    BeginSeals(g, caller, before, st, t, out);
    MayBegin(g, caller, before, st, t);
    var done := SegmentsAreSafe(x, t.ends, Begun(g, caller, st, t), out);
    if !r.failed && EndOf(0, t.ends) == |g.nodes| {
      SegmentedPassComputesGraph(x, t.ends, Begun(g, caller, st, t));
    }
    StartedWell(x, Begun(g, caller, st, t));
    SegmentsFail(g, t.env, 0, t.ends, Begun(g, caller, st, t));
    CleanedUp(x, r, done, t.keep);
    ResetSeals(x, r, done, true, t.keep, out);
    SoundIsIdle(x, Ended(g, caller, st, t));
    SoundSo(g, caller, st, t);
  }

  lemma StartedWell(x: Pass, st: State)
    requires Startable(x, st)
    ensures WellFormed(x.g) && |x.g.nodes| == |st.tensors| && QueueShape(x.g, x.env.queue) && !st.failed
  {
  }

  lemma TurnIs(g: Graph, caller: set<nat>, before: Env, st: State, t: Turn)
    requires Idle(g, caller, st) && TurnOk(g, caller, before, st, t)
    ensures |t.bound.tensors| == |g.nodes| == |st.tensors| && |g.nodes| > 0 && Cuts(g, 0, t.ends)
    ensures PassOk(PassOf(g, caller, st, t)) && Planned(PassOf(g, caller, st, t))
    ensures Ran(g, caller, st, t) == RunSegments(g, t.env, 0, t.ends, Begun(g, caller, st, t))
    ensures Ended(g, caller, st, t) == ResetTensors(g, Ran(g, caller, st, t), true, t.keep)
  {
    hide RunSegments, ResetTensors, EliminableExact, RowsConsistent, Cuts;
  }

  lemma SoundSo(g: Graph, caller: set<nat>, st: State, t: Turn)
    requires |t.bound.tensors| == |g.nodes| == |st.tensors| && Cuts(g, 0, t.ends) && Planned(PassOf(g, caller, st, t))
    requires var x, r, out := PassOf(g, caller, st, t), Ran(g, caller, st, t), Ended(g, caller, st, t);
      && !r.fault && (!r.failed && EndOf(0, t.ends) == |g.nodes| ==> Completed(x, r)) && (r.failed ==> Refused(g, t.env, r))
      && Inv(x, out, {}, 0) && Idle(g, t.bound.live, out) && (!t.keep ==> out.live == t.bound.live)
      && (t.keep ==> out.live == r.live && forall j: nat :: Owns(x, r, j) ==> out.tensors[j] == r.tensors[j])
    ensures Sound(g, caller, st, t)
  {
    hide Ran, Ended, Idle, NodesInv, OneOwner, Completed, PassOk, Planned, Owns, Cuts, Refused;
  }

  lemma SegmentsAreSafe(x: Pass, ends: seq<nat>, st: State, out: set<nat>) returns (done: set<nat>)
    requires Startable(x, st) && Cuts(x.g, 0, ends) && Sealed(x.start.live, out, st)
    ensures var r := RunSegments(x.g, x.env, 0, ends, st);
      !r.fault && Inv(x, r, done, 0) && Sealed(x.start.live, out, r)
  {
    assert Covers(x, {}, 0);
    hide Sealed, RunSegments, Cuts;
    SegmentsSeal(x, 0, ends, {}, st, out);
    done := SegmentsKeep(x, 0, ends, {}, st);
    if !RunSegments(x.g, x.env, 0, ends, st).failed {
      Weaken(x, RunSegments(x.g, x.env, 0, ends, st), done, EndOf(0, ends));
    }
  }

  /** Rebinding exchanges the caller's buffers for the new ones; the reset before a
      pass gives back what the last call kept, or keeps it. */
  lemma BeginSeals(g: Graph, caller: set<nat>, before: Env, st: State, t: Turn, out: set<nat>)
    requires Idle(g, caller, st) && NoneBorrowed(g, before, st) && TurnOk(g, caller, before, st, t)
    requires Sealed(caller, out, st)
    ensures Sealed(t.bound.live, out, Begun(g, caller, st, t))
  {
    var s := AfterRebind(g, caller, st, t.bound);
    forall p | p in st.live && p !in caller
      ensures p !in t.bound.live
    {
      var j: nat :| Keeps(g, st, j) && st.tensors[j].ptr == p;
    }
    assert s.live - t.bound.live == st.live - caller;
    hide Idle, NoneBorrowed, ResetTensors, EliminableExact, RowsConsistent;
    var y := SoundPass(g, caller, before, st, t);
    ResetSeals(y, s, {}, false, t.env.reuse, out);
  }

  /** The cleanup of a call, in either mode. */
  lemma CleanedUp(x: Pass, r: State, done: set<nat>, keep: bool)
    requires Inv(x, r, done, 0)
    ensures var out := ResetTensors(x.g, r, true, keep);
      && Inv(x, out, {}, 0) && (!keep ==> out.live == x.start.live)
      && (keep ==> out.live == r.live && forall j: nat :: Owns(x, r, j) ==> out.tensors[j] == r.tensors[j])
  {
    if keep {
      ClearBorrowedKeeps(x, r, done, true);
    } else {
      ResetReturnsEverything(x, r, done, true);
    }
  }

  // ---- any number of calls ----

  ghost predicate TurnsOk(g: Graph, caller: set<nat>, before: Env, st: State, turns: seq<Turn>)
    decreases |turns|
  {
    turns == [] ||
    (TurnOk(g, caller, before, st, turns[0])
     && TurnsOk(g, turns[0].bound.live, turns[0].env, Ended(g, caller, st, turns[0]), turns[1..]))
  }

  ghost predicate AllSound(g: Graph, caller: set<nat>, before: Env, st: State, turns: seq<Turn>)
    requires TurnsOk(g, caller, before, st, turns)
    decreases |turns|
  {
    turns == [] ||
    (Sound(g, caller, st, turns[0])
     && AllSound(g, turns[0].bound.live, turns[0].env, Ended(g, caller, st, turns[0]), turns[1..]))
  }

  /** The state after all of them, and the storage that is then the caller's. */
  ghost function AfterTurns(g: Graph, caller: set<nat>, before: Env, st: State, turns: seq<Turn>): State
    requires TurnsOk(g, caller, before, st, turns)
    decreases |turns|
  {
    if turns == [] then st
    else AfterTurns(g, turns[0].bound.live, turns[0].env, Ended(g, caller, st, turns[0]), turns[1..])
  }

  function LastCaller(caller: set<nat>, turns: seq<Turn>): set<nat> {
    if turns == [] then caller else turns[|turns| - 1].bound.live
  }

  /** Over any sequence of calls, each with its own bindings, kernels, fusions,
      contiguity, segments, stopping point and treatment of the workspace, and any of
      them cut short by a refused acquisition: each is sound, and the log of the pool
      replays from the buffers out at first to those of the tensors kept at last.
      Nothing of the caller's is ever given back. */
  lemma {:induction false} RunConserves(g: Graph, caller: set<nat>, before: Env, st: State, turns: seq<Turn>, out: set<nat>)
    requires Idle(g, caller, st) && NoneBorrowed(g, before, st) && TurnsOk(g, caller, before, st, turns)
    requires Sealed(caller, out, st)
    ensures AllSound(g, caller, before, st, turns)
    ensures var r := AfterTurns(g, caller, before, st, turns);
      Idle(g, LastCaller(caller, turns), r) && Sealed(LastCaller(caller, turns), out, r)
    decreases |turns|
  {
    hide *;
    FirstTurn(g, caller, before, st, turns);
    if turns != [] {
      CallIsSound(g, caller, before, st, turns[0], out);
      SoundIdles(g, caller, st, turns[0]);
      RunConserves(g, turns[0].bound.live, turns[0].env, Ended(g, caller, st, turns[0]), turns[1..], out);
    }
  }

  /** The first call, and the others from the state it leaves. */
  lemma FirstTurn(g: Graph, caller: set<nat>, before: Env, st: State, turns: seq<Turn>)
    requires TurnsOk(g, caller, before, st, turns)
    ensures turns == [] ==> AllSound(g, caller, before, st, turns) && AfterTurns(g, caller, before, st, turns) == st
    ensures turns == [] ==> LastCaller(caller, turns) == caller
    ensures turns != [] ==>
      var t, rest := turns[0], turns[1..];
      && TurnOk(g, caller, before, st, t) && |t.bound.tensors| == |g.nodes| == |st.tensors| && Cuts(g, 0, t.ends)
      && Planned(PassOf(g, caller, st, t)) && TurnsOk(g, t.bound.live, t.env, Ended(g, caller, st, t), rest)
      && (AllSound(g, caller, before, st, turns) <==>
          Sound(g, caller, st, t) && AllSound(g, t.bound.live, t.env, Ended(g, caller, st, t), rest))
      && AfterTurns(g, caller, before, st, turns) == AfterTurns(g, t.bound.live, t.env, Ended(g, caller, st, t), rest)
      && LastCaller(caller, turns) == LastCaller(t.bound.live, rest)
  {
    hide Sound, Ended, Planned, EliminableExact, RowsConsistent, PassOf, Cuts;
  }

  lemma SoundIdles(g: Graph, caller: set<nat>, st: State, t: Turn)
    requires |t.bound.tensors| == |g.nodes| == |st.tensors| && Cuts(g, 0, t.ends) && Planned(PassOf(g, caller, st, t))
    requires Sound(g, caller, st, t)
    ensures Idle(g, t.bound.live, Ended(g, caller, st, t))
  {
    hide Idle, Completed, Ended, Ran, Planned, PassOf, Cuts;
  }

  /** Any life of an engine, from the start on: every call is sound; each acquired
      buffer is given back by the next pool call about it, or by none and is owned by a
      kept tensor; and only what was acquired, and not since given back, is given back. */
  lemma EngineConserves(g: Graph, before: Env, st: State, turns: seq<Turn>)
    requires Quiet(g, st) && st.log == [] && TurnsOk(g, st.live, before, st, turns)
    ensures AllSound(g, st.live, before, st, turns)
    ensures var r := AfterTurns(g, st.live, before, st, turns);
      && (forall i: nat, p: nat :: i < |r.log| && r.log[i] == Acquired(p) ==> Settled(g, r, i, p))
      && (forall i: nat, p: nat :: i < |r.log| && r.log[i] == Released(p) ==> TakenBefore(r.log, i, p, {}))
  {
    var r, caller := AfterTurns(g, st.live, before, st, turns), LastCaller(st.live, turns);
    QuietIsIdle(g, before, st);
    assert st.live - st.live == {};
    hide Quiet, TurnsOk, AllSound, AfterTurns, NoneBorrowed, Settled, GivenBackOnce, TakenBefore;
    RunConserves(g, st.live, before, st, turns, {});
    forall i: nat, p: nat | i < |r.log| && r.log[i] == Acquired(p)
      ensures Settled(g, r, i, p)
    {
      AcquiredOnce({}, r.log, i, p);
      SettledSo(g, r, caller, i, p);
    }
    forall i: nat, p: nat | i < |r.log| && r.log[i] == Released(p)
      ensures TakenBefore(r.log, i, p, {})
    {
      ReleasedOnce({}, r.log, i, p);
    }
  }

  /** What has become of the buffer that pool call `i` handed out. */
  ghost predicate Settled(g: Graph, st: State, i: nat, p: nat) {
    || (exists j :: i < j < |st.log| && st.log[j] == Released(p) && Untouched(st.log, p, i, j))
    || ((exists j: nat :: Keeps(g, st, j) && st.tensors[j].ptr == p) && Untouched(st.log, p, i, |st.log|))
  }

  lemma SettledSo(g: Graph, st: State, caller: set<nat>, i: nat, p: nat)
    requires Idle(g, caller, st) && GivenBackOnce(st.log, i, p, st.live - caller)
    ensures Settled(g, st, i, p)
  {
  }
}
