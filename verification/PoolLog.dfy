/** The calls that the executor makes of the buffer pool, in order: what is given
    back was handed out and is out, and nothing is given back twice. */
module PoolLog {
  import opened Wrappers
  import opened Graph
  import opened Liveness
  import opened Executor
  import opened ExecutorMemory
  import opened ExecutorRun
  import opened Passes

  /** The buffers that are out after `log`; None if one is handed out that is out, or
      given back that is not. */
  function Replay(out: set<nat>, log: seq<PoolCall>): Option<set<nat>> {
    if log == [] then Some(out)
    else
      match Replay(out, log[..|log| - 1])
      case None => None
      case Some(now) => Called(now, log[|log| - 1])
  }

  function Called(now: set<nat>, call: PoolCall): Option<set<nat>> {
    match call
    case Acquired(p) => if p in now then None else Some(now + {p})
    case Released(p) => if p in now then Some(now - {p}) else None
  }

  lemma ReplayOne(out: set<nat>, log: seq<PoolCall>, call: PoolCall)
    ensures Replay(out, log + [call]) == match Replay(out, log) case None => None case Some(now) => Called(now, call)
  {
    assert (log + [call])[..|log|] == log;
  }

  // ---- what a replayed log says of each buffer ----

  /** As many releases as acquisitions, but for what was out before and is still. */
  lemma {:induction false} Balanced(out: set<nat>, log: seq<PoolCall>, p: nat)
    requires Replay(out, log).Some?
    ensures multiset(log)[Acquired(p)] + (if p in out then 1 else 0) ==
            multiset(log)[Released(p)] + (if p in Replay(out, log).value then 1 else 0)
  {
    if log != [] {
      Balanced(out, log[..|log| - 1], p);
      assert log == log[..|log| - 1] + [log[|log| - 1]];
    }
  }

  predicate Concerns(call: PoolCall, p: nat) {
    call == Acquired(p) || call == Released(p)
  }

  /** No call between `i` and `j` is about `p`. */
  predicate Untouched(log: seq<PoolCall>, p: nat, i: nat, j: nat) {
    forall k :: i < k < j && k < |log| ==> !Concerns(log[k], p)
  }

  /** The buffer handed out by call `i` is given back by the next call about it, or
      never and is still out. */
  predicate GivenBackOnce(log: seq<PoolCall>, i: nat, p: nat, now: set<nat>) {
    || (exists j :: i < j < |log| && log[j] == Released(p) && Untouched(log, p, i, j))
    || (p in now && Untouched(log, p, i, |log|))
  }

  lemma {:induction false} AcquiredOnce(out: set<nat>, log: seq<PoolCall>, i: nat, p: nat)
    requires Replay(out, log).Some? && i < |log| && log[i] == Acquired(p)
    ensures GivenBackOnce(log, i, p, Replay(out, log).value)
    decreases |log|
  {
    var n := |log| - 1;
    var before := log[..n];
    if i < n {
      AcquiredOnce(out, before, i, p);
      assert forall k :: 0 <= k < n ==> before[k] == log[k];
      if j :| i < j < n && before[j] == Released(p) && Untouched(before, p, i, j) {
        assert Untouched(log, p, i, j);
      } else if log[n] == Released(p) {
        assert Untouched(log, p, i, n);
      }
    }
  }

  /** And every release is of a buffer handed out before, and not since given back,
      or out from the beginning. */
  predicate TakenBefore(log: seq<PoolCall>, j: nat, p: nat, out: set<nat>) {
    || (exists i :: 0 <= i < j < |log| && log[i] == Acquired(p) && Untouched(log, p, i, j))
    || (p in out && forall k :: 0 <= k < j && k < |log| ==> !Concerns(log[k], p))
  }

  lemma {:induction false} OutSince(out: set<nat>, log: seq<PoolCall>, j: nat, p: nat)
    requires Replay(out, log).Some? && j == |log| && p in Replay(out, log).value
    ensures (p in out && forall k :: 0 <= k < |log| ==> !Concerns(log[k], p))
      || exists i :: 0 <= i < |log| && log[i] == Acquired(p) && Untouched(log, p, i, |log|)
    decreases |log|
  {
    if log != [] {
      var n := |log| - 1;
      var before := log[..n];
      if log[n] == Acquired(p) {
        assert Untouched(log, p, n, |log|);
      } else {
        OutSince(out, before, n, p);
        assert forall k :: 0 <= k < n ==> before[k] == log[k];
        if i :| 0 <= i < n && before[i] == Acquired(p) && Untouched(before, p, i, n) {
          assert Untouched(log, p, i, |log|);
        }
      }
    }
  }

  lemma {:induction false} ReplayPrefix(out: set<nat>, log: seq<PoolCall>, n: nat)
    requires n <= |log| && Replay(out, log).Some?
    ensures Replay(out, log[..n]).Some?
    decreases |log|
  {
    if n < |log| {
      ReplayPrefix(out, log[..|log| - 1], n);
      assert log[..|log| - 1][..n] == log[..n];
    } else {
      assert log[..n] == log;
    }
  }

  lemma ReleasedOnce(out: set<nat>, log: seq<PoolCall>, j: nat, p: nat)
    requires Replay(out, log).Some? && j < |log| && log[j] == Released(p)
    ensures TakenBefore(log, j, p, out)
  {
    ReplayPrefix(out, log, j + 1);
    ReplayPrefix(out, log, j);
    var before := log[..j];
    assert log[..j + 1] == before + [log[j]];
    ReplayOne(out, before, log[j]);
    OutSince(out, before, j, p);
    assert forall k :: 0 <= k < j ==> before[k] == log[k];
    if i :| 0 <= i < j && before[i] == Acquired(p) && Untouched(before, p, i, j) {
      assert Untouched(log, p, i, j);
    }
  }

  // ---- the executor's log replays ----

  /** The caller's buffers are live, and the log leads from `out` to the rest of what
      is live: the caller's are not in it. */
  ghost predicate Sealed(caller: set<nat>, out: set<nat>, st: State) {
    caller <= st.live && Replay(out, st.log) == Some(st.live - caller)
  }

  lemma AllocateSeals(g: Graph, env: Env, st: State, j: nat, caller: set<nat>, out: set<nat>)
    requires PoolOk(env) && j < |g.nodes| == |st.tensors| && Sealed(caller, out, st)
    ensures Sealed(caller, out, AllocateOutput(g, env, st, j))
  {
    if st.tensors[j].Empty? && !Borrows(g, env, j) && env.acquire(j, st.live).Some? {
      var p := env.acquire(j, st.live).value;
      ReplayOne(out, st.log, Acquired(p));
      assert st.live + {p} - caller == st.live - caller + {p};
    }
  }

  /** Dispatch makes no call of the pool. */
  lemma DispatchCallsNone(g: Graph, env: Env, st: State, j: nat)
    requires WellFormed(g) && j < |g.nodes| == |st.tensors|
    ensures Dispatch(g, env, st, j).live == st.live && Dispatch(g, env, st, j).log == st.log
  {
  }

  lemma MaterializeSeals(g: Graph, env: Env, st: State, j: nat, caller: set<nat>, out: set<nat>)
    requires PoolOk(env) && WellFormed(g) && j < |g.nodes| == |st.tensors| && Sealed(caller, out, st)
    ensures Sealed(caller, out, Materialize(g, env, st, j))
  {
    hide Dispatch;
    AllocateSeals(g, env, st, j, caller, out);
    DispatchCallsNone(g, env, AllocateOutput(g, env, st, j), j);
  }

  lemma MoeFusedCallsNone(g: Graph, env: Env, st: State, m: nat, p: nat, c: nat)
    requires WellFormed(g) && m < |g.nodes| == |st.tensors| && p < |g.nodes| && c < |g.nodes|
    ensures MoeFused(g, env, st, m, p, c).live == st.live && MoeFused(g, env, st, m, p, c).log == st.log
  {
    hide Dispatch;
    var x, rest := g.nodes[m].inputs, Tail(g.nodes[p]);
    var carry := env.kernel(p, [env.kernel(m, ReadAll(env, st, x))] + ReadAll(env, st, rest));
    DispatchCallsNone(g, env, Store(Store(CheckReads(st, x + rest), m, env.garbage), p, carry), c);
  }

  lemma InjectCallsNone(g: Graph, env: Env, st: State, pend: Pending, c: nat)
    requires WellFormed(g) && 0 <= pend.inject < c < |g.nodes| == |st.tensors| && pend.moe < c
    ensures InjectStep(g, env, st, pend, c).0.live == st.live && InjectStep(g, env, st, pend, c).0.log == st.log
  {
    hide Dispatch, MoeFused;
    if pend.moe >= 0 && c in env.acceptMoe {
      MoeFusedCallsNone(g, env, st, pend.moe, pend.inject, c);
    } else {
      var s := if pend.moe >= 0 then Dispatch(g, env, st, pend.moe) else st;
      if pend.moe >= 0 {
        DispatchCallsNone(g, env, st, pend.moe);
      }
      DispatchCallsNone(g, env, s, pend.inject);
      DispatchCallsNone(g, env, Dispatch(g, env, s, pend.inject), c);
    }
  }

  lemma UpSeals(g: Graph, env: Env, st: State, c: nat, caller: set<nat>, out: set<nat>)
    requires PoolOk(env) && WellFormed(g) && 2 <= c < |g.nodes| == |st.tensors| && Sealed(caller, out, st)
    ensures Sealed(caller, out, UpStep(g, env, st, c).0)
  {
    hide Materialize;
    MaterializeSeals(g, env, st, c - 2, caller, out);
  }

  lemma GateSeals(g: Graph, env: Env, st: State, c: nat, caller: set<nat>, out: set<nat>)
    requires PoolOk(env) && WellFormed(g) && 0 < c < |g.nodes| == |st.tensors| && Sealed(caller, out, st)
    ensures Sealed(caller, out, GateStep(g, env, st, c).0)
  {
    hide Materialize;
    MaterializeSeals(g, env, st, c - 1, caller, out);
  }

  lemma BlockSeals(g: Graph, env: Env, i: nat, st: State, pend: Pending, f: Flags, caller: set<nat>, out: set<nat>)
    requires PoolOk(env) && WellFormed(g) && i < |g.nodes| == |st.tensors| && FlagsOk(i, pend, f) && Sealed(caller, out, st)
    ensures Sealed(caller, out, DispatchBlock(g, env, i, st, pend, f))
  {
    hide UpStep, InjectStep, GateStep, Dispatch, Replay;
    var (s0, done0) := if f.up then UpStep(g, env, st, i) else (st, false);
    if f.up {
      UpSeals(g, env, st, i, caller, out);
    }
    if !s0.failed {
      var (s1, done1) := if f.inject then InjectStep(g, env, s0, pend, i) else (s0, done0);
      if f.inject {
        InjectCallsNone(g, env, s0, pend, i);
      }
      var (s2, done2) := if f.gate && !done1 then GateStep(g, env, s1, i) else (s1, done1);
      if f.gate && !done1 {
        GateSeals(g, env, s1, i, caller, out);
      }
      DispatchCallsNone(g, env, s2, i);
    }
  }

  lemma ComputeSeals(g: Graph, env: Env, i: nat, st: State, pend: Pending, f: Flags, caller: set<nat>, out: set<nat>)
    requires PoolOk(env) && WellFormed(g) && i < |g.nodes| == |st.tensors| && FlagsOk(i, pend, f) && Sealed(caller, out, st)
    ensures Sealed(caller, out, Compute(g, env, i, st, pend, f))
  {
    hide DispatchBlock, AllocateOutput, Replay;
    AllocateSeals(g, env, st, i, caller, out);
    var s1 := if f.deferSigmoid || f.deferUp then st else AllocateOutput(g, env, st, i);
    assert |s1.tensors| == |st.tensors| by {
      AllocatedSize(g, env, st, i);
    }
    BlockSeals(g, env, i, s1, pend, f, caller, out);
  }

  lemma AllocatedSize(g: Graph, env: Env, st: State, j: nat)
    requires j < |g.nodes| == |st.tensors|
    ensures |AllocateOutput(g, env, st, j).tensors| == |st.tensors|
  {
  }

  /** Releases that touch nothing dead and nothing of the caller's. */
  lemma {:induction false} ReleasesSeal(g: Graph, judge: State, cleanup: bool, st: State, batch: seq<nat>, k: nat,
                                        caller: set<nat>, out: set<nat>)
    requires WellFormed(g) && |g.nodes| == |st.tensors| == |judge.tensors| && k <= |batch|
    requires forall i :: 0 <= i < |batch| ==> batch[i] < |g.nodes|
    requires Sealed(caller, out, st)
    requires var r := ReleaseFirst(g, judge, cleanup, st, batch, k); !r.fault && caller <= r.live
    ensures Sealed(caller, out, ReleaseFirst(g, judge, cleanup, st, batch, k))
  {
    if k > 0 {
      var s, j := ReleaseFirst(g, judge, cleanup, st, batch, k - 1), batch[k - 1];
      var borrowed := LooksBorrowed(g, judge, j, cleanup);
      hide LooksBorrowed, ReleaseFirst, Replay;
      OneRelease(g, s, j, borrowed, caller, out);
      ReleasesSeal(g, judge, cleanup, st, batch, k - 1, caller, out);
    }
  }

  lemma OneRelease(g: Graph, st: State, j: nat, borrowed: bool, caller: set<nat>, out: set<nat>)
    requires j < |g.nodes| == |st.tensors|
    requires !ReleaseOne(g, st, j, borrowed).fault && caller <= ReleaseOne(g, st, j, borrowed).live
    ensures !st.fault && caller <= st.live
    ensures Sealed(caller, out, st) ==> Sealed(caller, out, ReleaseOne(g, st, j, borrowed))
  {
    var t := st.tensors[j];
    if !IsSource(g.nodes[j]) && t.Buf? && !borrowed {
      ReplayOne(out, st.log, Released(t.ptr));
      assert st.live - {t.ptr} - caller == st.live - caller - {t.ptr};
    }
  }

  lemma StepSeals(x: Pass, last: nat, i: nat, st: State, pend: Pending, out: set<nat>)
    requires PassOk(x) && i < |x.g.nodes| == |st.tensors| && QueueShape(x.g, x.env.queue) && PendingBehind(i, pend)
    requires Sealed(x.start.live, out, st)
    requires var r := Step(x.g, x.env, last, i, st, pend).0; !r.fault && x.start.live <= r.live
    ensures Sealed(x.start.live, out, Step(x.g, x.env, last, i, st, pend).0)
  {
    if !IsSource(x.g.nodes[i]) {
      var f := FlagsAt(x.g, x.env, last, i, pend);
      hide Compute, FlagsAt, ReleaseFirst, BatchAfter, Replay;
      ComputeSeals(x.g, x.env, i, st, pend, f, x.start.live, out);
      var s := Compute(x.g, x.env, i, st, pend, f);
      if !s.failed {
        var batch := BatchAfter(x.g, x.env, i, pend, f);
        ReleasesSeal(x.g, s, false, s, batch, |batch|, x.start.live, out);
      }
    }
  }

  /** The loop invariant gives what the log needs at each step. */
  lemma {:induction false} RunSeals(x: Pass, last: nat, done: set<nat>, i: nat, st: State, pend: Pending, out: set<nat>)
    requires At(x, last, done, i, st, pend) && Sealed(x.start.live, out, st)
    ensures Sealed(x.start.live, out, Run(x.g, x.env, last, i, st, pend).0)
    decreases last + 1 - i
  {
    hide Step, Covers, PendingOk, EliminableExact, RowsConsistent, Owns, Sealed, NodesInv, OneOwner;
    if i <= last {
      var done1 := StepKeeps(x, last, done, i, st, pend);
      var (s, p) := Step(x.g, x.env, last, i, st, pend);
      StepSeals(x, last, i, st, pend, out);
      if !s.failed {
        RunSeals(x, last, done1, i + 1, s, p, out);
      }
    }
  }

  lemma SegmentSeals(x: Pass, first: nat, last: nat, done: set<nat>, st: State, out: set<nat>)
    requires Running(x, done, first, st) && EliminableExact(x) && RowsConsistent(x) && first <= last < |x.g.nodes|
    requires Sealed(x.start.live, out, st)
    ensures Sealed(x.start.live, out, Run(x.g, x.env, last, first, st, NONE).0)
  {
    hide Run, Inv, EliminableExact, RowsConsistent, Sealed;
    RunSeals(x, last, done, first, st, NONE, out);
  }

  lemma {:induction false} SegmentsSeal(x: Pass, first: nat, ends: seq<nat>, done: set<nat>, st: State, out: set<nat>)
    requires Running(x, done, first, st) && EliminableExact(x) && RowsConsistent(x) && Cuts(x.g, first, ends)
    requires Sealed(x.start.live, out, st)
    ensures Sealed(x.start.live, out, RunSegments(x.g, x.env, first, ends, st))
    decreases |ends|
  {
    hide *;
    MayRun(x, done, first, st);
    FirstOfSegments(x.g, x.env, first, ends, st);
    if ends != [] {
      SegmentSeals(x, first, ends[0] - 1, done, st, out);
      var done1 := SegmentKeeps(x, first, ends[0] - 1, done, st);
      var s := Run(x.g, x.env, ends[0] - 1, first, st, NONE).0;
      if s.failed {
        FailedStays(x.g, x.env, ends[0], ends[1..], s);
      } else {
        SegmentsSeal(x, ends[0], ends[1..], done1, s, out);
      }
    }
  }

  /** So do the resets, in either mode. */
  lemma ResetSeals(x: Pass, st: State, done: set<nat>, cleanup: bool, reuse: bool, out: set<nat>)
    requires Inv(x, st, done, 0) && Sealed(x.start.live, out, st)
    ensures Sealed(x.start.live, out, ResetTensors(x.g, st, cleanup, reuse))
  {
    if !reuse {
      ResetReturnsEverything(x, st, done, cleanup);
      var s, ops := ClearBorrowed(x.g, st, cleanup, st, |x.g.nodes|), Operators(x.g, |x.g.nodes|);
      hide Inv, ReleaseFirst, ClearBorrowed, Operators, Replay, PassOk;
      ReleasesSeal(x.g, st, cleanup, s, ops, |ops|, x.start.live, out);
    }
  }
}
