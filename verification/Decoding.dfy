/** What the engine is meant to compute: a deterministic target model folded over
    the tokens it has consumed, and greedy decoding from it. */
module Decoding {
  import opened Checkpoint

  type Row(==, !new, 0)
  type Hidden(==, !new, 0)

  /** One MTP cache entry: a token with the target hidden state before it. */
  datatype MtpEntry = MtpEntry(token: nat, hidden: Hidden)

  /** What one target step yields: its KV row, the new recurrent buffers, and the
      hidden state. */
  datatype StepOut = StepOut(row: Row, buffers: Buffers, hidden: Hidden)

  /** What the draft model proposes after its newest cache entry. */
  datatype DraftOut = DraftOut(token: nat, hidden: Hidden)

  /** The loaded models and the configuration.  `top` is the arg-max of the
      language-model head. */
  datatype Model = Model(step: (seq<Row>, Buffers, nat) -> StepOut, initial: Buffers, zero: Hidden,
                         top: Hidden -> nat, draft: seq<MtpEntry> -> DraftOut,
                         context: nat, hasMtp: bool, draftTokens: int, chunkLimit: int)

  predicate MtpOn(m: Model) {
    m.hasMtp && m.draftTokens > 0
  }

  /** Kernels update recurrent buffers in place: identities and sizes stay. */
  ghost predicate KeepsLayout(m: Model) {
    forall rows: seq<Row>, b: Buffers, t: nat :: SameLayout(b, m.step(rows, b, t).buffers)
  }

  /** The target model's state after a token sequence. */
  datatype Trace = Trace(rows: seq<Row>, buffers: Buffers, hidden: seq<Hidden>)

  function Fold(m: Model, tokens: seq<nat>): (r: Trace)
    ensures |r.rows| == |r.hidden| == |tokens|
  {
    if tokens == [] then Trace([], m.initial, [])
    else
      var f := Fold(m, tokens[..|tokens| - 1]);
      var s := m.step(f.rows, f.buffers, tokens[|tokens| - 1]);
      Trace(f.rows + [s.row], s.buffers, f.hidden + [s.hidden])
  }

  lemma FoldSnoc(m: Model, tokens: seq<nat>, t: nat)
    ensures var f := Fold(m, tokens);
            var s := m.step(f.rows, f.buffers, t);
            Fold(m, tokens + [t]) == Trace(f.rows + [s.row], s.buffers, f.hidden + [s.hidden])
  {
    assert (tokens + [t])[..|tokens|] == tokens;
  }

  /** A longer run extends a shorter one. */
  lemma {:induction false} FoldPrefix(m: Model, a: seq<nat>, b: seq<nat>)
    ensures Fold(m, a).rows == Fold(m, a + b).rows[..|a|]
    ensures Fold(m, a).hidden == Fold(m, a + b).hidden[..|a|]
  {
    if b == [] {
      assert a + b == a;
    } else {
      var c := b[..|b| - 1];
      FoldPrefix(m, a, c);
      assert a + b == (a + c) + [b[|b| - 1]];
      FoldSnoc(m, a + c, b[|b| - 1]);
    }
  }

  lemma {:induction false} FoldLayout(m: Model, tokens: seq<nat>)
    requires KeepsLayout(m)
    ensures SameLayout(m.initial, Fold(m, tokens).buffers)
  {
    if tokens != [] {
      FoldLayout(m, tokens[..|tokens| - 1]);
    }
  }

  /** The training alignment of the MTP stream: entry `i` pairs token `i + 1`
      with hidden state `i`. */
  function Pairs(m: Model, tokens: seq<nat>): (r: seq<MtpEntry>)
    ensures |r| == if tokens == [] then 0 else |tokens| - 1
  {
    if tokens == [] then []
    else seq(|tokens| - 1, i requires 0 <= i < |tokens| - 1 => MtpEntry(tokens[i + 1], Fold(m, tokens).hidden[i]))
  }

  /** More tokens only append entries. */
  lemma PairsPrefix(m: Model, tokens: seq<nat>, n: nat)
    requires n <= |tokens|
    ensures Pairs(m, tokens[..n]) == Pairs(m, tokens)[..|Pairs(m, tokens[..n])|]
    ensures Fold(m, tokens[..n]).hidden == Fold(m, tokens).hidden[..n]
  {
    assert tokens[..n] + tokens[n..] == tokens;
    FoldPrefix(m, tokens[..n], tokens[n..]);
  }

  lemma PairAt(m: Model, tokens: seq<nat>, i: nat)
    requires 0 < i < |tokens|
    ensures Pairs(m, tokens)[i - 1] == MtpEntry(tokens[i], Fold(m, tokens).hidden[i - 1])
  {
  }

  /** The hidden states one step behind the tokens, from index `first` on. */
  function Shifted(hidden: seq<Hidden>, before: Hidden, first: nat): (r: seq<Hidden>)
    requires first <= |hidden|
    ensures |r| == |hidden| - first
  {
    seq(|hidden| - first, j requires 0 <= j < |hidden| - first =>
      if first + j == 0 then before else hidden[first + j - 1])
  }

  function Zip(tokens: seq<nat>, hidden: seq<Hidden>): (r: seq<MtpEntry>)
    requires |tokens| == |hidden|
    ensures |r| == |tokens|
  {
    seq(|tokens|, i requires 0 <= i < |tokens| => MtpEntry(tokens[i], hidden[i]))
  }

  /** The entries still missing after `position` consumed tokens, the first
      `first` new ones left out, pair the new tokens with the shifted states. */
  lemma MissingPairs(m: Model, tokens: seq<nat>, position: nat, before: Hidden, first: nat)
    requires position < |tokens| && first <= |tokens| - position && position + first > 0
    requires position > 0 ==> before == Fold(m, tokens).hidden[position - 1]
    ensures Pairs(m, tokens)[position + first - 1..] ==
            Zip(tokens[position + first..], Shifted(Fold(m, tokens).hidden[position..], before, first))
  {
    hide Fold, Pairs;
    var hidden, at := Fold(m, tokens).hidden, position + first;
    var late := Shifted(hidden[position..], before, first);
    forall j | 0 <= j < |tokens| - at
      ensures Pairs(m, tokens)[at - 1 + j] == MtpEntry(tokens[at..][j], late[j])
    {
      PairAt(m, tokens, at + j);
      assert late[j] == hidden[at + j - 1];
    }
  }

  /** The draft model's own greedy proposals, `current` and `state` going into the next
      entry (engine/engine.cpp:1613-1674). */
  function Drafts(m: Model, entries: seq<MtpEntry>, current: nat, state: Hidden, count: int): (r: seq<nat>)
    ensures |r| == if count > 0 then count else 0
    decreases count
  {
    if count <= 0 then []
    else
      var now := entries + [MtpEntry(current, state)];
      var d := m.draft(now);
      [d.token] + Drafts(m, now, d.token, d.hidden, count - 1)
  }

  lemma NextDraft(m: Model, entries: seq<MtpEntry>, current: nat, state: Hidden, count: int)
    ensures count <= 0 ==> Drafts(m, entries, current, state, count) == []
    ensures count > 0 ==>
      var now := entries + [MtpEntry(current, state)];
      var d := m.draft(now);
      Drafts(m, entries, current, state, count) == [d.token] + Drafts(m, now, d.token, d.hidden, count - 1)
  {
  }

  // ---- greedy decoding ----

  function GreedyNext(m: Model, tokens: seq<nat>): nat
    requires tokens != []
  {
    m.top(Fold(m, tokens).hidden[|tokens| - 1])
  }

  /** The reply of plain decoding: at most `n` tokens, ending at the first `eos`. */
  function Greedy(m: Model, tokens: seq<nat>, n: nat, eos: int): (r: seq<nat>)
    requires tokens != []
    ensures |r| <= n && (n > 0 ==> r != [])
    ensures forall i :: 0 <= i < |r| - 1 ==> r[i] != eos
    decreases n
  {
    if n == 0 then []
    else
      var t := GreedyNext(m, tokens);
      if t == eos then [t] else [t] + Greedy(m, tokens + [t], n - 1, eos)
  }

  /** Element `i` of a greedy reply is the greedy choice after the first `i`. */
  lemma {:induction false} GreedyAt(m: Model, tokens: seq<nat>, n: nat, eos: int, i: nat)
    requires tokens != [] && i < |Greedy(m, tokens, n, eos)|
    ensures Greedy(m, tokens, n, eos)[i] == GreedyNext(m, tokens + Greedy(m, tokens, n, eos)[..i])
    decreases n
  {
    hide GreedyNext;
    var r := Greedy(m, tokens, n, eos);
    if i == 0 {
      assert tokens + r[..0] == tokens;
    } else {
      var t := r[0];
      GreedyAt(m, tokens + [t], n - 1, eos, i - 1);
      assert r[1..][..i - 1] == r[1..i];
      assert tokens + [t] + r[1..i] == tokens + r[..i];
    }
  }

  /** A run of greedy choices is how a greedy reply begins, and what remains is
      the greedy reply after it. */
  predicate GreedyRun(m: Model, tokens: seq<nat>, out: seq<nat>, eos: int)
    requires tokens != []
  {
    && (forall i :: 0 <= i < |out| ==> out[i] == GreedyNext(m, tokens + out[..i]))
    && (forall i :: 0 <= i < |out| - 1 ==> out[i] != eos)
  }

  lemma RunTail(m: Model, tokens: seq<nat>, out: seq<nat>, eos: int)
    requires tokens != [] && GreedyRun(m, tokens, out, eos) && out != []
    ensures GreedyRun(m, tokens + [out[0]], out[1..], eos)
  {
    hide GreedyNext;
    var rest := out[1..];
    forall i | 0 <= i < |rest|
      ensures rest[i] == GreedyNext(m, tokens + [out[0]] + rest[..i])
    {
      assert tokens + [out[0]] + rest[..i] == tokens + out[..i + 1];
    }
  }

  lemma {:induction false} GreedyRunContinues(m: Model, tokens: seq<nat>, out: seq<nat>, n: nat, eos: int)
    requires tokens != [] && GreedyRun(m, tokens, out, eos) && 0 < |out| <= n
    ensures Greedy(m, tokens, n, eos) ==
            if out[|out| - 1] == eos then out
            else out + Greedy(m, tokens + out, n - |out|, eos)
    decreases |out|
  {
    hide GreedyNext, Greedy, GreedyRun;
    RunHead(m, tokens, out, n, eos);
    if |out| > 1 {
      RunTail(m, tokens, out, eos);
      GreedyRunContinues(m, tokens + [out[0]], out[1..], n - 1, eos);
      Grouped([out[0]], out[1..], Greedy(m, tokens + out, n - |out|, eos));
    } else {
      assert out == [out[0]];
    }
  }

  lemma Grouped(a: seq<nat>, b: seq<nat>, c: seq<nat>)
    ensures a + (b + c) == a + b + c
  {
  }

  /** The first token of a greedy run is that of the greedy reply. */
  lemma RunHead(m: Model, tokens: seq<nat>, out: seq<nat>, n: nat, eos: int)
    requires tokens != [] && GreedyRun(m, tokens, out, eos) && 0 < |out| <= n
    ensures out == [out[0]] + out[1..] && tokens + [out[0]] + out[1..] == tokens + out && (|out| > 1 ==> out[0] != eos)
    ensures Greedy(m, tokens, n, eos) == if out[0] == eos then [out[0]] else [out[0]] + Greedy(m, tokens + [out[0]], n - 1, eos)
  {
    hide GreedyNext;
    assert tokens + out[..0] == tokens;
    assert out[0] == GreedyNext(m, tokens);
  }
}
