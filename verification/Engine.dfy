/** The inference engine of engine/engine.cpp: prefill, decode and speculative
    decoding over a KV cache whose tail may hold anything. */
module Engine {
  import opened Wrappers
  import opened Checkpoint
  import opened Decoding

  function Max(a: int, b: int): int { if a >= b then a else b }
  function Min(a: int, b: int): int { if a <= b then a else b }

  /** Every draft is output until one is the stop token or differs from the output in
      its place: the step takes as many drafts as it may. */
  predicate AllAccepted(drafts: seq<nat>, outputs: seq<nat>, stop: int) {
    && 1 <= |outputs| <= |drafts| + 1
    && (forall i :: 0 <= i < |outputs| - 1 ==> outputs[i] == drafts[i])
    && var n := |outputs|; n <= |drafts| ==> outputs[n - 1] == stop || outputs[n - 1] != drafts[n - 1]
  }

  class LLMEngine {
    const m: Model
    /** Greedy without penalties: sampling is an arg-max (engine/sampler.cpp:246-254). */
    var plain: bool
    /** The recurrent buffers as the engine lists them, null and repeats included. */
    const states: seq<Option<nat>>

    const kv: array<Row>
    const mtp: array<MtpEntry>
    var past: nat
    var buffers: Buffers
    var mtpPast: nat
    var pending: Option<Hidden>
    var history: seq<nat>

    /** The two caches are different buffers. */
    predicate Separate() {
      var a: object, b: object := kv, mtp;
      a != b
    }

    /** The tokens the target model has consumed since the last reset. */
    ghost var consumed: seq<nat>

    /** The target side: the KV prefix and recurrent buffers are those of `consumed`;
        the rest of the KV cache is unconstrained. */
    ghost predicate TargetValid()
      reads this, kv
    {
      && Separate() && KeepsLayout(m) && (forall id <- m.initial :: Some(id) in states)
      && (forall i :: 0 <= i < |states| && states[i].Some? ==> states[i].value in m.initial)
      && past == |consumed| <= kv.Length == m.context
      && kv[..past] == Fold(m, consumed).rows
      && buffers == Fold(m, consumed).buffers
    }

    lemma PastIsConsumed()
      requires Valid()
      ensures past == |consumed| <= m.context
    {
    }

    /** The MTP side: the cache holds exactly the shifted pairs, and the pending
        row is the hidden state of the last verified token. */
    ghost predicate MtpValid()
      reads this, mtp
    {
      && mtp.Length == m.context && mtpPast == Max(0, |consumed| - 1) <= mtp.Length
      && mtp[..mtpPast] == Pairs(m, consumed)
      && (consumed != [] ==> pending == Some(Fold(m, consumed).hidden[|consumed| - 1]))
    }

    ghost predicate Valid()
      reads this, kv, mtp
    {
      TargetValid() && history == consumed && mtp.Length == m.context && (MtpOn(m) ==> MtpValid())
    }

    constructor (model: Model, greedy: bool, listed: seq<Option<nat>>, kv0: array<Row>, mtp0: array<MtpEntry>)
      requires KeepsLayout(model) && (forall id <- model.initial :: Some(id) in listed)
      requires forall i :: 0 <= i < |listed| && listed[i].Some? ==> listed[i].value in model.initial
      requires kv0.Length == mtp0.Length == model.context
      requires var a: object, b: object := kv0, mtp0; a != b
      ensures Valid() && consumed == [] && m == model && plain == greedy && pending == None
      ensures kv == kv0 && mtp == mtp0
    {
      m, plain, states, kv, mtp := model, greedy, listed, kv0, mtp0;
      past, buffers, mtpPast, pending, history, consumed := 0, model.initial, 0, None, [], [];
    }

    /** reset, engine/engine.cpp:279-333: lengths and recurrent buffers only; the
        KV payload stays behind. */
    method Reset()
      requires Valid()
      modifies this
      ensures Valid() && consumed == [] && plain == old(plain)
      ensures pending == if old(pending).Some? then Some(m.zero) else None
    {
      past, mtpPast, buffers, history := 0, 0, m.initial, [];
      if pending.Some? {
        pending := Some(m.zero);
      }
      consumed := [];
    }

    /** set_sampling_params, engine/engine.h:217-222: the history stays. */
    method SetSampling(greedy: bool)
      requires Valid()
      modifies this`plain
      ensures Valid() && plain == greedy
    {
      plain := greedy;
    }

    /** One token through the target graph. */
    method AppendToken(token: nat) returns (hidden: Hidden)
      requires TargetValid() && past < m.context
      modifies this`past, this`buffers, this`consumed, kv
      ensures TargetValid() && consumed == old(consumed) + [token]
      ensures Fold(m, consumed).hidden == Fold(m, old(consumed)).hidden + [hidden]
    {
      var s := m.step(kv[..past], buffers, token);
      FoldSnoc(m, consumed, token);
      ghost var before := kv[..past];
      kv[past] := s.row;
      assert kv[..past] == before;
      assert kv[..past + 1] == before + [s.row];
      past, buffers, hidden := past + 1, s.buffers, s.hidden;
      consumed := consumed + [token];
    }

    /** The target graph over one batch (run_graph with the cache length set to
        `past`): appends a KV row and updates the recurrent buffers per token.
        `snapshots` is what a backend that captures state prefixes would hold. */
    method RunTarget(tokens: seq<nat>) returns (hidden: seq<Hidden>, snapshots: seq<Buffers>)
      requires TargetValid() && |tokens| <= m.context - past
      modifies this`past, this`buffers, this`consumed, kv
      ensures TargetValid() && consumed == old(consumed) + tokens
      ensures |hidden| == |tokens| && Fold(m, consumed).hidden == Fold(m, old(consumed)).hidden + hidden
      ensures |snapshots| == |tokens|
      ensures forall k :: 0 <= k < |tokens| ==> snapshots[k] == Fold(m, old(consumed) + tokens[..k + 1]).buffers
    {
      hide Fold, KeepsLayout;
      hidden, snapshots := [], [];
      for i := 0 to |tokens|
        invariant TargetValid() && consumed == old(consumed) + tokens[..i]
        invariant |hidden| == i && Fold(m, consumed).hidden == Fold(m, old(consumed)).hidden + hidden
        invariant |snapshots| == i
        invariant forall k :: 0 <= k < i ==> snapshots[k] == Fold(m, old(consumed) + tokens[..k + 1]).buffers
      {
        var h := AppendToken(tokens[i]);
        assert tokens[..i + 1] == tokens[..i] + [tokens[i]];
        assert consumed == old(consumed) + tokens[..i + 1];
        hidden, snapshots := hidden + [h], snapshots + [buffers];
      }
      assert tokens[..|tokens|] == tokens;
    }

    /** execute_mtp_tokens, engine/engine.cpp:777-901: appends entries at `position`. */
    method ExecuteMtp(tokens: seq<nat>, hidden: seq<Hidden>, position: nat)
      requires |tokens| == |hidden| && position + |tokens| <= mtp.Length
      modifies this`mtpPast, mtp
      ensures mtpPast == position + |tokens|
      ensures mtp[..position] == old(mtp[..position])
      ensures mtp[position..mtpPast] == Zip(tokens, hidden)
    {
      for i := 0 to |tokens|
        invariant forall j :: 0 <= j < position ==> mtp[j] == old(mtp[j])
        invariant forall j :: 0 <= j < i ==> mtp[position + j] == MtpEntry(tokens[j], hidden[j])
      {
        mtp[position + i] := MtpEntry(tokens[i], hidden[i]);
      }
      mtpPast := position + |tokens|;
    }

    /** Completes a synchronised cache. */
    method AppendEntries(tokens: seq<nat>, hidden: seq<Hidden>, position: nat, ghost want: seq<MtpEntry>)
      requires |tokens| == |hidden| && position + |tokens| <= mtp.Length && position <= |want|
      requires mtp[..position] == want[..position] && Zip(tokens, hidden) == want[position..]
      modifies this`mtpPast, mtp
      ensures mtpPast == |want| && mtp[..mtpPast] == want
    {
      hide Zip;
      ghost var kept := mtp[..position];
      ExecuteMtp(tokens, hidden, position);
      assert mtp[..mtpPast] == kept + mtp[position..mtpPast];
      assert want[..position] + want[position..] == want;
    }

    /** The caches after the target has consumed `tokens`, before sync_mtp: entries
        up to `position` are synchronised, and the first draft entry, if there is
        one to preserve, is that of the first token. */
    ghost predicate SyncReady(tokens: seq<nat>, hidden: seq<Hidden>, position: nat, preserved: nat)
      reads this, mtp
    {
      && mtp.Length == m.context && preserved <= 1
      && tokens != [] && position + |tokens| == |consumed| <= mtp.Length && consumed[position..] == tokens
      && hidden == Fold(m, consumed).hidden[position..]
      && (position > 0 ==> pending == Some(Fold(m, consumed).hidden[position - 1]))
      && Max(0, position - 1) + preserved <= mtpPast <= mtp.Length
      && mtp[..Max(0, position - 1)] == Pairs(m, consumed[..position])
      && (preserved == 1 && position > 0 ==>
           mtp[position - 1] == MtpEntry(tokens[0], Fold(m, consumed).hidden[position - 1]))
    }

    lemma ReadyToSync(start: seq<nat>, tokens: seq<nat>, hidden: seq<Hidden>, drafts: nat)
      requires mtp.Length == m.context && tokens != [] && consumed == start + tokens && |consumed| <= m.context
      requires Fold(m, consumed).hidden == Fold(m, start).hidden + hidden
      requires mtpPast == Max(0, |start| - 1) + drafts <= mtp.Length && pending.Some?
      requires |start| > 0 ==> pending == Some(Fold(m, start).hidden[|start| - 1])
      requires mtp[..Max(0, |start| - 1)] == Pairs(m, start)
      requires drafts > 0 ==> mtpPast > 0 && mtp[Max(0, |start| - 1)] == MtpEntry(tokens[0], pending.value)
      ensures SyncReady(tokens, hidden, |start|, if drafts > 0 then 1 else 0)
    {
      hide Fold, Pairs;
      SyncFits(start, tokens, hidden);
    }

    /** What is already right in the cache. */
    lemma SyncedPrefix(tokens: seq<nat>, position: nat, preserved: nat, resume: nat)
      requires tokens != [] && position + |tokens| == |consumed| <= mtp.Length && consumed[position..] == tokens && preserved <= 1
      requires mtp[..Max(0, position - 1)] == Pairs(m, consumed[..position])
      requires preserved == 1 && position > 0 ==>
        mtp[position - 1] == MtpEntry(tokens[0], Fold(m, consumed).hidden[position - 1])
      requires resume == if position == 0 then 0 else position - 1 + preserved
      ensures resume <= |Pairs(m, consumed)| && mtp[..resume] == Pairs(m, consumed)[..resume]
    {
      hide Fold, Pairs;
      var want := Pairs(m, consumed);
      PairsPrefix(m, consumed, position);
      if preserved == 1 && position > 0 {
        PairAt(m, consumed, position);
        assert tokens[0] == consumed[position];
        assert mtp[..position] == mtp[..position - 1] + [mtp[position - 1]];
        assert want[..position] == want[..position - 1] + [want[position - 1]];
      }
    }

    lemma SyncBounds(tokens: seq<nat>, hidden: seq<Hidden>, position: nat, preserved: nat)
      requires SyncReady(tokens, hidden, position, preserved)
      ensures tokens != [] && |hidden| == |tokens| && preserved <= 1 && position + |tokens| == |consumed| <= mtp.Length == m.context
      ensures Max(0, position - 1) + preserved <= mtpPast
      ensures hidden[|tokens| - 1] == Fold(m, consumed).hidden[|consumed| - 1]
      ensures position > 0 ==> pending == Some(Fold(m, consumed).hidden[position - 1])
    {
      hide Pairs;
    }

    /** Everything before entry `position + first - 1` is right, and this is what is
        still to be written. */
    lemma SyncPlan(tokens: seq<nat>, hidden: seq<Hidden>, position: nat, preserved: nat, first: nat, before: Hidden)
      requires SyncReady(tokens, hidden, position, preserved) && (position > 0 ==> Some(before) == pending)
      requires first == if position + preserved == 0 then 1 else preserved
      ensures first <= |tokens|
      ensures var want, resume := Pairs(m, consumed), Max(0, position + first - 1);
        && resume <= |want| == |consumed| - 1 && mtp[..resume] == want[..resume]
        && Zip(tokens[first..], Shifted(hidden, before, first)) == want[resume..]
        && (|tokens| == first ==> resume == |want| && want[..resume] == want)
    {
      hide Fold, Pairs, Zip, Shifted;
      SyncedPrefix(tokens, position, preserved, Max(0, position + first - 1));
      assert tokens[first..] == consumed[position + first..];
      MissingPairs(m, consumed, position, before, first);
    }

    /** sync_mtp, engine/engine.cpp:903-975.  `consumed` already includes `tokens`,
        which begin at `position`; with `preserved` the entry written for the first
        token while drafting is kept. */
    method SyncMtp(tokens: seq<nat>, hidden: seq<Hidden>, position: nat, preserved: nat) returns (ok: bool)
      requires MtpOn(m) && SyncReady(tokens, hidden, position, preserved)
      modifies this`mtpPast, this`pending, mtp
      ensures ok && MtpValid()
    {
      hide Fold, Pairs, Zip, Shifted;
      var n := |tokens|;
      SyncBounds(tokens, hidden, position, preserved);
      ghost var first, head := if position + preserved == 0 then 1 else preserved, if pending == None then m.zero else pending.value;
      SyncPlan(tokens, hidden, position, preserved, first, head);
      ghost var want := Pairs(m, consumed);
      hide SyncReady;
      if pending == None {
        pending := Some(m.zero);
      }
      var firstIndex := preserved;
      if position + firstIndex == 0 {
        firstIndex := firstIndex + 1;
      }
      var remaining := n - firstIndex;
      var resume := Max(0, position + firstIndex - 1);
      if preserved > 0 && mtpPast < resume {
        return false;
      }
      mtpPast := resume;
      if remaining > 0 {
        AppendEntries(tokens[firstIndex..], Shifted(hidden, pending.value, firstIndex), resume, want);
      }
      pending := Some(hidden[n - 1]);
      ok := true;
    }

    /** run_lmhead: the arg-max of the last row, or some draw from it. */
    method Sample(hidden: Hidden) returns (token: nat)
      ensures plain ==> token == m.top(hidden)
    {
      if plain {
        token := m.top(hidden);
      } else {
        token := *;
      }
    }

    /** prefill_hidden, engine/engine.cpp:1144-1334: neither the sampler nor the
        MTP cache is touched. */
    method PrefillHidden(tokens: seq<nat>) returns (hidden: Option<seq<Hidden>>, snapshots: seq<Buffers>)
      requires TargetValid()
      modifies this`past, this`buffers, this`consumed, kv
      ensures TargetValid()
      ensures hidden.Some? <==> tokens != [] && |tokens| <= m.context - old(past)
      ensures hidden.None? ==> consumed == old(consumed)
      ensures hidden.Some? ==>
        && consumed == old(consumed) + tokens
        && |hidden.value| == |tokens| == |snapshots|
        && Fold(m, consumed).hidden == Fold(m, old(consumed)).hidden + hidden.value
        && forall k :: 0 <= k < |tokens| ==> snapshots[k] == Fold(m, old(consumed) + tokens[..k + 1]).buffers
    {
      if tokens == [] || |tokens| > m.context - past {
        return None, [];
      }
      var h, s := RunTarget(tokens);
      hidden, snapshots := Some(h), s;
    }

    /** The MTP half of a verified batch: what prefill_chunk and decode do between
        running the graph and updating the length. */
    method Synchronize(tokens: seq<nat>, hidden: seq<Hidden>) returns (ok: bool)
      requires tokens != [] && |tokens| == |hidden| && |tokens| <= |consumed| == past <= m.context
      requires mtp.Length == m.context
      requires var start := |consumed| - |tokens|;
        && consumed[start..] == tokens
        && Fold(m, consumed).hidden == Fold(m, consumed[..start]).hidden + hidden
        && (MtpOn(m) ==> mtpPast == Max(0, start - 1) && mtp[..mtpPast] == Pairs(m, consumed[..start])
                         && (start > 0 ==> pending == Some(Fold(m, consumed[..start]).hidden[start - 1])))
      modifies this`mtpPast, this`pending, mtp
      ensures ok && (MtpOn(m) ==> MtpValid())
    {
      ok := true;
      if MtpOn(m) {
        ok := SyncMtp(tokens, hidden, past - |tokens|, 0);
      }
    }

    /** prefill_chunk, engine/engine.cpp:1336-1482. */
    method PrefillChunk(tokens: seq<nat>) returns (token: Option<nat>)
      requires TargetValid() && mtp.Length == m.context && (MtpOn(m) ==> MtpValid())
      requires tokens != [] && |tokens| <= m.context - past
      modifies this`past, this`buffers, this`consumed, this`mtpPast, this`pending, kv, mtp
      ensures TargetValid() && (MtpOn(m) ==> MtpValid()) && consumed == old(consumed) + tokens
      ensures token.Some? && (plain ==> token.value == GreedyNext(m, consumed))
    {
      hide Fold, Pairs, KeepsLayout;
      var hidden, _ := RunTarget(tokens);
      assert consumed[..|old(consumed)|] == old(consumed);
      var ok := Synchronize(tokens, hidden);
      if !ok {
        return None;
      }
      var t := Sample(hidden[|tokens| - 1]);
      token := Some(t);
    }

    /** prefill, engine/engine.cpp:1026-1142: any chunk limit, one result. */
    method Prefill(tokens: seq<nat>) returns (token: Option<nat>)
      requires Valid()
      modifies this`past, this`buffers, this`consumed, this`mtpPast, this`pending, this`history, kv, mtp
      ensures Valid()
      ensures token.Some? <==> tokens != [] && |tokens| <= m.context - old(past) && m.chunkLimit > 0
      ensures consumed == if token.Some? then old(consumed) + tokens else old(consumed)
      ensures token.Some? && plain ==> token.value == GreedyNext(m, consumed)
    {
      if tokens == [] || |tokens| > m.context - past || m.chunkLimit <= 0 {
        return None;
      }
      hide Fold, Pairs, KeepsLayout, GreedyNext;
      history := history + tokens;
      var offset := 0;
      token := None;
      while offset < |tokens|
        invariant 0 <= offset <= |tokens| && |tokens| - offset <= m.context - past
        invariant TargetValid() && mtp.Length == m.context && (MtpOn(m) ==> MtpValid())
        invariant consumed == old(consumed) + tokens[..offset] && history == old(history) + tokens
        invariant offset > 0 ==> token.Some? && (plain ==> token.value == GreedyNext(m, consumed))
      {
        var size := Min(|tokens| - offset, Min(m.chunkLimit, m.context - past));
        token := PrefillChunk(tokens[offset..offset + size]);
        assert tokens[..offset] + tokens[offset..offset + size] == tokens[..offset + size];
        offset := offset + size;
      }
      assert tokens[..|tokens|] == tokens;
    }

    /** decode, engine/engine.cpp:1484-1566. */
    method Decode(token: nat) returns (next: Option<nat>)
      requires Valid()
      modifies this`past, this`buffers, this`consumed, this`mtpPast, this`pending, this`history, kv, mtp
      ensures Valid()
      ensures next.Some? <==> old(past) < m.context
      ensures consumed == if next.Some? then old(consumed) + [token] else old(consumed)
      ensures next.Some? && plain ==> next.value == GreedyNext(m, consumed)
    {
      if past >= m.context {
        return None;
      }
      next := PrefillChunk([token]);
      history := history + [token];
    }

    // ---- speculative decoding, engine/engine.cpp:1568-1847 ----

    /** The draft loop (1610-1674): entries are written past the synchronised end
        of the MTP cache; any draft model, any draws. */
    method Draft(token: nat, count: int) returns (drafts: seq<nat>)
      requires Valid() && MtpOn(m) && pending.Some? && count <= m.context - past - 1
      modifies this`mtpPast, mtp
      ensures |drafts| == Max(0, count) && mtpPast == Max(0, past - 1) + |drafts|
      ensures mtp[..Max(0, past - 1)] == Pairs(m, consumed)
      ensures drafts != [] ==> mtp[Max(0, past - 1)] == MtpEntry(token, pending.value)
      ensures plain ==> drafts == Drafts(m, Pairs(m, consumed), token, pending.value, count)
    {
      hide Fold, Pairs, KeepsLayout, Drafts;
      drafts := DraftFrom(token, pending.value, Max(0, past - 1), count);
    }

    method DraftFrom(token: nat, hidden: Hidden, start: nat, count: int) returns (drafts: seq<nat>)
      requires mtpPast == start && start + Max(0, count) <= mtp.Length
      modifies this`mtpPast, mtp
      ensures |drafts| == Max(0, count) && mtpPast == start + |drafts| && mtp[..start] == old(mtp[..start])
      ensures drafts != [] ==> mtp[start] == MtpEntry(token, hidden)
      ensures plain ==> drafts == Drafts(m, old(mtp[..start]), token, hidden, count)
    {
      hide Drafts;
      drafts := [];
      var current, state := token, hidden;
      while |drafts| < count
        invariant |drafts| <= Max(0, count) && mtpPast == start + |drafts| && mtp[..start] == old(mtp[..start])
        invariant plain ==> Drafts(m, old(mtp[..start]), token, hidden, count) == drafts + Drafts(m, mtp[..mtpPast], current, state, count - |drafts|)
        invariant if drafts == [] then current == token && state == hidden else mtp[start] == MtpEntry(token, hidden)
      {
        ghost var rest := Drafts(m, mtp[..mtpPast], current, state, count - |drafts|);
        NextDraft(m, mtp[..mtpPast], current, state, count - |drafts|);
        DraftEntry(current, state, start, |drafts|);
        var d := m.draft(mtp[..mtpPast]);
        assert rest == [d.token] + Drafts(m, mtp[..mtpPast], d.token, d.hidden, count - |drafts| - 1);
        var draft := d.token;
        if !plain {
          draft := *;
        }
        drafts := drafts + [draft];
        current, state := draft, d.hidden;
      }
      NextDraft(m, mtp[..mtpPast], current, state, count - |drafts|);
    }

    /** One draft graph run: a new entry past the earlier ones. */
    method DraftEntry(token: nat, hidden: Hidden, start: nat, depth: nat)
      requires start + depth < mtp.Length
      modifies this`mtpPast, mtp
      ensures mtpPast == start + depth + 1 && mtp[start + depth] == MtpEntry(token, hidden)
      ensures mtp[..start] == old(mtp[..start])
      ensures depth > 0 ==> mtp[start] == old(mtp[start])
      ensures mtp[..mtpPast] == old(mtp[..start + depth]) + [MtpEntry(token, hidden)]
    {
      var end := start + depth;
      ExecuteMtp([token], [hidden], end);
      assert mtp[..mtpPast] == mtp[..end] + mtp[end..mtpPast];
      assert mtp[..start] == mtp[..end][..start];
      assert mtp[end] == mtp[end..mtpPast][0];
      if depth > 0 {
        assert mtp[start] == mtp[..end][start];
      }
    }

    /** The verification loop (1747-1787): how many inputs are kept, and what is
        output for each.  A draw accepts a draft only by returning it. */
    method Verify(inputs: seq<nat>, hidden: seq<Hidden>, stop: int) returns (kept: nat, outputs: seq<nat>)
      requires inputs != [] && |hidden| == |inputs|
      modifies this`history
      ensures 1 <= kept <= |inputs| && |outputs| == kept && history == old(history) + inputs[..kept]
      ensures forall i :: 0 <= i < kept - 1 ==> outputs[i] == inputs[i + 1] && outputs[i] != stop
      ensures plain ==> forall i :: 0 <= i < kept ==> outputs[i] == m.top(hidden[i])
      ensures kept < |inputs| && plain ==> outputs[kept - 1] == stop || outputs[kept - 1] != inputs[kept]
    {
      kept, outputs := 0, [];
      while kept < |inputs|
        invariant 0 <= kept <= |inputs| && |outputs| == kept && history == old(history) + inputs[..kept]
        invariant forall i :: 0 <= i < kept ==> (i + 1 < |inputs| ==> outputs[i] == inputs[i + 1]) && outputs[i] != stop
        invariant plain ==> forall i :: 0 <= i < kept ==> outputs[i] == m.top(hidden[i])
      {
        history := history + [inputs[kept]];
        assert inputs[..kept + 1] == inputs[..kept] + [inputs[kept]];
        var sampled := Sample(hidden[kept]);
        var accepted := kept + 1 < |inputs| && sampled == inputs[kept + 1];
        if !plain {
          accepted := *;
          if accepted && kept + 1 < |inputs| {
            sampled := inputs[kept + 1];
          }
        }
        outputs := outputs + [sampled];
        kept := kept + 1;
        if sampled == stop || (kept < |inputs| && !accepted) {
          return;
        }
      }
    }

    /** Rolling back to `kept` inputs (1792-1827), by whichever of the three routes
        applies: a captured prefix state, the checkpoint and a replay, or, when
        there is no recurrent state, shortening the KV cache.  All three leave the
        state and the hidden rows of having run only the kept inputs. */
    method RollBack(inputs: seq<nat>, kept: nat, hidden0: seq<Hidden>, snapshots: seq<Buffers>, prefixes: bool,
                    checkpoint: RecurrentCheckpoint, ghost start: seq<nat>) returns (ok: bool, hidden: seq<Hidden>)
      requires TargetValid() && consumed == start + inputs && 1 <= kept <= |inputs|
      requires |hidden0| == |inputs| == |snapshots|
      requires Fold(m, consumed).hidden == Fold(m, start).hidden + hidden0
      requires forall k :: 0 <= k < |inputs| ==> snapshots[k] == Fold(m, start + inputs[..k + 1]).buffers
      requires if |inputs| > 1 && |states| > 0 then checkpoint.Records(states, Fold(m, start).buffers)
               else !checkpoint.valid && checkpoint.entries == [] && checkpoint.device == None
      modifies this`past, this`buffers, this`consumed, kv
      ensures ok && TargetValid() && consumed == start + inputs[..kept]
      ensures |hidden| == kept && Fold(m, consumed).hidden == Fold(m, start).hidden + hidden
    {
      var target := past - |inputs|;
      hide Fold, KeepsLayout, Distinct, SameLayout;
      RollBackRows(start, inputs, kept, hidden0);
      assert kv[..target + kept] == kv[..past][..target + kept];
      assert kv[..target] == kv[..past][..target];
      if kept < |inputs| && !checkpoint.Empty() {
        var restored := false;
        if prefixes {
          restored := *;
        }
        if restored {
          buffers, past, hidden := snapshots[kept - 1], target + kept, hidden0[..kept];
          consumed := start + inputs[..kept];
          ok := true;
        } else {
          CheckpointFits(start, inputs, checkpoint);
          ok, buffers := checkpoint.Restore(buffers);
          past := target;
          consumed := start;
          var replay, _ := PrefillHidden(inputs[..kept]);
          hidden := replay.value;
        }
      } else {
        if kept < |inputs| {
          StatelessIsUnchanged(start, inputs, kept, checkpoint);
        }
        past, hidden := target + kept, hidden0[..kept];
        consumed := start + inputs[..kept];
        ok := true;
      }
    }

    /** The rows and hidden states of a batch begin with those of its kept inputs. */
    lemma RollBackRows(start: seq<nat>, inputs: seq<nat>, kept: nat, hidden0: seq<Hidden>)
      requires kept <= |inputs| == |hidden0| && Fold(m, start + inputs).hidden == Fold(m, start).hidden + hidden0
      ensures Fold(m, start).rows == Fold(m, start + inputs).rows[..|start|]
      ensures Fold(m, start + inputs[..kept]).rows == Fold(m, start + inputs).rows[..|start| + kept]
      ensures Fold(m, start + inputs[..kept]).hidden == Fold(m, start).hidden + hidden0[..kept]
      ensures kept == |inputs| ==> inputs[..kept] == inputs
    {
      hide Fold;
      assert start + inputs == (start + inputs[..kept]) + inputs[kept..];
      FoldPrefix(m, start + inputs[..kept], inputs[kept..]);
      FoldPrefix(m, start, inputs);
    }

    /** The checkpoint taken at `start` restores the buffers after any inputs. */
    lemma CheckpointFits(start: seq<nat>, inputs: seq<nat>, checkpoint: RecurrentCheckpoint)
      requires KeepsLayout(m) && (forall id <- m.initial :: Some(id) in states)
      requires checkpoint.Records(states, Fold(m, start).buffers)
      ensures var now := Fold(m, start + inputs).buffers;
        && Distinct(checkpoint.entries)
        && (forall k :: 0 <= k < |checkpoint.entries| ==>
              checkpoint.entries[k].state in now && |now[checkpoint.entries[k].state]| == |checkpoint.entries[k].bytes|)
        && (match checkpoint.device
            case Some(all) => all == Fold(m, start).buffers
            case None => (map id | id in now :: Saved(checkpoint.entries, now, id)) == Fold(m, start).buffers)
    {
      FoldLayout(m, start);
      FoldLayout(m, start + inputs);
      if checkpoint.device.None? {
        RestoreUndoes(checkpoint.entries, states, Fold(m, start).buffers, Fold(m, start + inputs).buffers);
      }
    }

    lemma BothEmpty(layout: Buffers, a: Buffers, b: Buffers)
      requires SameLayout(layout, a) && SameLayout(layout, b) && forall id <- layout :: |layout[id]| == 0
      ensures a == b
    {
      forall id | id in a
        ensures a[id] == b[id]
      {
        assert a[id] == [] == b[id];
      }
    }

    /** With nothing to roll back, the recurrent buffers never change at all. */
    lemma StatelessIsUnchanged(start: seq<nat>, inputs: seq<nat>, kept: nat, checkpoint: RecurrentCheckpoint)
      requires KeepsLayout(m) && (forall id <- m.initial :: Some(id) in states) && kept < |inputs| && checkpoint.Empty()
      requires if |inputs| > 1 && |states| > 0 then checkpoint.Records(states, Fold(m, start).buffers)
               else checkpoint.entries == [] && checkpoint.device == None
      requires kept >= 1
      ensures Fold(m, start + inputs[..kept]).buffers == Fold(m, start + inputs).buffers
    {
      hide Fold, KeepsLayout;
      FoldLayout(m, start);
      FoldLayout(m, start + inputs);
      FoldLayout(m, start + inputs[..kept]);
      var before := Fold(m, start).buffers;
      forall id | id in m.initial
        ensures before[id] == []
      {
        if checkpoint.device.None? {
          var i :| 0 <= i < |states| && states[i] == Some(id);
        }
      }
      assert forall id <- m.initial :: |m.initial[id]| == 0;
      BothEmpty(m.initial, Fold(m, start + inputs[..kept]).buffers, Fold(m, start + inputs).buffers);
    }

    /** Outputs that follow the inputs, each the arg-max of its row, are a greedy run. */
    lemma OutputsAreGreedy(start: seq<nat>, inputs: seq<nat>, hidden: seq<Hidden>, kept: nat, outputs: seq<nat>, stop: int)
      requires 1 <= kept <= |inputs| == |hidden| && |outputs| == kept
      requires Fold(m, start + inputs).hidden == Fold(m, start).hidden + hidden
      requires forall i :: 0 <= i < kept - 1 ==> outputs[i] == inputs[i + 1] && outputs[i] != stop
      requires forall i :: 0 <= i < kept ==> outputs[i] == m.top(hidden[i])
      ensures GreedyRun(m, start + inputs[..1], outputs, stop)
    {
      hide Fold;
      forall i | 0 <= i < |outputs|
        ensures outputs[i] == GreedyNext(m, start + inputs[..1] + outputs[..i])
      {
        assert inputs[..1] + outputs[..i] == inputs[..i + 1];
        assert start + inputs[..1] + outputs[..i] == start + inputs[..i + 1];
        RollBackRows(start, inputs, i + 1, hidden);
      }
    }

    /** Checkpoint, verification and rollback of one batch (1676-1827). */
    method VerifyBatch(inputs: seq<nat>, stop: int) returns (outputs: seq<nat>, hidden: seq<Hidden>)
      requires TargetValid() && inputs != [] && |inputs| <= m.context - past
      modifies this`past, this`buffers, this`consumed, this`history, kv
      ensures TargetValid() && 1 <= |outputs| == |hidden| <= |inputs|
      ensures consumed == old(consumed) + inputs[..|outputs|] && history == old(history) + inputs[..|outputs|]
      ensures Fold(m, consumed).hidden == Fold(m, old(consumed)).hidden + hidden
      ensures forall i :: 0 <= i < |outputs| - 1 ==> outputs[i] == inputs[i + 1] && outputs[i] != stop
      ensures plain ==> GreedyRun(m, old(consumed) + inputs[..1], outputs, stop)
      ensures var n := |outputs|; n < |inputs| && plain ==> outputs[n - 1] == stop || outputs[n - 1] != inputs[n]
    {
      hide Fold, KeepsLayout, SameLayout, GreedyRun;
      var checkpoint := new RecurrentCheckpoint();
      ghost var start := consumed;
      var prefixes: bool := *;
      if |inputs| > 1 && |states| > 0 {
        var snapshots: bool := *;
        KnownStates();
        checkpoint.Capture(buffers, states, snapshots);
      }
      var verified, prefixStates := PrefillHidden(inputs);
      var kept;
      kept, outputs := Verify(inputs, verified.value, stop);
      if plain {
        OutputsAreGreedy(start, inputs, verified.value, kept, outputs, stop);
      }
      var ok;
      ok, hidden := RollBack(inputs, kept, verified.value, prefixStates, prefixes, checkpoint, start);
    }

    /** speculative_decode: on success the engine has consumed the token and all
        outputs but the last; under arg-max sampling the outputs are what plain
        decoding would have produced. */
    method SpeculativeDecode(token: nat, maxOut: int, stop: int) returns (ok: bool, outputs: seq<nat>)
      requires Valid()
      modifies this`past, this`buffers, this`consumed, this`mtpPast, this`pending, this`history, kv, mtp
      ensures Valid()
      ensures ok <==> maxOut > 0 && old(past) < m.context && (MtpOn(m) ==> old(pending).Some?)
      ensures !ok ==> consumed == old(consumed)
      ensures ok ==> 1 <= |outputs| <= maxOut && consumed == old(consumed) + [token] + outputs[..|outputs| - 1]
      ensures ok ==> forall i :: 0 <= i < |outputs| - 1 ==> outputs[i] != stop
      ensures ok && plain ==> GreedyRun(m, old(consumed) + [token], outputs, stop)
      ensures ok && plain && MtpOn(m) ==>
        var depth := Min(m.draftTokens, Min(m.context - old(past) - 1, maxOut - 1));
        AllAccepted(Drafts(m, Pairs(m, old(consumed)), token, old(pending).value, depth), outputs, stop)
    {
      hide Fold, Pairs, KeepsLayout, SameLayout;
      if maxOut <= 0 {
        return false, [];
      }
      if !MtpOn(m) {
        var next := Decode(token);
        if next.None? {
          return false, [];
        }
        assert old(consumed) + [token] + [] == consumed;
        return true, [next.value];
      }
      if past >= m.context || mtpPast != Max(0, past - 1) || pending.None? {
        return false, [];
      }
      ok, outputs := Speculate(token, maxOut, stop);
    }

    /** How many drafts a step makes (1589-1591). */
    function Depth(past: nat, maxOut: int): int {
      Min(m.draftTokens, Min(m.context - past - 1, Max(0, maxOut - 1)))
    }

    /** The step itself, once its guards have passed (1601-1847). */
    method Speculate(token: nat, maxOut: nat, stop: int) returns (ok: bool, outputs: seq<nat>)
      requires Valid() && MtpOn(m) && pending.Some? && past < m.context && maxOut > 0
      modifies this`past, this`buffers, this`consumed, this`mtpPast, this`pending, this`history, kv, mtp
      ensures ok && Valid() && 1 <= |outputs| <= maxOut
      ensures consumed == old(consumed) + [token] + outputs[..|outputs| - 1]
      ensures forall i :: 0 <= i < |outputs| - 1 ==> outputs[i] != stop
      ensures plain ==> GreedyRun(m, old(consumed) + [token], outputs, stop)
      ensures plain ==> AllAccepted(Drafts(m, Pairs(m, old(consumed)), token, old(pending).value, Depth(old(past), maxOut)), outputs, stop)
    {
      hide Fold, Pairs, KeepsLayout, SameLayout, GreedyRun, AllAccepted, Drafts;
      var count := Depth(past, maxOut);
      var drafts := Draft(token, count);
      ok, outputs := VerifyAndSync(token, drafts, stop);
    }

    /** Verification of the drafts, and the MTP cache brought up to the kept ones. */
    method VerifyAndSync(token: nat, drafts: seq<nat>, stop: int) returns (ok: bool, outputs: seq<nat>)
      requires TargetValid() && MtpOn(m) && history == consumed && mtp.Length == m.context
      requires |drafts| < m.context - past && mtpPast == Max(0, past - 1) + |drafts| && pending.Some?
      requires past > 0 ==> pending == Some(Fold(m, consumed).hidden[past - 1])
      requires mtp[..Max(0, past - 1)] == Pairs(m, consumed)
      requires drafts != [] ==> mtp[Max(0, past - 1)] == MtpEntry(token, pending.value)
      modifies this`past, this`buffers, this`consumed, this`mtpPast, this`pending, this`history, kv, mtp
      ensures ok && Valid() && 1 <= |outputs| <= |drafts| + 1
      ensures consumed == old(consumed) + [token] + outputs[..|outputs| - 1]
      ensures forall i :: 0 <= i < |outputs| - 1 ==> outputs[i] != stop
      ensures plain ==> GreedyRun(m, old(consumed) + [token], outputs, stop) && AllAccepted(drafts, outputs, stop)
    {
      hide Fold, Pairs, KeepsLayout, SameLayout, GreedyRun;
      var inputs := [token] + drafts;
      assert inputs[..1] == [token];
      var position := past;
      ghost var start := consumed;
      var hidden;
      outputs, hidden := VerifyBatch(inputs, stop);
      var kept := |outputs|;
      KeptTokens(start, token, inputs, outputs);
      hide SyncReady;
      ReadyToSync(start, inputs[..kept], hidden, |drafts|);
      ok := SyncMtp(inputs[..kept], hidden, position, if drafts != [] then 1 else 0);
    }

    lemma KeptTokens(start: seq<nat>, token: nat, inputs: seq<nat>, outputs: seq<nat>)
      requires 1 <= |outputs| <= |inputs| && inputs[0] == token
      requires forall i :: 0 <= i < |outputs| - 1 ==> outputs[i] == inputs[i + 1]
      ensures start + inputs[..|outputs|] == start + [token] + outputs[..|outputs| - 1]
    {
      assert inputs[..|outputs|] == [token] + outputs[..|outputs| - 1];
    }

    /** Every listed state is a persistent buffer. */
    lemma KnownStates()
      requires TargetValid()
      ensures forall i :: 0 <= i < |states| && states[i].Some? ==> states[i].value in buffers
    {
      FoldLayout(m, consumed);
    }

    /** What sync_mtp sees of the state before the batch. */
    lemma SyncFits(start: seq<nat>, tokens: seq<nat>, hidden: seq<Hidden>)
      requires Fold(m, start + tokens).hidden == Fold(m, start).hidden + hidden
      ensures (start + tokens)[..|start|] == start && (start + tokens)[|start|..] == tokens
      ensures Fold(m, start + tokens).hidden[|start|..] == hidden
      ensures forall i :: 0 <= i < |start| ==> Fold(m, start + tokens).hidden[i] == Fold(m, start).hidden[i]
    {
    }
  }
}
