/** generate_tokens of examples/cli_common.cpp:534-626: the prompt, and the token
    loop with its draft rounds. */
module Generation {
  import opened Graph
  import opened Decoding
  import opened Engine

  datatype GenerationResult = GenerationResult(ids: seq<nat>, text: Bytes, hitEos: bool)

  /** The decoded bytes of a token list. */
  function Text(piece: nat -> Bytes, ids: seq<nat>): Bytes {
    if ids == [] then [] else Text(piece, ids[..|ids| - 1]) + piece(ids[|ids| - 1])
  }

  lemma TextSnoc(piece: nat -> Bytes, ids: seq<nat>, id: nat)
    ensures Text(piece, ids + [id]) == Text(piece, ids) + piece(id)
  {
    assert (ids + [id])[..|ids|] == ids;
  }

  /** `ids` is a reply so far: not stopped before its last token, and greedy if
      `plain`. */
  predicate Reply(m: Model, plain: bool, start: seq<nat>, ids: seq<nat>, eos: int) {
    && start != [] && ids != []
    && (forall i :: 0 <= i < |ids| - 1 ==> ids[i] != eos)
    && (plain ==> GreedyRun(m, start, ids, eos))
  }

  /** Greedy runs compose. */
  lemma ReplyGrows(m: Model, plain: bool, start: seq<nat>, ids: seq<nat>, more: seq<nat>, eos: int)
    requires Reply(m, plain, start, ids, eos) && ids[|ids| - 1] != eos && more != []
    requires forall i :: 0 <= i < |more| - 1 ==> more[i] != eos
    requires plain ==> GreedyRun(m, start + ids, more, eos)
    ensures Reply(m, plain, start, ids + more, eos)
  {
    hide GreedyNext;
    if plain {
      forall i | 0 <= i < |ids + more|
        ensures (ids + more)[i] == GreedyNext(m, start + (ids + more)[..i])
      {
        if i < |ids| {
          assert (ids + more)[..i] == ids[..i];
        } else {
          assert (ids + more)[..i] == ids + more[..i - |ids|];
          assert start + ids + more[..i - |ids|] == start + (ids + more)[..i];
        }
      }
    }
  }

  /** A finished greedy reply is the whole one; an unfinished one is shorter. */
  lemma ReplyEnds(m: Model, start: seq<nat>, ids: seq<nat>, n: nat, eos: int)
    requires Reply(m, true, start, ids, eos) && |ids| <= n
    ensures ids[|ids| - 1] == eos || |ids| == n ==> Greedy(m, start, n, eos) == ids
    ensures ids[|ids| - 1] != eos && |ids| < n ==> |ids| < |Greedy(m, start, n, eos)|
  {
    GreedyRunContinues(m, start, ids, n, eos);
  }

  /** The prompt and the whole reply but its last token fit the context. */
  predicate Fits(m: Model, start: seq<nat>, ids: seq<nat>) {
    |start| + |ids| - 1 <= m.context && m.chunkLimit > 0
  }

  /** One appended batch of decoded tokens (cli_common.cpp:609-618). */
  method Append(piece: nat -> Bytes, result0: GenerationResult, decoded: seq<nat>, n: nat, eos: int)
      returns (result: GenerationResult)
    requires decoded != [] && |result0.ids| + |decoded| <= n && !result0.hitEos
    requires forall i :: 0 <= i < |decoded| - 1 ==> decoded[i] != eos
    requires result0.text == Text(piece, result0.ids)
    ensures result.ids == result0.ids + decoded && result.text == Text(piece, result.ids)
    ensures result.hitEos == (decoded[|decoded| - 1] == eos)
  {
    hide Text;
    result := result0;
    for k := 0 to |decoded|
      invariant result.ids == result0.ids + decoded[..k] && result.text == Text(piece, result.ids) && !result.hitEos
      invariant k > 0 ==> decoded[k - 1] != eos
    {
      TextSnoc(piece, result.ids, decoded[k]);
      result := GenerationResult(result.ids + [decoded[k]], result.text + piece(decoded[k]), false);
      if decoded[k] == eos {
        result := result.(hitEos := true);
      }
      if decoded[k] == eos || |result.ids| >= n {
        assert result.ids == result0.ids + decoded;
        return;
      }
    }
  }

  lemma FirstReply(m: Model, plain: bool, start: seq<nat>, token: nat, eos: int)
    requires start != [] && (plain ==> token == GreedyNext(m, start))
    ensures Reply(m, plain, start, [token], eos)
  {
    assert start + [] == start;
  }

  /** One decoding step, speculative if drafts are configured (cli_common.cpp:589-608). */
  method Advance(engine: LLMEngine, next: nat, remaining: nat, eos: int, ghost start: seq<nat>)
      returns (ok: bool, decoded: seq<nat>)
    requires engine.Valid() && remaining > 0 && engine.consumed != [] && engine.consumed + [next] == start
    modifies engine, engine.kv, engine.mtp
    ensures engine.Valid() && engine.plain == old(engine.plain)
    ensures ok <==> |old(engine.consumed)| < engine.m.context
    ensures ok ==>
      && 1 <= |decoded| <= remaining && engine.consumed == start + decoded[..|decoded| - 1]
      && (forall i :: 0 <= i < |decoded| - 1 ==> decoded[i] != eos)
      && (engine.plain ==> GreedyRun(engine.m, start, decoded, eos))
    ensures ok && engine.plain && MtpOn(engine.m) ==>
      var m, consumed := engine.m, old(engine.consumed);
      var depth := Min(m.draftTokens, Min(m.context - |consumed| - 1, remaining - 1));
      old(engine.pending).Some? && AllAccepted(Drafts(m, Pairs(m, consumed), next, old(engine.pending).value, depth), decoded, eos)
  {
    hide Fold, Pairs, KeepsLayout, Drafts, AllAccepted;
    decoded := [];
    if engine.m.draftTokens > 0 {
      ok, decoded := engine.SpeculativeDecode(next, remaining, eos);
    } else {
      var token := engine.Decode(next);
      ok := token.Some?;
      if ok {
        decoded := [token.value];
        assert start + [] == start;
      }
    }
  }

  /** The engine after a reply so far: everything but its last token is consumed. */
  ghost predicate MidReply(engine: LLMEngine, piece: nat -> Bytes, start: seq<nat>, result: GenerationResult, n: nat, eos: int)
    reads engine, engine.kv, engine.mtp
  {
    && engine.Valid() && Reply(engine.m, engine.plain, start, result.ids, eos) && 1 <= |result.ids| <= n
    && engine.consumed == start + result.ids[..|result.ids| - 1] && engine.m.chunkLimit > 0
    && result.text == Text(piece, result.ids) && result.hitEos == (result.ids[|result.ids| - 1] == eos)
  }

  /** One round of the decode loop. */
  method Round(engine: LLMEngine, piece: nat -> Bytes, result0: GenerationResult, n: nat, eos: int, ghost start: seq<nat>)
      returns (ok: bool, result: GenerationResult)
    requires MidReply(engine, piece, start, result0, n, eos) && !result0.hitEos && |result0.ids| < n
    modifies engine, engine.kv, engine.mtp
    ensures engine.plain == old(engine.plain)
    ensures ok <==> |old(engine.consumed)| < engine.m.context
    ensures if ok then MidReply(engine, piece, start, result, n, eos) && |result.ids| > |result0.ids|
            else engine.Valid() && result == result0
  {
    hide Fold, Pairs, KeepsLayout, GreedyRun, Text;
    engine.PastIsConsumed();
    var ids := result0.ids;
    var next := ids[|ids| - 1];
    assert engine.consumed + [next] == start + ids;
    var decoded;
    ok, decoded := Advance(engine, next, n - |ids|, eos, start + ids);
    result := result0;
    if ok {
      ReplyGrows(engine.m, engine.plain, start, ids, decoded, eos);
      result := Append(piece, result0, decoded, n, eos);
      assert (ids + decoded)[..|ids + decoded| - 1] == ids + decoded[..|decoded| - 1];
    }
  }

  /** The decode loop (cli_common.cpp:588-621). */
  method DecodeLoop(engine: LLMEngine, piece: nat -> Bytes, result0: GenerationResult, n: nat, eos: int, ghost start: seq<nat>)
      returns (ok: bool, result: GenerationResult)
    requires MidReply(engine, piece, start, result0, n, eos)
    modifies engine, engine.kv, engine.mtp
    ensures engine.plain == old(engine.plain)
    ensures if ok then MidReply(engine, piece, start, result, n, eos) && (result.hitEos || |result.ids| == n) else engine.Valid()
    ensures !ok ==> |start| + n - 1 > engine.m.context
    ensures engine.plain && start != [] ==>
      var r := Greedy(engine.m, start, n, eos);
      (ok <==> Fits(engine.m, start, r)) && (ok ==> result.ids == r)
  {
    hide Fold, Pairs, KeepsLayout, Greedy, GreedyRun, Text;
    ok, result := true, result0;
    while ok && !result.hitEos && |result.ids| < n
      invariant engine.plain == old(engine.plain)
      invariant if ok then MidReply(engine, piece, start, result, n, eos) else engine.Valid()
      invariant !ok ==> |start| + n - 1 > engine.m.context
      invariant !ok && engine.plain ==> start != [] && !Fits(engine.m, start, Greedy(engine.m, start, n, eos))
      decreases n - |result.ids| + if ok then 1 else 0
    {
      if engine.plain {
        ReplyEnds(engine.m, start, result.ids, n, eos);
      }
      ok, result := Round(engine, piece, result, n, eos, start);
    }
    if ok && engine.plain {
      ReplyEnds(engine.m, start, result.ids, n, eos);
    }
  }

  /** generate_tokens without stop sequences, with or without MTP
      (cli_common.cpp:534-626).  However it samples, a reply goes on until EOS or the
      budget, and there is one if the context has room for the budget; under arg-max it
      is the greedy reply, exactly if that fits. */
  method GenerateTokens(engine: LLMEngine, piece: nat -> Bytes, prompt: seq<nat>, maxNew: int, eos: int, reset: bool)
      returns (ok: bool, result: GenerationResult)
    requires engine.Valid()
    modifies engine, engine.kv, engine.mtp
    ensures engine.Valid() && engine.plain == old(engine.plain)
    ensures ok ==> prompt != [] && maxNew >= 1 && 1 <= |result.ids| <= maxNew
    ensures ok ==> engine.consumed == (if reset then [] else old(engine.consumed)) + prompt + result.ids[..|result.ids| - 1]
    ensures ok ==> result.text == Text(piece, result.ids) && result.hitEos == (result.ids[|result.ids| - 1] == eos)
    ensures var start := (if reset then [] else old(engine.consumed)) + prompt;
      && (ok ==> Reply(engine.m, engine.plain, start, result.ids, eos) && (result.hitEos || |result.ids| == maxNew))
      && (ok ==> Fits(engine.m, start, result.ids))
      && (prompt != [] && maxNew >= 1 && engine.m.chunkLimit > 0 && |start| + maxNew - 1 <= engine.m.context ==> ok)
    ensures engine.plain && prompt != [] && maxNew >= 1 ==>
      var start := (if reset then [] else old(engine.consumed)) + prompt;
      var r := Greedy(engine.m, start, maxNew, eos);
      && (ok <==> Fits(engine.m, start, r))
      && (ok ==> result.ids == r)
  {
    hide Fold, Pairs, KeepsLayout, Greedy, GreedyRun, Text, Reply, LLMEngine.Valid;
    result := GenerationResult([], [], false);
    if prompt == [] || maxNew < 1 {
      return false, result;
    }
    if reset {
      engine.Reset();
    }
    ghost var start := engine.consumed + prompt;
    ok, result := First(engine, piece, prompt, maxNew, eos);
    if ok {
      ok, result := DecodeLoop(engine, piece, result, maxNew, eos, start);
    }
    if ok {
      engine.PastIsConsumed();
    }
  }

  /** The prompt and the first token (557-586). */
  method First(engine: LLMEngine, piece: nat -> Bytes, prompt: seq<nat>, n: nat, eos: int) returns (ok: bool, result: GenerationResult)
    requires engine.Valid() && prompt != [] && n >= 1
    modifies engine, engine.kv, engine.mtp
    ensures engine.plain == old(engine.plain)
    ensures ok <==> |old(engine.consumed)| + |prompt| <= engine.m.context && engine.m.chunkLimit > 0
    ensures if ok then MidReply(engine, piece, old(engine.consumed) + prompt, result, n, eos) && |result.ids| == 1 else engine.Valid()
  {
    hide Fold, Pairs, KeepsLayout, GreedyRun, Text, Reply, LLMEngine.Valid;
    engine.PastIsConsumed();
    ghost var start := engine.consumed + prompt;
    result := GenerationResult([], [], false);
    var first := engine.Prefill(prompt);
    ok := first.Some?;
    if ok {
      TextNil(piece);
      result := Append(piece, result, [first.value], n, eos);
      FirstReply(engine.m, engine.plain, start, first.value, eos);
      assert start + result.ids[..|result.ids| - 1] == start;
    }
  }

  lemma TextNil(piece: nat -> Bytes)
    ensures Text(piece, []) == []
  {
  }
}
