/** The text-stop path of generate_tokens, examples/cli_common.cpp:628-693: decoded
    bytes end the reply, and nothing after the stop is given out. */
module StopGeneration {
  import opened Graph
  import opened Decoding
  import opened Engine
  import opened Generation
  import opened StopMatcher

  /** No stop shows in the bytes of any shorter reply. */
  ghost predicate QuietBefore(piece: nat -> Bytes, stops: seq<Bytes>, ids: seq<nat>) {
    forall j :: 0 < j < |ids| ==> NoStop(stops, Text(piece, ids[..j]))
  }

  /** The text given out for a finished reply: cut at the earliest stop, or else
      whole; but a first token that is EOS and no stop leaves its held-back tail
      behind (cli_common.cpp:663-668). */
  ghost predicate GivenOut(piece: nat -> Bytes, stops: seq<Bytes>, eos: int, r: GenerationResult) {
    var all := Text(piece, r.ids);
    if !NoStop(stops, all) then r.text <= all && Earliest(stops, all, |r.text|)
    else if |r.ids| == 1 && r.ids[0] == eos then
      exists longest: nat :: IsLongest(stops, longest) && r.text == all[..Released(|all|, longest)]
    else r.text == all
  }

  /** How many of `size` bytes are past the kept tail. */
  function Released(size: nat, longest: nat): (n: nat)
    ensures n <= size
    ensures n == size <==> size == 0 || longest <= 1
  {
    if longest == 0 then size else if size > longest - 1 then size - (longest - 1) else 0
  }

  /** When no stop occurs, the reply's text is complete exactly unless the first
      token is EOS and its bytes are held back. */
  lemma FlushIsSkippedExactly(piece: nat -> Bytes, stops: seq<Bytes>, eos: int, r: GenerationResult, longest: nat)
    requires GivenOut(piece, stops, eos, r) && NoStop(stops, Text(piece, r.ids)) && IsLongest(stops, longest)
    ensures r.text == Text(piece, r.ids) <==>
      !(|r.ids| == 1 && r.ids[0] == eos && longest > 1 && Text(piece, r.ids) != [])
  {
    var all := Text(piece, r.ids);
    assert all[..|all|] == all;
    if |r.ids| == 1 && r.ids[0] == eos {
      var other: nat :| IsLongest(stops, other) && r.text == all[..Released(|all|, other)];
      SameLongest(stops, longest, other);
      assert |r.text| == Released(|all|, longest);
    }
  }

  /** Two bytes decoded from an EOS that comes first are kept back for a stop of
      three, and never given out. */
  lemma FlushIsSkipped()
    ensures var piece: nat -> Bytes := _ => "ab";
      var stops, r := ["xyz"], GenerationResult([0], [], true);
      && NoStop(stops, Text(piece, r.ids)) && GivenOut(piece, stops, 0, r) && r.text != Text(piece, r.ids) == "ab"
  {
    var piece: nat -> Bytes := _ => "ab";
    var stops: seq<Bytes> := ["xyz"];
    TextNil(piece);
    TextSnoc(piece, [], 0);
    assert [] + [0] == [0] && [] + piece(0) == "ab";
    assert |stops[0]| == 3 && IsLongest(stops, 3);
    assert ("ab")[..Released(2, 3)] == [];
  }

  lemma SameLongest(stops: seq<Bytes>, a: nat, b: nat)
    requires IsLongest(stops, a) && IsLongest(stops, b)
    ensures a == b
  {
  }

  // ---- the reply that is meant ----

  /** A reply is over: its last token is EOS, or its bytes hold a stop. */
  ghost predicate Over(piece: nat -> Bytes, stops: seq<Bytes>, ids: seq<nat>, eos: int)
    requires ids != []
  {
    ids[|ids| - 1] == eos || !NoStop(stops, Text(piece, ids))
  }

  /** The greedy reply that begins with `ids` and goes on until it is over or has
      `n` tokens. */
  ghost function UntilStop(m: Model, piece: nat -> Bytes, stops: seq<Bytes>, start: seq<nat>, ids: seq<nat>, n: nat, eos: int): (r: seq<nat>)
    requires start != [] && ids != []
    ensures ids <= r && (|ids| <= n ==> |r| <= n)
    ensures Over(piece, stops, ids, eos) ==> r == ids
    ensures !Over(piece, stops, ids, eos) && |ids| < n ==> |r| > |ids|
    decreases n - |ids|
  {
    if Over(piece, stops, ids, eos) || |ids| >= n then ids
    else UntilStop(m, piece, stops, start, ids + [GreedyNext(m, start + ids)], n, eos)
  }

  /** The whole reply of at most `n` tokens. */
  ghost function StopReply(m: Model, piece: nat -> Bytes, stops: seq<Bytes>, start: seq<nat>, n: nat, eos: int): (r: seq<nat>)
    requires start != [] && n > 0
    ensures 1 <= |r| <= n
  {
    UntilStop(m, piece, stops, start, [GreedyNext(m, start)], n, eos)
  }

  /** Without stop sequences it is the greedy reply. */
  lemma {:induction false} UntilNoStop(m: Model, piece: nat -> Bytes, start: seq<nat>, ids: seq<nat>, n: nat, eos: int)
    requires Reply(m, true, start, ids, eos) && |ids| <= n
    ensures UntilStop(m, piece, [], start, ids, n, eos) == Greedy(m, start, n, eos)
    decreases n - |ids|
  {
    ReplyEnds(m, start, ids, n, eos);
    NothingStops(Text(piece, ids));
    if ids[|ids| - 1] != eos && |ids| < n {
      ReplyGrowsOne(m, true, start, ids, GreedyNext(m, start + ids), eos);
      UntilNoStop(m, piece, start, ids + [GreedyNext(m, start + ids)], n, eos);
    }
  }

  lemma NothingStops(text: Bytes)
    ensures NoStop([], text)
  {
  }

  lemma StopReplyIsGreedy(m: Model, piece: nat -> Bytes, start: seq<nat>, n: nat, eos: int)
    requires start != [] && n > 0
    ensures StopReply(m, piece, [], start, n, eos) == Greedy(m, start, n, eos)
  {
    FirstReply(m, true, start, GreedyNext(m, start), eos);
    UntilNoStop(m, piece, start, [GreedyNext(m, start)], n, eos);
  }

  /** A longer budget extends a reply that it finds unfinished, and no other. */
  lemma {:induction false} StopBudget(m: Model, piece: nat -> Bytes, stops: seq<Bytes>, start: seq<nat>, ids: seq<nat>, n: nat, k: nat, eos: int)
    requires start != [] && 1 <= |ids| <= n <= k
    ensures var r, s := UntilStop(m, piece, stops, start, ids, n, eos), UntilStop(m, piece, stops, start, ids, k, eos);
      && (n == k || Over(piece, stops, r, eos) ==> s == r)
      && (n < k && !Over(piece, stops, r, eos) ==> |r| == n < |s|)
    decreases n - |ids|
  {
    if !Over(piece, stops, ids, eos) && |ids| < n {
      StopBudget(m, piece, stops, start, ids + [GreedyNext(m, start + ids)], n, k, eos);
    }
  }

  // ---- the loops ----

  /** The engine and the matcher after a reply so far. */
  ghost predicate Going(engine: LLMEngine, matcher: Matcher, piece: nat -> Bytes, start: seq<nat>, ids: seq<nat>, n: nat, eos: int, hit: bool)
    reads engine, engine.kv, engine.mtp, matcher
  {
    && engine.Valid() && Reply(engine.m, engine.plain, start, ids, eos) && 1 <= |ids| <= n
    && engine.consumed == start + ids[..|ids| - 1] && QuietBefore(piece, matcher.stops, ids)
    && Matched(matcher, piece, ids, hit)
  }

  /** The matcher's half of it. */
  ghost predicate Matched(matcher: Matcher, piece: nat -> Bytes, ids: seq<nat>, hit: bool)
    reads matcher
  {
    && matcher.decoded == Text(piece, ids) && (hit <==> !NoStop(matcher.stops, matcher.decoded))
    && if hit then Earliest(matcher.stops, matcher.decoded, |matcher.text|) && matcher.text <= matcher.decoded && matcher.pending == []
       else matcher.Valid()
  }

  /** append_token. */
  method Take(matcher: Matcher, piece: nat -> Bytes, ghost ids: seq<nat>, next: nat) returns (hit: bool)
    requires matcher.Valid() && matcher.decoded == Text(piece, ids)
    modifies matcher
    ensures Matched(matcher, piece, ids + [next], hit)
  {
    TextSnoc(piece, ids, next);
    hit := matcher.Append(piece(next));
  }

  lemma QuietGrows(piece: nat -> Bytes, stops: seq<Bytes>, ids: seq<nat>, next: nat)
    requires QuietBefore(piece, stops, ids) && NoStop(stops, Text(piece, ids))
    ensures QuietBefore(piece, stops, ids + [next])
  {
    forall j | 0 < j < |ids + [next]|
      ensures (ids + [next])[..j] == if j < |ids| then ids[..j] else ids
    {
    }
  }

  /** The decode loop (670-683). */
  method DecodeUntilStop(engine: LLMEngine, matcher: Matcher, piece: nat -> Bytes, ids0: seq<nat>, n: nat, eos: int, ghost start: seq<nat>)
      returns (ok: bool, ids: seq<nat>, hit: bool)
    requires Going(engine, matcher, piece, start, ids0, n, eos, false) && ids0[|ids0| - 1] != eos
    modifies engine, engine.kv, engine.mtp, matcher
    ensures engine.plain == old(engine.plain)
    ensures if ok then Going(engine, matcher, piece, start, ids, n, eos, hit) && (hit || ids[|ids| - 1] == eos || |ids| == n)
            else engine.Valid() && |start| + n - 1 > engine.m.context
    ensures ok ==> ids != [] && (|ids| == 1 ==> ids == ids0 && !hit)
    ensures start != [] && engine.plain ==>
      var r := UntilStop(engine.m, piece, matcher.stops, start, ids0, n, eos);
      (ok <==> |start| + |r| - 1 <= engine.m.context) && (ok ==> ids == r)
  {
    hide Fold, Pairs, KeepsLayout, Text, GreedyRun, Reply, QuietBefore, LLMEngine.Valid;
    ids, hit, ok := ids0, false, true;
    while !hit && ids[|ids| - 1] != eos && |ids| < n
      invariant engine.plain == old(engine.plain) && Going(engine, matcher, piece, start, ids, n, eos, hit)
      invariant |ids| == 1 ==> ids == ids0 && !hit
      invariant start != [] && engine.plain ==>
        UntilStop(engine.m, piece, matcher.stops, start, ids, n, eos) == UntilStop(engine.m, piece, matcher.stops, start, ids0, n, eos)
      decreases n - |ids|
    {
      ghost var before := ids;
      var next := ids[|ids| - 1];
      assert engine.consumed + [next] == start + ids;
      engine.PastIsConsumed();
      var token := engine.Decode(next);
      if token.None? {
        return false, ids, false;
      }
      ReplyGrowsOne(engine.m, engine.plain, start, ids, token.value, eos);
      QuietGrows(piece, matcher.stops, ids, token.value);
      hit := Take(matcher, piece, ids, token.value);
      ids := ids + [token.value];
      assert ids[..|ids| - 1] == before;
    }
    engine.PastIsConsumed();
  }

  /** Prefill and the first token (557-569, 663). */
  method Begin(engine: LLMEngine, matcher: Matcher, piece: nat -> Bytes, prompt: seq<nat>, n: nat, eos: int)
      returns (ok: bool, ids: seq<nat>, hit: bool)
    requires engine.Valid() && matcher.Valid() && matcher.decoded == [] && prompt != [] && n >= 1
    modifies engine, engine.kv, engine.mtp, matcher
    ensures engine.plain == old(engine.plain)
    ensures if ok then Going(engine, matcher, piece, old(engine.consumed) + prompt, ids, n, eos, hit) && |ids| == 1 else engine.Valid()
    ensures ok <==> |old(engine.consumed)| + |prompt| <= engine.m.context && engine.m.chunkLimit > 0
    ensures ok && engine.plain ==> ids == [GreedyNext(engine.m, old(engine.consumed) + prompt)]
  {
    hide Fold, Pairs, KeepsLayout, Text, GreedyRun, Reply, QuietBefore, NoStop, Earliest, GreedyNext, Going, Matched, LLMEngine.Valid;
    engine.PastIsConsumed();
    ids, hit := [], false;
    ghost var start := engine.consumed + prompt;
    var first := engine.Prefill(prompt);
    ok := first.Some?;
    if ok {
      ids := [first.value];
      TextNil(piece);
      hit := Take(matcher, piece, [], first.value);
      assert [] + ids == ids;
      Begun(engine, matcher, piece, start, first.value, n, eos, hit);
    }
  }

  lemma Begun(engine: LLMEngine, matcher: Matcher, piece: nat -> Bytes, start: seq<nat>, first: nat, n: nat, eos: int, hit: bool)
    requires engine.Valid() && engine.consumed == start != [] && n >= 1 && Matched(matcher, piece, [first], hit)
    requires engine.plain ==> first == GreedyNext(engine.m, start)
    ensures Going(engine, matcher, piece, start, [first], n, eos, hit)
  {
    hide Fold, Pairs, KeepsLayout, Text, GreedyRun, Reply, QuietBefore, Matched, GreedyNext, LLMEngine.Valid;
    assert start + [first][..0] == start;
    FirstReply(engine.m, engine.plain, start, first, eos);
    QuietAtFirst(piece, matcher.stops, [first]);
  }

  /** A finished reply, however it was sampled: it goes on until EOS, a stop or the
      budget, and what was given out. */
  ghost predicate Complete(m: Model, plain: bool, piece: nat -> Bytes, stops: seq<Bytes>, start: seq<nat>, n: int, eos: int, r: GenerationResult) {
    && 1 <= |r.ids| <= n && Reply(m, plain, start, r.ids, eos) && Fits(m, start, r.ids)
    && QuietBefore(piece, stops, r.ids) && (if stops == [] then r.text == Text(piece, r.ids) else GivenOut(piece, stops, eos, r))
    && (r.hitEos <==> Over(piece, stops, r.ids, eos)) && (r.hitEos || |r.ids| == n)
  }

  /** A reply that must come: the prompt and the whole budget but its last token fit. */
  predicate Roomy(m: Model, start: seq<nat>, n: int) {
    n >= 1 && m.chunkLimit > 0 && |start| + n - 1 <= m.context
  }

  /** generate_tokens with stop sequences (628-693); the engine decodes one token at
      a time. */
  method GenerateUntilStop(engine: LLMEngine, piece: nat -> Bytes, stops: seq<Bytes>, prompt: seq<nat>, maxNew: int, eos: int, reset: bool)
      returns (ok: bool, r: GenerationResult)
    requires engine.Valid() && stops != []
    modifies engine, engine.kv, engine.mtp
    ensures engine.Valid() && engine.plain == old(engine.plain)
    ensures ok ==> prompt != [] && maxNew >= 1
    ensures var start := (if reset then [] else old(engine.consumed)) + prompt;
      && (ok ==> Complete(engine.m, engine.plain, piece, stops, start, maxNew, eos, r) && engine.consumed == start + r.ids[..|r.ids| - 1])
      && (prompt != [] && Roomy(engine.m, start, maxNew) ==> ok)
    ensures engine.plain && prompt != [] && maxNew >= 1 ==>
      var start := (if reset then [] else old(engine.consumed)) + prompt;
      var all := StopReply(engine.m, piece, stops, start, maxNew, eos);
      (ok <==> Fits(engine.m, start, all)) && (ok ==> r.ids == all)
  {
    hide Fold, Pairs, KeepsLayout, Complete, StopReply, LLMEngine.Valid;
    if prompt == [] || maxNew < 1 {
      return false, GenerationResult([], [], false);
    }
    if reset {
      engine.Reset();
    }
    ok, r := ReplyUntilStop(engine, piece, stops, prompt, maxNew, eos);
  }

  /** The same after the reset (557-693). */
  method ReplyUntilStop(engine: LLMEngine, piece: nat -> Bytes, stops: seq<Bytes>, prompt: seq<nat>, n: nat, eos: int)
      returns (ok: bool, r: GenerationResult)
    requires engine.Valid() && stops != [] && prompt != [] && n >= 1
    modifies engine, engine.kv, engine.mtp
    ensures engine.Valid() && engine.plain == old(engine.plain)
    ensures var start := old(engine.consumed) + prompt;
      && (ok ==> Complete(engine.m, engine.plain, piece, stops, start, n, eos, r) && engine.consumed == start + r.ids[..|r.ids| - 1])
      && (Roomy(engine.m, start, n) ==> ok)
    ensures engine.plain ==>
      var start := old(engine.consumed) + prompt;
      var all := StopReply(engine.m, piece, stops, start, n, eos);
      (ok <==> Fits(engine.m, start, all)) && (ok ==> r.ids == all)
  {
    hide Fold, Pairs, KeepsLayout, Text, GreedyRun, Reply, QuietBefore, GivenOut, NoStop, Earliest, GreedyNext, LLMEngine.Valid;
    hide Complete, UntilStop, Going, Matched, Over;
    r := GenerationResult([], [], false);
    ghost var start := engine.consumed + prompt;
    var matcher := new Matcher(stops);
    var ids, hit;
    ok, ids, hit := Begin(engine, matcher, piece, prompt, n, eos);
    if !ok {
      return;
    }
    if hit || ids[0] == eos {
      r := GenerationResult(ids, matcher.text, true);
      GoneTo(engine, matcher, piece, start, n, eos, hit, r, true);
      return;
    }
    ok, ids, hit := DecodeUntilStop(engine, matcher, piece, ids, n, eos, start);
    if ok {
      // No stop was found: the bytes held back are given out.
      r := GenerationResult(ids, matcher.text + matcher.pending, hit || ids[|ids| - 1] == eos);
      GoneTo(engine, matcher, piece, start, n, eos, hit, r, false);
    }
  }

  lemma GoneTo(engine: LLMEngine, matcher: Matcher, piece: nat -> Bytes, start: seq<nat>, n: nat, eos: int, hit: bool, r: GenerationResult,
               first: bool)
    requires Going(engine, matcher, piece, start, r.ids, n, eos, hit) && engine.m.chunkLimit > 0
    requires matcher.stops != [] && r.text == if first then matcher.text else matcher.text + matcher.pending
    requires first ==> |r.ids| == 1 && (hit || r.ids[0] == eos)
    requires !first && |r.ids| == 1 ==> r.ids[0] != eos
    requires (r.hitEos <==> hit || r.ids[|r.ids| - 1] == eos) && (r.hitEos || |r.ids| == n)
    ensures Complete(engine.m, engine.plain, piece, matcher.stops, start, n, eos, r) && (r.hitEos <==> Over(piece, matcher.stops, r.ids, eos))
    ensures engine.Valid() && engine.consumed == start + r.ids[..|r.ids| - 1]
  {
    hide Fold, Pairs, KeepsLayout, Text, Reply, QuietBefore, GivenOut, NoStop, Earliest, LLMEngine.Valid;
    engine.PastIsConsumed();
    if first {
      FirstTokenGiven(piece, matcher, eos, r.ids, hit);
    } else {
      LaterTokensGiven(piece, matcher, eos, r, hit);
    }
  }

  /** What a request's reply is under arg-max: its tokens and its text. */
  ghost predicate IsReply(m: Model, piece: nat -> Bytes, stops: seq<Bytes>, start: seq<nat>, n: nat, eos: int, r: GenerationResult) {
    && start != [] && n > 0 && r.ids == StopReply(m, piece, stops, start, n, eos)
    && if stops == [] then r.text == Text(piece, r.ids) else GivenOut(piece, stops, eos, r)
  }

  /** generate_tokens as a whole.  However it samples, a reply is complete, and there
      is one if the context has room for the budget; under arg-max it succeeds exactly
      if the greedy reply fits, and then it is that reply. */
  method Generate(engine: LLMEngine, piece: nat -> Bytes, stops: seq<Bytes>, prompt: seq<nat>, maxNew: int, eos: int, reset: bool)
      returns (ok: bool, r: GenerationResult)
    requires engine.Valid()
    modifies engine, engine.kv, engine.mtp
    ensures engine.Valid() && engine.plain == old(engine.plain)
    ensures ok ==> prompt != [] && maxNew >= 1 && 1 <= |r.ids| <= maxNew
    ensures var start := (if reset then [] else old(engine.consumed)) + prompt;
      && (ok ==> Complete(engine.m, engine.plain, piece, stops, start, maxNew, eos, r) && engine.consumed == start + r.ids[..|r.ids| - 1])
      && (prompt != [] && Roomy(engine.m, start, maxNew) ==> ok)
    ensures engine.plain && prompt != [] && maxNew >= 1 ==>
      var start := (if reset then [] else old(engine.consumed)) + prompt;
      && (ok <==> Fits(engine.m, start, StopReply(engine.m, piece, stops, start, maxNew, eos)))
      && (ok ==> IsReply(engine.m, piece, stops, start, maxNew, eos, r))
  {
    hide Fold, Pairs, KeepsLayout, Text, GreedyRun, Greedy, Reply, QuietBefore, GivenOut, NoStop, StopReply, LLMEngine.Valid;
    ghost var start := (if reset then [] else engine.consumed) + prompt;
    if stops == [] {
      if prompt != [] && maxNew >= 1 {
        StopReplyIsGreedy(engine.m, piece, start, maxNew, eos);
      }
      ok, r := GenerateTokens(engine, piece, prompt, maxNew, eos, reset);
      if ok {
        NothingIsQuiet(piece, r.ids);
      }
    } else {
      ok, r := GenerateUntilStop(engine, piece, stops, prompt, maxNew, eos, reset);
    }
  }

  lemma NothingIsQuiet(piece: nat -> Bytes, ids: seq<nat>)
    ensures QuietBefore(piece, [], ids) && NoStop([], Text(piece, ids))
  {
  }

  lemma QuietAtFirst(piece: nat -> Bytes, stops: seq<Bytes>, ids: seq<nat>)
    requires |ids| == 1
    ensures QuietBefore(piece, stops, ids)
  {
  }

  lemma ReplyGrowsOne(m: Model, plain: bool, start: seq<nat>, ids: seq<nat>, next: nat, eos: int)
    requires Reply(m, plain, start, ids, eos) && ids[|ids| - 1] != eos
    requires plain ==> next == GreedyNext(m, start + ids)
    ensures Reply(m, plain, start, ids + [next], eos)
  {
    assert start + ids + [] == start + ids;
    ReplyGrows(m, plain, start, ids, [next], eos);
  }

  lemma FirstTokenGiven(piece: nat -> Bytes, matcher: Matcher, eos: int, ids: seq<nat>, hit: bool)
    requires |ids| == 1 && Matched(matcher, piece, ids, hit) && (hit || ids[0] == eos)
    ensures GivenOut(piece, matcher.stops, eos, GenerationResult(ids, matcher.text, true))
  {
    if !hit {
      assert matcher.text == matcher.decoded[..|matcher.text|];
      assert |matcher.text| == Released(|matcher.decoded|, matcher.longest);
    }
  }

  lemma LaterTokensGiven(piece: nat -> Bytes, matcher: Matcher, eos: int, r: GenerationResult, hit: bool)
    requires Matched(matcher, piece, r.ids, hit) && r.text == matcher.text + matcher.pending
    requires |r.ids| == 1 ==> r.ids[0] != eos
    ensures GivenOut(piece, matcher.stops, eos, r)
  {
    if hit {
      assert r.text == matcher.text;
    }
  }
}
