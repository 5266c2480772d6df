/** The two front ends that keep the engine's cache between requests:
    Server::handle of examples/server.cpp and run_turn_multi of examples/main.cpp. */
module Serving {
  import opened Wrappers
  import opened Graph
  import opened Decoding
  import opened Engine
  import opened Generation
  import opened StopGeneration

  /** common_prefix, server.cpp:291-296 and main.cpp:306-311. */
  method CommonPrefix(a: seq<nat>, b: seq<nat>) returns (n: nat)
    ensures n <= |a| && n <= |b| && a[..n] == b[..n]
    ensures n < |a| && n < |b| ==> a[n] != b[n]
  {
    n := 0;
    while n < |a| && n < |b| && a[n] == b[n]
      invariant n <= |a| && n <= |b| && a[..n] == b[..n]
    {
      n := n + 1;
    }
  }

  /** Keeps the cache if it begins the prompt and rebuilds otherwise
      (server.cpp:365-371, main.cpp:427-436); what is left is still to prefill. */
  method Reuse(engine: LLMEngine, cached0: seq<nat>, full: seq<nat>) returns (cached: seq<nat>, delta: seq<nat>)
    requires engine.Valid() && cached0 == engine.consumed
    modifies engine
    ensures engine.Valid() && engine.plain == old(engine.plain)
    ensures cached == engine.consumed == (if cached0 <= full then cached0 else [])
    ensures cached + delta == full
  {
    hide Fold, Pairs, KeepsLayout;
    cached := cached0;
    var prefix := CommonPrefix(cached, full);
    assert cached0[..|cached0|] == cached0;
    if prefix < |cached| {
      engine.Reset();
      cached, prefix := [], 0;
    }
    delta := full[prefix..];
  }

  /** The cached tokens a request reuses: all of them, if they begin the prompt
      and leave something to prefill. */
  function Reused(cached: seq<nat>, full: seq<nat>): (r: seq<nat>)
    ensures r <= full && (full != [] ==> r < full)
  {
    if cached < full then cached else []
  }

  /** The front end's decoder and what ends a reply. */
  datatype Decoder = Decoder(piece: nat -> Bytes, stops: seq<Bytes>, eos: int)

  /** What an engine holding `prefix` cached tokens answers to the whole prompt. */
  ghost function Served(m: Model, d: Decoder, prefix: nat, full: seq<nat>, maxTokens: int): Option<seq<nat>> {
    var available := m.context - prefix;
    if full == [] || maxTokens < 1 || available < 1 then None
    else
      var r := StopReply(m, d.piece, d.stops, full, Min(maxTokens, available), d.eos);
      if Fits(m, full, r) then Some(r) else None
  }

  /** The remaining context cuts the budget of a reply that it leaves unfinished. */
  ghost predicate CutShort(m: Model, d: Decoder, prefix: nat, full: seq<nat>, maxTokens: int)
    requires full != [] && prefix < m.context
  {
    && maxTokens > m.context - prefix
    && !Over(d.piece, d.stops, StopReply(m, d.piece, d.stops, full, m.context - prefix, d.eos), d.eos)
  }

  /** Reuse is transparent except in one case: a single new token, with a budget
      that the remaining context cuts, is answered where a fresh engine reports
      that its context is exceeded. */
  lemma ReuseIsTransparentExactly(m: Model, d: Decoder, prefix: nat, full: seq<nat>, maxTokens: int)
    requires prefix < |full| && prefix < m.context
    ensures Served(m, d, prefix, full, maxTokens) == Served(m, d, 0, full, maxTokens)
      <==> !(m.chunkLimit > 0 && 0 < prefix == |full| - 1 && CutShort(m, d, prefix, full, maxTokens))
    ensures Served(m, d, 0, full, maxTokens).Some? ==>
      Served(m, d, prefix, full, maxTokens) == Served(m, d, 0, full, maxTokens)
  {
    hide UntilStop, Over;
    if maxTokens >= 1 {
      StopBudget(m, d.piece, d.stops, full, [GreedyNext(m, full)], Min(maxTokens, m.context - prefix), Min(maxTokens, m.context), d.eos);
    }
  }

  /** A caller can tell beforehand that reuse is transparent: there are two new
      tokens, or the context leaves room for the whole budget. */
  lemma ReuseIsTransparent(m: Model, d: Decoder, prefix: nat, full: seq<nat>, maxTokens: int)
    requires prefix < |full| && (prefix == 0 || prefix + 1 < |full| || maxTokens <= m.context - prefix)
    ensures Served(m, d, prefix, full, maxTokens) == Served(m, d, 0, full, maxTokens)
  {
    hide StopReply;
    if prefix < m.context {
      ReuseIsTransparentExactly(m, d, prefix, full, maxTokens);
    }
  }

  /** Not always: with a context of two, one cached token and one new one, a budget
      of two is answered with one token, but refused by a fresh engine. */
  lemma ReuseCanDiffer(row: Row, hidden: Hidden)
    ensures var m := Model((_, b, _) => StepOut(row, b, hidden), map[], hidden, _ => 7, _ => DraftOut(0, hidden), 2, false, 0, 1);
      var d := Decoder(_ => [], [], 0);
      Served(m, d, 1, [5, 6], 2) == Some([7]) && Served(m, d, 0, [5, 6], 2) == None
  {
    var m := Model((_, b, _) => StepOut(row, b, hidden), map[], hidden, _ => 7, _ => DraftOut(0, hidden), 2, false, 0, 1);
    var d := Decoder(_ => [], [], 0);
    NothingStops(Text(d.piece, [7]));
    assert !Over(d.piece, d.stops, [7], d.eos);
    assert StopReply(m, d.piece, d.stops, [5, 6], 1, 0) == [7];
    assert [7] < StopReply(m, d.piece, d.stops, [5, 6], 2, 0);
  }

  /** A request with its prompt rendered: its budget, whether arg-max sampling is
      asked for, and whether its parameters parse, its budget can be read, and its
      sampling parameters are valid. */
  datatype Request = Request(full: seq<nat>, maxTokens: int, greedy: bool, parses: bool, budgeted: bool, valid: bool)

  /** What a request gets from an engine holding `prefix` cached tokens. */
  ghost function Wanted(m: Model, d: Decoder, prefix: nat, r: Request): Option<seq<nat>> {
    if r.parses && r.budgeted && r.valid then Served(m, d, prefix, r.full, r.maxTokens) else None
  }

  /** A request that is not refused at once. */
  predicate Asked(r: Request) {
    r.parses && r.budgeted && r.valid && r.full != [] && r.maxTokens >= 1
  }

  /** Its budget in the context that `prefix` cached tokens leave. */
  function BudgetOf(m: Model, prefix: nat, r: Request): int {
    Min(r.maxTokens, m.context - prefix)
  }

  /** What any request gets: nothing if it is refused, and a complete reply, sampled as
      asked, if it is not and there is room for its budget. */
  ghost predicate Attended(m: Model, d: Decoder, prefix: nat, r: Request, reply: Option<GenerationResult>) {
    && (reply.Some? ==> Asked(r) && Complete(m, r.greedy, d.piece, d.stops, r.full, BudgetOf(m, prefix, r), d.eos, reply.value))
    && (Asked(r) && Roomy(m, r.full, BudgetOf(m, prefix, r)) ==> reply.Some?)
  }

  class Server {
    const engine: LLMEngine
    const d: Decoder
    var cached: seq<nat>

    /** The cached token list is exactly what the engine has consumed. */
    ghost predicate Valid()
      reads this, engine, engine.kv, engine.mtp
    {
      engine.Valid() && cached == engine.consumed
    }

    constructor (e: LLMEngine, decoder: Decoder)
      requires e.Valid() && e.consumed == []
      ensures Valid() && engine == e && d == decoder
    {
      engine, d, cached := e, decoder, [];
    }

    method Clear()
      requires engine.Valid()
      modifies this, engine
      ensures Valid() && cached == [] && engine.plain == old(engine.plain)
    {
      engine.Reset();
      cached := [];
    }

    /** Server::handle, server.cpp:325-434. */
    method Handle(r: Request) returns (reply: Option<GenerationResult>)
      requires Valid()
      modifies this, engine, engine.kv, engine.mtp
      ensures Valid()
      ensures r.greedy ==> var prefix := |Reused(old(cached), r.full)|;
        && (reply.Some? <==> Wanted(engine.m, d, prefix, r).Some?)
        && (reply.Some? ==> Answers(engine.m, d, prefix, r, reply.value))
      ensures Attended(engine.m, d, |Reused(old(cached), r.full)|, r, reply) && (reply.Some? ==> engine.plain == r.greedy)
      ensures reply.Some? ==> reply.value.ids != [] && cached == r.full + reply.value.ids[..|reply.value.ids| - 1]
    {
      hide Fold, Pairs, KeepsLayout, StopReply, IsReply;
      if !r.parses || r.full == [] {
        return None;
      }
      ghost var before := cached;
      var delta;
      cached, delta := Reuse(engine, cached, r.full);
      if delta == [] {
        Clear();
        delta := r.full;
      }
      assert cached == Reused(before, r.full);
      reply := Answer(r, delta);
    }

    /** The rest of the request, once the prompt is split (377-434). */
    method Answer(r: Request, delta: seq<nat>) returns (reply: Option<GenerationResult>)
      requires Valid() && r.parses && cached + delta == r.full && delta != []
      modifies this, engine, engine.kv, engine.mtp
      ensures Valid()
      ensures r.greedy ==>
        && (reply.Some? <==> Wanted(engine.m, d, |old(cached)|, r).Some?)
        && (reply.Some? ==> Answers(engine.m, d, |old(cached)|, r, reply.value))
      ensures Attended(engine.m, d, |old(cached)|, r, reply) && (reply.Some? ==> engine.plain == r.greedy)
      ensures reply.Some? ==> reply.value.ids != [] && cached == r.full + reply.value.ids[..|reply.value.ids| - 1]
    {
      hide Fold, Pairs, KeepsLayout, StopReply, GivenOut, Text, Reply, QuietBefore, Over, LLMEngine.Valid;
      engine.PastIsConsumed();
      var available := engine.m.context - engine.past;
      if !r.budgeted || r.maxTokens < 1 || available < 1 || !r.valid {
        return None;
      }
      var maxTokens := Min(r.maxTokens, available);
      engine.SetSampling(r.greedy);
      var ok, result := Generate(engine, d.piece, d.stops, delta, maxTokens, d.eos, false);
      if !ok {
        Clear();
        return None;
      }
      cached := cached + delta;
      if |result.ids| > 1 {
        cached := cached + result.ids[..|result.ids| - 1];
      }
      // So the length-mismatch rebuild is never taken.
      engine.PastIsConsumed();
      assert |cached| == engine.past;
      reply := Some(result);
    }
  }

  /** A reply is the one wanted, tokens and text. */
  ghost predicate Answers(m: Model, d: Decoder, prefix: nat, r: Request, reply: GenerationResult) {
    && Wanted(m, d, prefix, r) == Some(reply.ids)
    && IsReply(m, d.piece, d.stops, r.full, Min(r.maxTokens, m.context - prefix), d.eos, reply)
  }

  /** Any run of requests: every greedy reply that a freshly reset engine would
      give is given, and every request whose budget the context has room for gets a
      complete reply. */
  method Serve(server: Server, requests: seq<Request>) returns (replies: seq<Option<GenerationResult>>)
    requires server.Valid()
    modifies server, server.engine, server.engine.kv, server.engine.mtp
    ensures server.Valid() && |replies| == |requests|
    ensures forall i :: 0 <= i < |requests| && requests[i].greedy ==> AsFresh(server.engine.m, server.d, requests[i], replies[i])
    ensures forall i :: 0 <= i < |requests| && Asked(requests[i]) && Roomy(server.engine.m, requests[i].full, requests[i].maxTokens) ==>
      InFull(server.engine.m, server.d, requests[i], replies[i])
  {
    hide Fold, Pairs, KeepsLayout, AsFresh, Wanted, Answers, Attended, InFull;
    replies := [];
    for i := 0 to |requests|
      invariant server.Valid() && |replies| == i
      invariant forall j :: 0 <= j < i && requests[j].greedy ==> AsFresh(server.engine.m, server.d, requests[j], replies[j])
      invariant forall j :: 0 <= j < i && Asked(requests[j]) && Roomy(server.engine.m, requests[j].full, requests[j].maxTokens) ==>
        InFull(server.engine.m, server.d, requests[j], replies[j])
    {
      var r := requests[i];
      ghost var cached := server.cached;
      var reply := server.Handle(r);
      if r.greedy {
        ReusedServes(server.engine.m, server.d, cached, r, reply);
      }
      if Asked(r) && Roomy(server.engine.m, r.full, r.maxTokens) {
        AttendedInFull(server.engine.m, server.d, cached, r, reply);
      }
      replies := replies + [reply];
    }
  }

  /** A complete reply with the budget that was asked for. */
  ghost predicate InFull(m: Model, d: Decoder, r: Request, reply: Option<GenerationResult>) {
    reply.Some? && Complete(m, r.greedy, d.piece, d.stops, r.full, r.maxTokens, d.eos, reply.value)
  }

  lemma AttendedInFull(m: Model, d: Decoder, cached: seq<nat>, r: Request, reply: Option<GenerationResult>)
    requires Asked(r) && Roomy(m, r.full, r.maxTokens) && Attended(m, d, |Reused(cached, r.full)|, r, reply)
    ensures InFull(m, d, r, reply)
  {
    hide Complete;
    assert BudgetOf(m, |Reused(cached, r.full)|, r) == r.maxTokens;
  }

  /** What a fresh engine would reply has been replied. */
  ghost predicate AsFresh(m: Model, d: Decoder, r: Request, reply: Option<GenerationResult>) {
    Wanted(m, d, 0, r).Some? ==> reply.Some? && Some(reply.value.ids) == Wanted(m, d, 0, r)
  }

  lemma ReusedServes(m: Model, d: Decoder, cached: seq<nat>, r: Request, reply: Option<GenerationResult>)
    requires var prefix := |Reused(cached, r.full)|;
      && (reply.Some? <==> Wanted(m, d, prefix, r).Some?)
      && (reply.Some? ==> Answers(m, d, prefix, r, reply.value))
    ensures AsFresh(m, d, r, reply)
  {
    hide StopReply, IsReply;
    if Wanted(m, d, 0, r).Some? {
      ReuseIsTransparentExactly(m, d, |Reused(cached, r.full)|, r.full, r.maxTokens);
    }
  }

  datatype Message = Message(role: string, text: Bytes)

  /** The interactive session of main.cpp:414-487. */
  class Session {
    const engine: LLMEngine
    const d: Decoder
    /** apply_chat: any rendering of a conversation. */
    const render: seq<Message> -> seq<nat>
    var history: seq<Message>
    var cached: seq<nat>

    ghost predicate Valid()
      reads this, engine, engine.kv, engine.mtp
    {
      engine.Valid() && cached == engine.consumed
    }

    constructor (e: LLMEngine, decoder: Decoder, template: seq<Message> -> seq<nat>)
      requires e.Valid() && e.consumed == []
      ensures Valid() && engine == e && d == decoder && history == []
    {
      engine, d, render, history, cached := e, decoder, template, [], [];
    }

    method Clear()
      requires engine.Valid()
      modifies this`cached, engine
      ensures Valid() && cached == [] && engine.plain == old(engine.plain)
    {
      engine.Reset();
      cached := [];
    }

    /** run_turn_multi: a turn either appends both messages or leaves the history
        as it was; its reply is the greedy reply to the whole conversation. */
    method Turn(input: Bytes, maxNew: int) returns (ok: bool)
      requires Valid()
      modifies this`history, this`cached, engine, engine.kv, engine.mtp
      ensures Valid() && engine.plain == old(engine.plain)
      ensures !ok ==> history == old(history)
      ensures ok ==> |history| == |old(history)| + 2 && history[..|history| - 1] == old(history) + [Message("user", input)]
      ensures var full := render(old(history) + [Message("user", input)]);
        && (ok ==> exists r :: Complete(engine.m, engine.plain, d.piece, d.stops, full, maxNew, d.eos, r)
                               && history[|history| - 1] == Message("assistant", r.text) && cached == full + r.ids[..|r.ids| - 1])
        && (full != [] && full != old(cached) && Roomy(engine.m, full, maxNew) ==> ok)
      ensures engine.plain ==>
        var full := render(old(history) + [Message("user", input)]);
        && (ok <==> full != [] && maxNew >= 1 && full != old(cached)
                    && Fits(engine.m, full, StopReply(engine.m, d.piece, d.stops, full, maxNew, d.eos)))
        && (ok ==> exists r :: IsReply(engine.m, d.piece, d.stops, full, maxNew, d.eos, r)
                               && history[|history| - 1] == Message("assistant", r.text))
    {
      hide Fold, Pairs, KeepsLayout, StopReply, IsReply, Complete, LLMEngine.Valid;
      history := history + [Message("user", input)];
      var full := render(history);
      if full == [] {
        history := history[..|history| - 1];
        return false;
      }
      var delta;
      cached, delta := Reuse(engine, cached, full);
      var result;
      ok, result := Generate(engine, d.piece, d.stops, delta, maxNew, d.eos, false);
      if !ok {
        history := history[..|history| - 1];
        Clear();
        return;
      }
      history := history + [Message("assistant", result.text)];
      cached := cached + delta;
      if |result.ids| > 1 {
        cached := cached + result.ids[..|result.ids| - 1];
      }
      // So the length-mismatch rebuild is never taken.
      engine.PastIsConsumed();
      assert |cached| == engine.past;
    }
  }
}
