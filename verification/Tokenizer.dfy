/** Byte-level BPE encoding and decoding, engine/tokenizer.cpp:204-233 and 738-860,
    and when decoding returns the encoded text. */
module Tokenizer {
  import opened Wrappers
  import opened Graph
  import opened ByteAlphabet
  import opened PreTokenizer
  import opened Bpe

  // ---- added tokens (784-813) ----

  datatype Segment = Segment(text: Bytes, special: bool)

  predicate OccursAt(text: Bytes, p: Bytes, at: nat) {
    at + |p| <= |text| && text[at..at + |p|] == p
  }

  ghost predicate AnyAt(patterns: seq<Bytes>, text: Bytes, at: nat) {
    exists p :: p in patterns && OccursAt(text, p, at)
  }

  /** The next added token: the earliest, and the longest there. */
  ghost predicate IsNext(patterns: seq<Bytes>, text: Bytes, at: nat, p: Bytes) {
    && p in patterns && OccursAt(text, p, at)
    && (forall b: nat :: b < at ==> !AnyAt(patterns, text, b))
    && (forall q :: q in patterns && OccursAt(text, q, at) ==> |q| <= |p|)
  }

  /** A splitting of a text: added tokens as they come, plain text without any
      between them. */
  ghost predicate Splits(patterns: seq<Bytes>, text: Bytes, segments: seq<Segment>)
    decreases |segments|
  {
    if text == [] then segments == []
    else if segments == [] then false
    else
      var s := segments[0];
      if s.special then
        IsNext(patterns, text, 0, s.text) && s.text != [] && Splits(patterns, text[|s.text|..], segments[1..])
      else if |segments| == 1 then
        s.text == text && forall at: nat :: !AnyAt(patterns, text, at)
      else
        && s.text != [] && s.text <= text && segments[1].special && IsNext(patterns, text, |s.text|, segments[1].text)
        && Splits(patterns, text[|s.text|..], segments[1..])
  }

  lemma {:induction false} SplitsPartition(patterns: seq<Bytes>, text: Bytes, segments: seq<Segment>)
    requires Splits(patterns, text, segments)
    ensures TextOf(segments) == text
    ensures forall i :: 0 <= i < |segments| ==> segments[i].text != []
    ensures forall i :: 0 <= i < |segments| && segments[i].special ==> segments[i].text in patterns
    decreases |segments|
  {
    if text != [] {
      var s := segments[0];
      if s.special || |segments| > 1 {
        SplitsPartition(patterns, text[|s.text|..], segments[1..]);
        assert text == s.text + text[|s.text|..];
      } else {
        assert segments[1..] == [];
      }
    }
  }

  function TextOf(segments: seq<Segment>): Bytes {
    if segments == [] then [] else segments[0].text + TextOf(segments[1..])
  }

  method Find(text: Bytes, p: Bytes) returns (at: Option<nat>)
    ensures at.Some? ==> OccursAt(text, p, at.value) && forall b: nat :: b < at.value ==> !OccursAt(text, p, b)
    ensures at.None? ==> forall b: nat :: !OccursAt(text, p, b)
  {
    var i := 0;
    while i + |p| <= |text|
      invariant forall b: nat :: b < i ==> !OccursAt(text, p, b)
    {
      if text[i..i + |p|] == p {
        return Some(i);
      }
      i := i + 1;
    }
    at := None;
  }

  /** `r` is the next match, if any. */
  ghost predicate Found(patterns: seq<Bytes>, text: Bytes, r: Option<(nat, nat)>) {
    match r
    case None => forall at: nat :: !AnyAt(patterns, text, at)
    case Some(m) => m.0 + m.1 <= |text| && IsNext(patterns, text, m.0, text[m.0..m.0 + m.1])
  }

  /** The earliest match over all patterns, the longest where several start. */
  method FindNext(patterns: seq<Bytes>, text: Bytes) returns (r: Option<(nat, nat)>)
    ensures Found(patterns, text, r)
  {
    r := None;
    NothingFound(text);
    hide Found;
    for k := 0 to |patterns|
      invariant Found(patterns[..k], text, r)
    {
      var p := patterns[k];
      var at := Find(text, p);
      ghost var before := r;
      if at.Some? && (r.None? || at.value < r.value.0 || (at.value == r.value.0 && |p| > r.value.1)) {
        r := Some((at.value, |p|));
      }
      BetterOfTwo(patterns[..k], text, p, before, at, r);
      assert patterns[..k + 1] == patterns[..k] + [p];
    }
    assert patterns[..|patterns|] == patterns;
  }

  lemma NothingFound(text: Bytes)
    ensures Found([], text, None)
  {
  }

  lemma BetterOfTwo(patterns: seq<Bytes>, text: Bytes, p: Bytes, before: Option<(nat, nat)>, at: Option<nat>, r: Option<(nat, nat)>)
    requires Found(patterns, text, before)
    requires at.Some? ==> OccursAt(text, p, at.value) && forall b: nat :: b < at.value ==> !OccursAt(text, p, b)
    requires at.None? ==> forall b: nat :: !OccursAt(text, p, b)
    requires r == if at.Some? && (before.None? || at.value < before.value.0 || (at.value == before.value.0 && |p| > before.value.1))
                  then Some((at.value, |p|)) else before
    ensures Found(patterns + [p], text, r)
  {
    if before.Some? && r == before {
      var q := text[before.value.0..before.value.0 + before.value.1];
      StillNext(patterns, text, p, before.value.0, q);
    } else if r.Some? {
      assert text[at.value..at.value + |p|] == p;
      forall q
        ensures q in patterns && OccursAt(text, q, at.value) ==> |q| <= |p|
      {
        Matching(patterns, text, q, at.value);
      }
      NowNext(patterns, text, p, at.value);
    } else {
      forall b: nat
        ensures !AnyAt(patterns + [p], text, b)
      {
        OneMorePattern(patterns, p, text, b);
      }
    }
  }

  lemma Matching(patterns: seq<Bytes>, text: Bytes, q: Bytes, b: nat)
    ensures q in patterns && OccursAt(text, q, b) ==> AnyAt(patterns, text, b)
  {
  }

  lemma StillNext(patterns: seq<Bytes>, text: Bytes, p: Bytes, at: nat, q: Bytes)
    requires IsNext(patterns, text, at, q)
    requires forall b: nat :: b < at ==> !OccursAt(text, p, b)
    requires OccursAt(text, p, at) ==> |p| <= |q|
    ensures IsNext(patterns + [p], text, at, q)
  {
    hide AnyAt, OccursAt;
    forall b: nat
      ensures b < at ==> !AnyAt(patterns + [p], text, b)
    {
      OneMorePattern(patterns, p, text, b);
    }
  }

  lemma NowNext(patterns: seq<Bytes>, text: Bytes, p: Bytes, at: nat)
    requires OccursAt(text, p, at) && forall b: nat :: b < at ==> !OccursAt(text, p, b)
    requires forall b: nat :: b < at ==> !AnyAt(patterns, text, b)
    requires forall q :: q in patterns && OccursAt(text, q, at) ==> |q| <= |p|
    ensures IsNext(patterns + [p], text, at, p)
  {
    hide AnyAt, OccursAt;
    forall b: nat
      ensures b < at ==> !AnyAt(patterns + [p], text, b)
    {
      OneMorePattern(patterns, p, text, b);
    }
    assert p in patterns + [p];
  }

  lemma OneMorePattern(patterns: seq<Bytes>, p: Bytes, text: Bytes, b: nat)
    ensures AnyAt(patterns + [p], text, b) <==> AnyAt(patterns, text, b) || OccursAt(text, p, b)
  {
    if AnyAt(patterns, text, b) {
      var q :| q in patterns && OccursAt(text, q, b);
      assert q in patterns + [p];
    }
    assert p in patterns + [p];
  }

  lemma LaterText(patterns: seq<Bytes>, text: Bytes, n: nat, at: nat)
    requires n <= |text|
    ensures forall p :: OccursAt(text[n..], p, at) <==> OccursAt(text, p, n + at)
    ensures AnyAt(patterns, text[n..], at) <==> AnyAt(patterns, text, n + at)
  {
    forall p
      ensures OccursAt(text[n..], p, at) <==> OccursAt(text, p, n + at)
    {
      if n + at + |p| <= |text| {
        assert text[n..][at..at + |p|] == text[n + at..n + at + |p|];
      }
    }
  }

  /** However the rest is split, these segments come before it. */
  ghost predicate Precedes(patterns: seq<Bytes>, text: Bytes, segments: seq<Segment>, rest: Bytes) {
    forall more :: Splits(patterns, rest, more) ==> Splits(patterns, text, segments + more)
  }

  /** split_added_tokens. */
  method SplitAddedTokens(text: Bytes, patterns: seq<Bytes>) returns (segments: seq<Segment>)
    requires forall p :: p in patterns ==> p != []
    ensures Splits(patterns, text, segments)
  {
    hide Precedes, Splits, IsNext, AnyAt;
    segments := [];
    var remaining := text;
    NothingPrecedes(patterns, text);
    while remaining != []
      invariant Precedes(patterns, text, segments, remaining)
      decreases |remaining|
    {
      var next := FindNext(patterns, remaining);
      if next.None? {
        LastSegment(patterns, text, segments, remaining);
        return segments + [Segment(remaining, false)];
      }
      var at, length := next.value.0, next.value.1;
      var p := remaining[at..at + length];
      var found := if at > 0 then [Segment(remaining[..at], false), Segment(p, true)] else [Segment(p, true)];
      NextIsPattern(patterns, remaining, at, p);
      FoundPrecedes(patterns, text, segments, remaining, at, p);
      segments := segments + found;
      remaining := remaining[at + length..];
    }
    NoneLeft(patterns, text, segments);
  }

  lemma NextIsPattern(patterns: seq<Bytes>, text: Bytes, at: nat, p: Bytes)
    requires IsNext(patterns, text, at, p)
    ensures p in patterns
  {
  }

  lemma LastSegment(patterns: seq<Bytes>, text: Bytes, segments: seq<Segment>, remaining: Bytes)
    requires Precedes(patterns, text, segments, remaining) && remaining != [] && Found(patterns, remaining, None)
    ensures Splits(patterns, text, segments + [Segment(remaining, false)])
  {
    assert Splits(patterns, remaining, [Segment(remaining, false)]);
  }

  lemma NoneLeft(patterns: seq<Bytes>, text: Bytes, segments: seq<Segment>)
    requires Precedes(patterns, text, segments, [])
    ensures Splits(patterns, text, segments)
  {
    assert Splits(patterns, [], []);
    assert segments + [] == segments;
  }

  lemma NothingPrecedes(patterns: seq<Bytes>, text: Bytes)
    ensures Precedes(patterns, text, [], text)
  {
    forall more | Splits(patterns, text, more)
      ensures Splits(patterns, text, [] + more)
    {
      assert [] + more == more;
    }
  }

  lemma FoundPrecedes(patterns: seq<Bytes>, text: Bytes, segments: seq<Segment>, remaining: Bytes, at: nat, p: Bytes)
    requires Precedes(patterns, text, segments, remaining) && IsNext(patterns, remaining, at, p) && p != []
    ensures var found := if at > 0 then [Segment(remaining[..at], false), Segment(p, true)] else [Segment(p, true)];
      Precedes(patterns, text, segments + found, remaining[at + |p|..])
  {
    var found := if at > 0 then [Segment(remaining[..at], false), Segment(p, true)] else [Segment(p, true)];
    hide IsNext, AnyAt, OccursAt, Splits;
    var rest := remaining[at + |p|..];
    forall more | Splits(patterns, rest, more)
      ensures Splits(patterns, text, segments + found + more)
    {
      FoundSplits(patterns, remaining, at, p, more);
      Grouped(segments, found, more);
    }
  }

  lemma Grouped(a: seq<Segment>, b: seq<Segment>, c: seq<Segment>)
    ensures a + b + c == a + (b + c)
  {
  }

  lemma FoundSplits(patterns: seq<Bytes>, remaining: Bytes, at: nat, p: Bytes, more: seq<Segment>)
    requires at + |p| <= |remaining| && IsNext(patterns, remaining, at, p) && p != [] && Splits(patterns, remaining[at + |p|..], more)
    ensures var found := if at > 0 then [Segment(remaining[..at], false), Segment(p, true)] else [Segment(p, true)];
      Splits(patterns, remaining, found + more)
  {
    MatchedFirst(patterns, remaining, at, p, more);
    hide IsNext, AnyAt, OccursAt;
    if at > 0 {
      var rest := [Segment(remaining[..at], false), Segment(p, true)] + more;
      assert rest[1..] == [Segment(p, true)] + more;
      assert remaining[..at] <= remaining;
    } else {
      assert remaining[0..] == remaining;
    }
  }

  lemma MatchedFirst(patterns: seq<Bytes>, text: Bytes, at: nat, p: Bytes, rest: seq<Segment>)
    requires IsNext(patterns, text, at, p) && p != [] && Splits(patterns, text[at + |p|..], rest)
    ensures Splits(patterns, text[at..], [Segment(p, true)] + rest)
  {
    var segments := [Segment(p, true)] + rest;
    assert segments[1..] == rest && text[at..][|p|..] == text[at + |p|..];
    LaterText(patterns, text, at, 0);
    assert text[at..] != [];
  }

  // ---- the vocabulary (204-233) ----

  datatype Vocabulary = Vocabulary(ids: map<Bytes, nat>, pieces: seq<Bytes>, added: map<Bytes, nat>)

  /** No id is given to two strings. */
  ghost predicate DistinctIds(ids: map<Bytes, nat>) {
    forall p, q :: p in ids && q in ids && ids[p] == ids[q] ==> p == q
  }

  /** Ids and pieces are inverse to each other, and added tokens are in both. */
  ghost predicate Consistent(v: Vocabulary) {
    && (forall p <- v.ids :: v.ids[p] < |v.pieces| && v.pieces[v.ids[p]] == p)
    && forall p <- v.added :: p in v.ids && v.ids[p] == v.added[p]
  }

  method LoadVocabulary(entries: map<Bytes, nat>, addedTokens: seq<(nat, Bytes)>) returns (v: Vocabulary)
    ensures DistinctIds(v.ids) ==> Consistent(v)
    ensures forall p :: p in v.added <==> exists i :: 0 <= i < |addedTokens| && addedTokens[i].1 == p
    ensures v.ids.Keys == entries.Keys + v.added.Keys
    ensures forall i :: 0 <= i < |addedTokens| && LastListing(addedTokens, i) ==> v.added[addedTokens[i].1] == addedTokens[i].0
    ensures forall p <- v.added :: v.ids[p] == v.added[p]
    ensures forall p <- entries :: p !in v.added ==> v.ids[p] == entries[p]
    ensures forall p <- v.ids :: v.ids[p] < |v.pieces|
    ensures forall k :: 0 <= k < |v.pieces| && v.pieces[k] != [] ==> v.pieces[k] in v.ids && v.ids[v.pieces[k]] == k
  {
    var maxId := MaxId(entries);
    var ids, added;
    ids, added, maxId := AddTokens(entries, addedTokens, maxId);
    AddedAre(addedTokens);
    var pieces := PiecesById(ids, maxId);
    v := Vocabulary(ids, pieces, added);
  }

  method MaxId(entries: map<Bytes, nat>) returns (maxId: nat)
    ensures forall p <- entries :: entries[p] <= maxId
  {
    maxId := 0;
    var rest := entries.Keys;
    while rest != {}
      invariant rest <= entries.Keys && forall p <- entries :: p !in rest ==> entries[p] <= maxId
    {
      assert (forall p: Bytes :: p !in rest) ==> rest == {};
      var p :| p in rest;
      maxId, rest := if entries[p] > maxId then entries[p] else maxId, rest - {p};
    }
  }

  /** The added tokens one by one: later ones win, also over the entries. */
  method AddTokens(entries: map<Bytes, nat>, addedTokens: seq<(nat, Bytes)>, maxId0: nat)
      returns (ids: map<Bytes, nat>, added: map<Bytes, nat>, maxId: nat)
    requires forall p <- entries :: entries[p] <= maxId0
    ensures added == Added(addedTokens) && ids == entries + added && forall p <- ids :: ids[p] <= maxId
  {
    ids, added, maxId := entries, map[], maxId0;
    for i := 0 to |addedTokens|
      invariant added == Added(addedTokens[..i]) && ids == entries + added && forall p <- ids :: ids[p] <= maxId
    {
      assert addedTokens[..i + 1][..i] == addedTokens[..i];
      var (id, content) := addedTokens[i];
      added, ids := added[content := id], ids[content := id];
      maxId := if id > maxId then id else maxId;
    }
    assert addedTokens[..|addedTokens|] == addedTokens;
  }

  ghost function Added(addedTokens: seq<(nat, Bytes)>): map<Bytes, nat> {
    if addedTokens == [] then map[]
    else
      var n := |addedTokens| - 1;
      Added(addedTokens[..n])[addedTokens[n].1 := addedTokens[n].0]
  }

  lemma {:induction false} AddedAre(addedTokens: seq<(nat, Bytes)>)
    ensures forall p :: p in Added(addedTokens) <==> exists i :: 0 <= i < |addedTokens| && addedTokens[i].1 == p
    ensures forall i :: 0 <= i < |addedTokens| && LastListing(addedTokens, i) ==>
      Added(addedTokens)[addedTokens[i].1] == addedTokens[i].0
  {
    if addedTokens != [] {
      var n := |addedTokens| - 1;
      var before := addedTokens[..n];
      AddedAre(before);
      assert forall i :: 0 <= i < n ==> before[i] == addedTokens[i];
      forall i | 0 <= i < |addedTokens| && LastListing(addedTokens, i)
        ensures Added(addedTokens)[addedTokens[i].1] == addedTokens[i].0
      {
        if i < n {
          assert LastListing(before, i) && addedTokens[n].1 != addedTokens[i].1;
        }
      }
      forall p
        ensures p in Added(addedTokens) <==> exists i :: 0 <= i < |addedTokens| && addedTokens[i].1 == p
      {
        if p in Added(before) {
          var i :| 0 <= i < |before| && before[i].1 == p;
          assert addedTokens[i].1 == p;
        }
        assert addedTokens[n].1 == p ==> p in Added(addedTokens);
        if i :| 0 <= i < |addedTokens| && addedTokens[i].1 == p {
          assert i < n ==> before[i].1 == p;
        }
      }
    }
  }

  /** No later listing has the same content. */
  predicate LastListing(addedTokens: seq<(nat, Bytes)>, i: nat)
    requires i < |addedTokens|
  {
    forall j :: i < j < |addedTokens| ==> addedTokens[j].1 != addedTokens[i].1
  }

  /** The id table, filled in whatever order the map yields. */
  method PiecesById(ids: map<Bytes, nat>, maxId: nat) returns (pieces: seq<Bytes>)
    requires forall p <- ids :: ids[p] <= maxId
    ensures |pieces| == maxId + 1
    ensures forall k :: 0 <= k < |pieces| && pieces[k] != [] ==> pieces[k] in ids && ids[pieces[k]] == k
    ensures DistinctIds(ids) ==> forall p <- ids :: pieces[ids[p]] == p
  {
    pieces := seq(maxId + 1, _ => []);
    var rest := ids.Keys;
    while rest != {}
      invariant rest <= ids.Keys && |pieces| == maxId + 1
      invariant forall k :: 0 <= k < |pieces| && pieces[k] != [] ==> pieces[k] in ids && ids[pieces[k]] == k
      invariant DistinctIds(ids) ==> forall p <- ids :: p !in rest ==> pieces[ids[p]] == p
    {
      assert (forall p: Bytes :: p !in rest) ==> rest == {};
      var p :| p in rest;
      pieces, rest := pieces[ids[p] := p], rest - {p};
    }
  }

  // ---- one chunk (738-779, 831-847) ----

  /** The characters of a string, by the lenient decoder. */
  function Chars(s: Bytes): (r: Symbols)
    decreases |s|
  {
    if s == [] then [] else [s[..Len(s, 0)]] + Chars(s[Len(s, 0)..])
  }

  lemma LenOfRest(s: Bytes, i: nat)
    requires i < |s|
    ensures Len(s[i..], 0) == Len(s, i)
  {
  }

  /** The character loop of bpe (743-748). */
  method SplitChars(token: Bytes) returns (parts: Symbols)
    ensures parts == Chars(token)
  {
    hide Len;
    parts := [];
    var i := 0;
    assert token[0..] == token;
    while i < |token|
      invariant 0 <= i <= |token| && parts + Chars(token[i..]) == Chars(token)
    {
      ghost var rest := token[i..];
      var len := Len(token, i);
      LenOfRest(token, i);
      assert rest[..len] == token[i..i + len] && rest[len..] == token[i + len..];
      parts := parts + [token[i..i + len]];
      i := i + len;
    }
    assert token[i..] == [];
  }

  /** bpe. */
  method BytePairs(m: Merges, token: Bytes) returns (parts: Symbols)
    ensures parts == ByRounds(m, Chars(token))
  {
    parts := SplitChars(token);
    parts := Merge(m, parts);
  }

  /** The bytes one by one, those without a symbol left out. */
  function ByteIds(v: Vocabulary, chunk: Bytes): seq<nat> {
    if chunk == [] then []
    else (if Symbol(chunk[0]) in v.ids then [v.ids[Symbol(chunk[0])]] else []) + ByteIds(v, chunk[1..])
  }

  /** Pieces up to the first that is missing; then the whole chunk byte by byte. */
  function Emitted(v: Vocabulary, pieces: Symbols, chunk: Bytes): seq<nat> {
    if pieces == [] then []
    else if pieces[0] in v.ids then [v.ids[pieces[0]]] + Emitted(v, pieces[1..], chunk)
    else ByteIds(v, chunk)
  }

  function PiecesOf(m: Merges, chunk: Bytes): Symbols {
    ByRounds(m, Chars(Encoded(chunk)))
  }

  method EncodeChunk(v: Vocabulary, m: Merges, encoder: map<byte, Bytes>, chunk: Bytes) returns (ids: seq<nat>)
    requires forall b: byte :: b in encoder && encoder[b] == Symbol(b)
    ensures ids == Emitted(v, PiecesOf(m, chunk), chunk)
  {
    var encoded := BytesToUnicode(encoder, chunk);
    var pieces := BytePairs(m, encoded);
    ids := EmitPieces(v, encoder, pieces, chunk);
  }

  method EmitPieces(v: Vocabulary, encoder: map<byte, Bytes>, pieces: Symbols, chunk: Bytes) returns (ids: seq<nat>)
    requires forall b: byte :: b in encoder && encoder[b] == Symbol(b)
    ensures ids == Emitted(v, pieces, chunk)
  {
    hide Symbol, ByteIds;
    ids := [];
    assert pieces[0..] == pieces;
    for k := 0 to |pieces|
      invariant ids + Emitted(v, pieces[k..], chunk) == Emitted(v, pieces, chunk)
    {
      assert pieces[k..][1..] == pieces[k + 1..];
      if pieces[k] in v.ids {
        ids := ids + [v.ids[pieces[k]]];
      } else {
        var bytes := EncodeBytes(v, encoder, chunk);
        return ids + bytes;
      }
    }
    assert pieces[|pieces|..] == [];
  }

  method EncodeBytes(v: Vocabulary, encoder: map<byte, Bytes>, chunk: Bytes) returns (ids: seq<nat>)
    requires forall b: byte :: b in encoder && encoder[b] == Symbol(b)
    ensures ids == ByteIds(v, chunk)
  {
    hide Symbol;
    ids := [];
    assert chunk[0..] == chunk;
    for k := 0 to |chunk|
      invariant ids + ByteIds(v, chunk[k..]) == ByteIds(v, chunk)
    {
      assert chunk[k..][1..] == chunk[k + 1..];
      if encoder[chunk[k]] in v.ids {
        ids := ids + [v.ids[encoder[chunk[k]]]];
      }
    }
    assert chunk[|chunk|..] == [];
  }

  // ---- whole texts (815-860) ----

  function ChunksIds(v: Vocabulary, m: Merges, chunks: seq<Bytes>): seq<nat> {
    if chunks == [] then [] else Emitted(v, PiecesOf(m, chunks[0]), chunks[0]) + ChunksIds(v, m, chunks[1..])
  }

  function SegmentIds(v: Vocabulary, m: Merges, f: Profile, s: Segment): seq<nat> {
    if s.special then if s.text in v.added then [v.added[s.text]] else []
    else ChunksIds(v, m, Pieces(f, s.text, 0))
  }

  function SegmentsIds(v: Vocabulary, m: Merges, f: Profile, segments: seq<Segment>): seq<nat> {
    if segments == [] then [] else SegmentIds(v, m, f, segments[0]) + SegmentsIds(v, m, f, segments[1..])
  }

  /** encode. */
  method Encode(v: Vocabulary, m: Merges, f: Profile, encoder: map<byte, Bytes>, patterns: seq<Bytes>, text: Bytes)
      returns (ids: seq<nat>, ghost segments: seq<Segment>)
    requires forall b: byte :: b in encoder && encoder[b] == Symbol(b)
    requires forall p :: p in patterns ==> p != []
    ensures Splits(patterns, text, segments) && ids == SegmentsIds(v, m, f, segments)
  {
    hide Splits, SegmentIds;
    var split := SplitAddedTokens(text, patterns);
    segments := split;
    ids := [];
    assert split[0..] == split;
    for k := 0 to |split|
      invariant ids + SegmentsIds(v, m, f, split[k..]) == SegmentsIds(v, m, f, split)
    {
      assert split[k..][1..] == split[k + 1..];
      var more := EncodeSegment(v, m, f, encoder, split[k]);
      ids := ids + more;
    }
    assert split[|split|..] == [];
  }

  method EncodeSegment(v: Vocabulary, m: Merges, f: Profile, encoder: map<byte, Bytes>, s: Segment) returns (ids: seq<nat>)
    requires forall b: byte :: b in encoder && encoder[b] == Symbol(b)
    ensures ids == SegmentIds(v, m, f, s)
  {
    if s.special {
      return if s.text in v.added then [v.added[s.text]] else [];
    }
    var chunks := PreTokenize(f, s.text);
    ids := EncodeChunks(v, m, encoder, chunks);
  }

  method EncodeChunks(v: Vocabulary, m: Merges, encoder: map<byte, Bytes>, chunks: seq<Bytes>) returns (ids: seq<nat>)
    requires forall b: byte :: b in encoder && encoder[b] == Symbol(b)
    ensures ids == ChunksIds(v, m, chunks)
  {
    hide Emitted, PiecesOf;
    ids := [];
    assert chunks[0..] == chunks;
    for k := 0 to |chunks|
      invariant ids + ChunksIds(v, m, chunks[k..]) == ChunksIds(v, m, chunks)
    {
      assert chunks[k..][1..] == chunks[k + 1..];
      var more := EncodeChunk(v, m, encoder, chunks[k]);
      ids := ids + more;
    }
    assert chunks[|chunks|..] == [];
  }

  /** decode of one id. */
  function DecodeId(v: Vocabulary, d: map<Bytes, byte>, id: nat): Bytes {
    if id < |v.pieces| then Decoded(d, v.pieces[id]) else []
  }

  function DecodeAll(v: Vocabulary, d: map<Bytes, byte>, ids: seq<nat>): Bytes {
    if ids == [] then [] else DecodeId(v, d, ids[0]) + DecodeAll(v, d, ids[1..])
  }
}
