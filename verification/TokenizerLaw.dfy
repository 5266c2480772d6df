/** Encoding a text and decoding the ids gives the text back, exactly when no chunk
    has to fall back to single bytes after its first piece. */
module TokenizerLaw {
  import opened Wrappers
  import opened Graph
  import opened ByteAlphabet
  import opened PreTokenizer
  import opened Bpe
  import opened Tokenizer

  // ---- pieces spell whole bytes ----

  function EncodeEach(raws: seq<Bytes>): (r: Symbols)
    ensures |r| == |raws|
  {
    seq(|raws|, i requires 0 <= i < |raws| => Encoded(raws[i]))
  }

  function Singles(raw: Bytes): (r: seq<Bytes>)
    ensures |r| == |raw|
  {
    seq(|raw|, i requires 0 <= i < |raw| => [raw[i]])
  }

  predicate NoneEmpty(raws: seq<Bytes>) {
    forall i :: 0 <= i < |raws| ==> raws[i] != []
  }

  lemma {:induction false} JoinedSingles(raw: Bytes)
    ensures Joined(Singles(raw)) == raw
  {
    if raw != [] {
      assert Singles(raw)[1..] == Singles(raw[1..]);
      JoinedSingles(raw[1..]);
    }
  }

  lemma EncodedOne(b: byte)
    ensures Encoded([b]) == Symbol(b)
  {
    assert [b][1..] == [];
    assert Encoded([b]) == Symbol(b) + Encoded([]);
  }

  lemma SymbolIsOneChar(b: byte, rest: Bytes)
    ensures Len(Symbol(b) + rest, 0) == |Symbol(b)|
  {
    SymbolShape(b);
  }

  /** Splitting into characters finds the bytes' symbols again. */
  lemma {:induction false} CharsOfEncoded(raw: Bytes)
    ensures Chars(Encoded(raw)) == EncodeEach(Singles(raw))
  {
    hide Symbol, Len;
    if raw != [] {
      var rest := Encoded(raw[1..]);
      var s := Symbol(raw[0]) + rest;
      SymbolIsOneChar(raw[0], rest);
      assert s[..|Symbol(raw[0])|] == Symbol(raw[0]) && s[|Symbol(raw[0])|..] == rest;
      CharsOfEncoded(raw[1..]);
      EncodedOne(raw[0]);
      assert Singles(raw) == [[raw[0]]] + Singles(raw[1..]);
      EncodeEachCons([raw[0]], Singles(raw[1..]));
      assert Chars(s) == [Symbol(raw[0])] + EncodeEach(Singles(raw[1..]));
    }
  }

  lemma JoinedCons(x: Bytes, rest: seq<Bytes>)
    ensures Joined([x] + rest) == x + Joined(rest)
  {
    assert ([x] + rest)[1..] == rest;
  }

  lemma EncodeEachCons(x: Bytes, rest: seq<Bytes>)
    ensures EncodeEach([x] + rest) == [Encoded(x)] + EncodeEach(rest)
  {
  }

  lemma EncodeEachTail(raws: seq<Bytes>, n: nat)
    requires n <= |raws|
    ensures EncodeEach(raws)[n..] == EncodeEach(raws[n..])
  {
  }

  /** Merging a pair joins the bytes that the two symbols spell. */
  lemma {:induction false} MergeAllSpells(raws: seq<Bytes>, a: Bytes, b: Bytes) returns (r: seq<Bytes>)
    requires NoneEmpty(raws)
    ensures MergeAll(EncodeEach(raws), a, b) == EncodeEach(r) && Joined(r) == Joined(raws) && NoneEmpty(r)
    decreases |raws|
  {
    var s := EncodeEach(raws);
    if |raws| < 2 {
      r := raws;
    } else if s[0] == a && s[1] == b {
      var rest := MergeAllSpells(raws[2..], a, b);
      EncodeEachTail(raws, 2);
      r := [raws[0] + raws[1]] + rest;
      EncodedAppend(raws[0], raws[1]);
      EncodeEachCons(raws[0] + raws[1], rest);
      JoinedCons(raws[0] + raws[1], rest);
      assert Joined(raws) == raws[0] + (raws[1] + Joined(raws[2..])) by {
        assert raws[1..][0] == raws[1] && raws[1..][1..] == raws[2..];
      }
      assert MergeAll(s, a, b) == [a + b] + MergeAll(s[2..], a, b);
    } else {
      var rest := MergeAllSpells(raws[1..], a, b);
      EncodeEachTail(raws, 1);
      r := [raws[0]] + rest;
      EncodeEachCons(raws[0], rest);
      JoinedCons(raws[0], rest);
      assert MergeAll(s, a, b) == [s[0]] + MergeAll(s[1..], a, b);
    }
  }

  lemma {:induction false} RoundsSpell(m: Merges, raws: seq<Bytes>) returns (r: seq<Bytes>)
    requires NoneEmpty(raws)
    ensures ByRounds(m, EncodeEach(raws)) == EncodeEach(r) && Joined(r) == Joined(raws) && NoneEmpty(r)
    decreases |raws|
  {
    var s := EncodeEach(raws);
    match BestPair(m, s)
    case None =>
      r := raws;
    case Some(i) =>
      MergeAllShrinks(s, s[i], s[i + 1], i);
      var merged := MergeAllSpells(raws, s[i], s[i + 1]);
      r := RoundsSpell(m, merged);
  }

  /** The pieces of a chunk spell its bytes in order. */
  lemma PiecesSpell(m: Merges, chunk: Bytes) returns (raws: seq<Bytes>)
    ensures PiecesOf(m, chunk) == EncodeEach(raws) && Joined(raws) == chunk && NoneEmpty(raws)
  {
    CharsOfEncoded(chunk);
    JoinedSingles(chunk);
    raws := RoundsSpell(m, Singles(chunk));
  }

  // ---- one chunk ----

  /** How many pieces are in the vocabulary before the first that is not. */
  function Known(v: Vocabulary, pieces: Symbols): (n: nat)
    ensures n <= |pieces| && (n < |pieces| ==> pieces[n] !in v.ids)
    ensures forall i :: 0 <= i < n ==> pieces[i] in v.ids
  {
    if pieces == [] || pieces[0] !in v.ids then 0 else 1 + Known(v, pieces[1..])
  }

  /** No piece is missing, or the first one is. */
  predicate Clean(v: Vocabulary, m: Merges, chunk: Bytes) {
    var n := Known(v, PiecesOf(m, chunk));
    n == |PiecesOf(m, chunk)| || n == 0
  }

  ghost predicate Complete(v: Vocabulary) {
    forall b: byte :: Symbol(b) in v.ids
  }

  lemma Reassociate(a: Bytes, b: Bytes, c: Bytes)
    ensures a + b + c == a + (b + c)
  {
  }

  lemma {:induction false} DecodeAppend(v: Vocabulary, d: map<Bytes, byte>, a: seq<nat>, b: seq<nat>)
    ensures DecodeAll(v, d, a + b) == DecodeAll(v, d, a) + DecodeAll(v, d, b)
  {
    hide DecodeId;
    if a == [] {
      assert a + b == b;
    } else {
      assert (a + b)[1..] == a[1..] + b;
      DecodeAppend(v, d, a[1..], b);
      Reassociate(DecodeId(v, d, a[0]), DecodeAll(v, d, a[1..]), DecodeAll(v, d, b));
    }
  }

  lemma DecodeKnown(v: Vocabulary, d: map<Bytes, byte>, raw: Bytes)
    requires Consistent(v) && IsDecoder(d) && Encoded(raw) in v.ids
    ensures DecodeAll(v, d, [v.ids[Encoded(raw)]]) == raw
  {
    DecodedEncoded(d, raw, []);
    assert Encoded(raw) + [] == Encoded(raw);
    assert DecodeAll(v, d, [v.ids[Encoded(raw)]]) == DecodeId(v, d, v.ids[Encoded(raw)]) + [];
  }

  lemma {:induction false} ByteIdsDecode(v: Vocabulary, d: map<Bytes, byte>, chunk: Bytes)
    requires Consistent(v) && IsDecoder(d) && Complete(v)
    ensures DecodeAll(v, d, ByteIds(v, chunk)) == chunk
  {
    if chunk != [] {
      ByteIdsDecode(v, d, chunk[1..]);
      EncodedOne(chunk[0]);
      DecodeKnown(v, d, [chunk[0]]);
      DecodeAppend(v, d, [v.ids[Symbol(chunk[0])]], ByteIds(v, chunk[1..]));
    }
  }

  lemma NothingDecodes(v: Vocabulary, d: map<Bytes, byte>)
    ensures DecodeAll(v, d, []) == []
  {
  }

  lemma EachAt(raws: seq<Bytes>)
    ensures raws != [] ==> EncodeEach(raws)[0] == Encoded(raws[0])
  {
  }

  /** What the pieces decode to: the known ones, and the whole chunk again if one is
      missing. */
  lemma {:induction false} EmittedDecodes(v: Vocabulary, d: map<Bytes, byte>, raws: seq<Bytes>, chunk: Bytes)
    requires Consistent(v) && IsDecoder(d) && Complete(v)
    ensures var n := Known(v, EncodeEach(raws));
      DecodeAll(v, d, Emitted(v, EncodeEach(raws), chunk)) == Joined(raws[..n]) + if n < |raws| then chunk else []
  {
    hide IsDecoder, Consistent, Complete, DecodeAll, ByteIds, EncodeEach;
    var pieces := EncodeEach(raws);
    if raws == [] {
      NothingDecodes(v, d);
    } else if pieces[0] !in v.ids {
      ByteIdsDecode(v, d, chunk);
    } else {
      assert pieces[0] == Encoded(raws[0]) by {
        EachAt(raws);
      }
      EncodeEachTail(raws, 1);
      EmittedDecodes(v, d, raws[1..], chunk);
      DecodeKnown(v, d, raws[0]);
      DecodeAppend(v, d, [v.ids[pieces[0]]], Emitted(v, pieces[1..], chunk));
      var n := Known(v, pieces);
      assert raws[..n] == [raws[0]] + raws[1..][..n - 1];
      JoinedCons(raws[0], raws[1..][..n - 1]);
    }
  }

  lemma JoinedPrefix(raws: seq<Bytes>, n: nat)
    requires n <= |raws| && NoneEmpty(raws)
    ensures n > 0 ==> Joined(raws[..n]) != []
  {
  }

  /** A chunk decodes to itself if it is clean, and to something longer if not. */
  lemma ChunkRoundTrip(v: Vocabulary, d: map<Bytes, byte>, m: Merges, chunk: Bytes)
    requires Consistent(v) && IsDecoder(d) && Complete(v)
    ensures var t := DecodeAll(v, d, Emitted(v, PiecesOf(m, chunk), chunk));
      if Clean(v, m, chunk) then t == chunk else |t| > |chunk|
  {
    var raws := PiecesSpell(m, chunk);
    EmittedDecodes(v, d, raws, chunk);
    var n := Known(v, PiecesOf(m, chunk));
    JoinedPrefix(raws, n);
    assert raws[..|raws|] == raws;
  }

  // ---- whole texts ----

  /** Every chunk of the plain segments is clean. */
  predicate AllClean(v: Vocabulary, m: Merges, f: Profile, segments: seq<Segment>) {
    forall i :: 0 <= i < |segments| && !segments[i].special ==> ChunksClean(v, m, Pieces(f, segments[i].text, 0))
  }

  predicate ChunksClean(v: Vocabulary, m: Merges, chunks: seq<Bytes>) {
    forall i :: 0 <= i < |chunks| ==> Clean(v, m, chunks[i])
  }

  lemma {:induction false} ChunksRoundTrip(v: Vocabulary, d: map<Bytes, byte>, m: Merges, chunks: seq<Bytes>)
    requires Consistent(v) && IsDecoder(d) && Complete(v)
    ensures var t := DecodeAll(v, d, ChunksIds(v, m, chunks));
      if ChunksClean(v, m, chunks) then t == Joined(chunks) else |t| > |Joined(chunks)|
  {
    hide Clean, Emitted, PiecesOf, IsDecoder, Complete, Consistent;
    if chunks != [] {
      ChunkRoundTrip(v, d, m, chunks[0]);
      ChunksRoundTrip(v, d, m, chunks[1..]);
      DecodeAppend(v, d, Emitted(v, PiecesOf(m, chunks[0]), chunks[0]), ChunksIds(v, m, chunks[1..]));
      assert ChunksClean(v, m, chunks) <==> Clean(v, m, chunks[0]) && ChunksClean(v, m, chunks[1..]);
    }
  }

  /** An added token that has an id and spells itself. */
  predicate Literal(v: Vocabulary, p: Bytes) {
    p in v.added && forall i :: 0 <= i < |p| ==> !(0xC2 <= p[i] as int <= 0xC5)
  }

  lemma SegmentRoundTrip(v: Vocabulary, d: map<Bytes, byte>, m: Merges, f: Profile, s: Segment)
    requires Consistent(v) && IsDecoder(d) && Complete(v) && (s.special ==> Literal(v, s.text))
    ensures var t := DecodeAll(v, d, SegmentIds(v, m, f, s));
      if s.special || ChunksClean(v, m, Pieces(f, s.text, 0)) then t == s.text else |t| > |s.text|
  {
    if s.special {
      StandsForItself(d, s.text);
      assert DecodeAll(v, d, [v.added[s.text]]) == DecodeId(v, d, v.added[s.text]) + [];
    } else {
      hide ChunksIds, Pieces, ChunksClean, IsDecoder, Complete, Consistent;
      ChunksRoundTrip(v, d, m, Pieces(f, s.text, 0));
      PiecesPartition(f, s.text, 0);
      assert s.text[0..] == s.text;
    }
  }

  lemma {:induction false} SegmentsRoundTrip(v: Vocabulary, d: map<Bytes, byte>, m: Merges, f: Profile, segments: seq<Segment>)
    requires Consistent(v) && IsDecoder(d) && Complete(v)
    requires forall i :: 0 <= i < |segments| && segments[i].special ==> Literal(v, segments[i].text)
    ensures var t := DecodeAll(v, d, SegmentsIds(v, m, f, segments));
      if AllClean(v, m, f, segments) then t == TextOf(segments) else |t| > |TextOf(segments)|
  {
    hide SegmentIds, Literal, ChunksClean, Pieces, IsDecoder, Complete, Consistent;
    if segments != [] {
      SegmentRoundTrip(v, d, m, f, segments[0]);
      SegmentsRoundTrip(v, d, m, f, segments[1..]);
      DecodeAppend(v, d, SegmentIds(v, m, f, segments[0]), SegmentsIds(v, m, f, segments[1..]));
      assert AllClean(v, m, f, segments) <==>
        (segments[0].special || ChunksClean(v, m, Pieces(f, segments[0].text, 0))) && AllClean(v, m, f, segments[1..]);
    }
  }

  /** Decoding the encoding of a text gives the text exactly if every chunk is
      clean. */
  lemma RoundTripExactly(v: Vocabulary, d: map<Bytes, byte>, m: Merges, f: Profile, patterns: seq<Bytes>, text: Bytes, segments: seq<Segment>)
    requires Consistent(v) && IsDecoder(d) && Complete(v) && Splits(patterns, text, segments)
    requires forall p :: p in patterns ==> Literal(v, p)
    ensures DecodeAll(v, d, SegmentsIds(v, m, f, segments)) == text <==> AllClean(v, m, f, segments)
  {
    SplitsPartition(patterns, text, segments);
    SegmentsRoundTrip(v, d, m, f, segments);
  }

  /** The vocabulary of the single bytes. */
  function ByteVocabulary(): Vocabulary {
    Vocabulary(SymbolIds(256), seq(256, i requires 0 <= i < 256 => Symbol(i as char)), map[])
  }

  /** The symbols of the bytes below `n`. */
  function SymbolIds(n: nat): map<Bytes, nat>
    requires n <= 256
  {
    if n == 0 then map[] else SymbolIds(n - 1)[Symbol((n - 1) as char) := n - 1]
  }

  lemma {:induction false} SymbolIdsAre(n: nat)
    requires n <= 256
    ensures forall b: byte :: (b as int) < n ==> Symbol(b) in SymbolIds(n)
    ensures forall p <- SymbolIds(n) :: SymbolIds(n)[p] < n && Symbol(SymbolIds(n)[p] as char) == p
  {
    hide Symbol;
    if n > 0 {
      SymbolIdsAre(n - 1);
    }
  }

  lemma ByteVocabularyIs()
    ensures Complete(ByteVocabulary()) && Consistent(ByteVocabulary()) && "bc" !in ByteVocabulary().ids
  {
    hide Symbol;
    SymbolIdsAre(256);
    if "bc" in SymbolIds(256) {
      SymbolShape(SymbolIds(256)["bc"] as char);
      assert "bc"[0] == 'b';
    }
  }

  lemma LastTwoMerge()
    ensures PiecesOf(map[("b", "c") := 0], "abc") == ["a", "bc"]
  {
    var m: Merges, s: Symbols := map[("b", "c") := 0], ["a", "b", "c"];
    hide Symbol, Encoded, Chars;
    CharsOfEncoded("abc");
    SymbolsAre();
    assert EncodeEach(Singles("abc")) == s;
    assert IsBest(m, s, 1);
    BestIsUnique(m, s, 1);
    MergeAllShrinks(s, "b", "c", 1);
    assert s[1..] == ["b", "c"] && s[1..][2..] == [];
    assert MergeAll(s[1..], "b", "c") == ["b" + "c"] + MergeAll([], "b", "c");
    assert "b" + "c" == "bc";
    assert MergeAll(s, "b", "c") == ["a", "bc"];
    assert BestPair(m, ["a", "bc"]) == None;
  }

  lemma OneWord(f: Profile)
    requires !f.triples && f.letter(97) && f.letter(98) && f.letter(99)
    ensures Pieces(f, "abc", 0) == ["abc"]
  {
    var t: Bytes := "abc";
    assert RunEnd(t, 3, InWord(f)) == 3;
    assert RunEnd(t, 2, InWord(f)) == 3;
    assert RunEnd(t, 1, InWord(f)) == 3;
    assert RunEnd(t, 0, InWord(f)) == 3;
    assert WordAt(f, t, 0) == Some(0);
    assert t[0..3] == t;
    assert Pieces(f, t, 3) == [];
  }

  lemma OneChunk(v: Vocabulary, m: Merges, f: Profile, text: Bytes)
    requires Pieces(f, text, 0) == [text]
    ensures SegmentsIds(v, m, f, [Segment(text, false)]) == Emitted(v, PiecesOf(m, text), text)
  {
    var s := Segment(text, false);
    assert [text][1..] == [] && [s][1..] == [];
    assert ChunksIds(v, m, [text]) == Emitted(v, PiecesOf(m, text), text) + ChunksIds(v, m, []);
    assert SegmentsIds(v, m, f, [s]) == SegmentIds(v, m, f, s) + SegmentsIds(v, m, f, []);
  }

  lemma FirstIsKnown(v: Vocabulary, d: map<Bytes, byte>, text: Bytes)
    requires Consistent(v) && IsDecoder(d) && Complete(v) && "bc" !in v.ids
    ensures DecodeAll(v, d, Emitted(v, ["a", "bc"], text)) == "a" + text
  {
    hide IsDecoder, Consistent, DecodeAll, Emitted, Symbol;
    var raws: seq<Bytes> := ["a", "bc"];
    SymbolsAre();
    EncodedAppend("b", "c");
    assert Encoded(raws[0]) == "a" && Encoded(raws[1]) == "bc";
    assert EncodeEach(raws) == ["a", "bc"];
    EmittedDecodes(v, d, raws, text);
    assert ["a", "bc"][1..] == ["bc"];
    assert Known(v, ["bc"]) == 0;
    assert "a" in v.ids;
    assert Known(v, ["a", "bc"]) == 1;
    assert raws[..1] == ["a"] && ["a"][1..] == [] && Joined(["a"]) == "a" + [];
  }

  lemma SymbolsAre()
    ensures Symbol('a') == Encoded("a") == "a" && Symbol('b') == Encoded("b") == "b" && Symbol('c') == Encoded("c") == "c"
  {
    EncodedOne('a');
    EncodedOne('b');
    EncodedOne('c');
  }

  /** A text that does not survive: the piece "a" is known and "bc" is not, so the
      whole chunk follows its own beginning. */
  lemma RoundTripCanFail(d: map<Bytes, byte>, f: Profile)
    requires IsDecoder(d) && !f.triples && f.letter(97) && f.letter(98) && f.letter(99)
    ensures var m: Merges, segments := map[("b", "c") := 0], [Segment("abc", false)];
      && Splits([], "abc", segments) && Complete(ByteVocabulary()) && Consistent(ByteVocabulary())
      && DecodeAll(ByteVocabulary(), d, SegmentsIds(ByteVocabulary(), m, f, segments)) == "aabc"
  {
    hide PiecesOf, Pieces, IsDecoder, Complete, Consistent, ByteVocabulary, DecodeAll, Emitted;
    ByteVocabularyIs();
    LastTwoMerge();
    OneWord(f);
    OneChunk(ByteVocabulary(), map[("b", "c") := 0], f, "abc");
    FirstIsKnown(ByteVocabulary(), d, "abc");
    assert "a" + "abc" == "aabc";
  }

  /** A vocabulary closed under its merges makes every chunk clean: then every
      text survives. */
  ghost predicate Closed(v: Vocabulary, m: Merges) {
    forall p :: p in m && p.0 in v.ids && p.1 in v.ids ==> p.0 + p.1 in v.ids
  }

  predicate AllKnown(v: Vocabulary, s: Symbols) {
    forall i :: 0 <= i < |s| ==> s[i] in v.ids
  }

  lemma {:induction false} MergeAllKnown(v: Vocabulary, s: Symbols, a: Bytes, b: Bytes)
    requires AllKnown(v, s) && a + b in v.ids
    ensures AllKnown(v, MergeAll(s, a, b))
    decreases |s|
  {
    if |s| >= 2 {
      if s[0] == a && s[1] == b {
        MergeAllKnown(v, s[2..], a, b);
      } else {
        MergeAllKnown(v, s[1..], a, b);
      }
    }
  }

  lemma {:induction false} RoundsKnown(v: Vocabulary, m: Merges, s: Symbols)
    requires Closed(v, m) && AllKnown(v, s)
    ensures AllKnown(v, ByRounds(m, s))
    decreases |s|
  {
    match BestPair(m, s)
    case None =>
    case Some(i) =>
      MergeAllShrinks(s, s[i], s[i + 1], i);
      assert (s[i], s[i + 1]) in m;
      MergeAllKnown(v, s, s[i], s[i + 1]);
      RoundsKnown(v, m, MergeAll(s, s[i], s[i + 1]));
  }

  lemma ClosedIsClean(v: Vocabulary, m: Merges, chunk: Bytes)
    requires Closed(v, m) && Complete(v)
    ensures Clean(v, m, chunk)
  {
    CharsOfEncoded(chunk);
    var s := EncodeEach(Singles(chunk));
    forall i | 0 <= i < |s|
      ensures s[i] in v.ids
    {
      EncodedOne(chunk[i]);
    }
    RoundsKnown(v, m, s);
  }

  lemma ClosedRoundTrip(v: Vocabulary, d: map<Bytes, byte>, m: Merges, f: Profile, patterns: seq<Bytes>, text: Bytes, segments: seq<Segment>)
    requires Consistent(v) && IsDecoder(d) && Complete(v) && Closed(v, m) && Splits(patterns, text, segments)
    requires forall p :: p in patterns ==> Literal(v, p)
    ensures DecodeAll(v, d, SegmentsIds(v, m, f, segments)) == text
  {
    forall chunk
      ensures Clean(v, m, chunk)
    {
      ClosedIsClean(v, m, chunk);
    }
    RoundTripExactly(v, d, m, f, patterns, text, segments);
  }
}
