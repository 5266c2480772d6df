/** What the cutting of a text comes to in concrete terms: UTF-8, contractions, runs of
    digits, and the pieces of a sample text. */
module PreTokenizerLaws {
  import opened Wrappers
  import opened Graph
  import opened ByteAlphabet
  import opened PreTokenizer

  // ---- UTF-8 ----

  function Utf8(cp: nat): Bytes
    requires cp < 0x110000
  {
    if cp < 0x80 then [cp as char]
    else if cp < 0x800 then [(0xC0 + cp / 64) as char, (0x80 + cp % 64) as char]
    else if cp < 0x10000 then [(0xE0 + cp / 4096) as char, (0x80 + cp / 64 % 64) as char, (0x80 + cp % 64) as char]
    else [(0xF0 + cp / 262144) as char, (0x80 + cp / 4096 % 64) as char, (0x80 + cp / 64 % 64) as char, (0x80 + cp % 64) as char]
  }

  /** Every code point is read from its encoding, whatever follows. */
  lemma Utf8Reads(cp: nat, rest: Bytes)
    requires cp < 0x110000
    ensures Utf8(cp) != [] && Cp(Utf8(cp) + rest, 0) == cp && Len(Utf8(cp) + rest, 0) == |Utf8(cp)|
  {
    if 0x80 <= cp < 0x800 {
      Reads2(cp, rest);
    } else if 0x800 <= cp < 0x10000 {
      Reads3(cp, rest);
    } else if cp >= 0x10000 {
      Reads4(cp, rest);
    }
  }

  lemma Reads2(cp: nat, rest: Bytes)
    requires 0x80 <= cp < 0x800
    ensures Cp(Utf8(cp) + rest, 0) == cp && Len(Utf8(cp) + rest, 0) == 2
  {
    var s := Utf8(cp) + rest;
    assert s[0] as int % 32 == cp / 64 && s[1] as int % 64 == cp % 64;
    assert Len(s, 0) == 2;
  }

  lemma Reads3(cp: nat, rest: Bytes)
    requires 0x800 <= cp < 0x10000
    ensures Cp(Utf8(cp) + rest, 0) == cp && Len(Utf8(cp) + rest, 0) == 3
  {
    var s := Utf8(cp) + rest;
    Digits(cp);
    assert s[0] as int % 16 == cp / 4096 && s[1] as int % 64 == cp / 64 % 64 && s[2] as int % 64 == cp % 64;
    assert Len(s, 0) == 3;
  }

  lemma Reads4(cp: nat, rest: Bytes)
    requires 0x10000 <= cp < 0x110000
    ensures Cp(Utf8(cp) + rest, 0) == cp && Len(Utf8(cp) + rest, 0) == 4
  {
    var s := Utf8(cp) + rest;
    Digits(cp);
    assert s[0] as int % 8 == cp / 262144 && s[1] as int % 64 == cp / 4096 % 64;
    assert s[2] as int % 64 == cp / 64 % 64 && s[3] as int % 64 == cp % 64;
    assert Len(s, 0) == 4;
  }

  lemma Digits(cp: nat)
    ensures cp == cp / 4096 * 4096 + cp / 64 % 64 * 64 + cp % 64
    ensures cp / 4096 == cp / 262144 * 64 + cp / 4096 % 64
  {
    var a := cp / 64;
    assert cp == a * 64 + cp % 64 && a == a / 64 * 64 + a % 64 && a / 64 == cp / 4096;
  }

  // ---- the byte alphabet ----

  /** The character that stands for a byte: itself if it is printable, and otherwise one
      of U+0100 to U+0143, in the order of the bytes. */
  lemma SymbolStandsFor(b: byte, c: byte)
    ensures CodePoint(b as int) < 0x800 && Symbol(b) == Utf8(CodePoint(b as int))
    ensures Printable(b as int) ==> Cp(Symbol(b), 0) == b as int
    ensures !Printable(b as int) ==> 0x100 <= Cp(Symbol(b), 0) <= 0x143
    ensures !Printable(b as int) && !Printable(c as int) && b < c ==> Cp(Symbol(b), 0) < Cp(Symbol(c), 0)
  {
    SkippedIs(b as int);
    SkippedIs(c as int);
    Utf8Reads(CodePoint(b as int), []);
    Utf8Reads(CodePoint(c as int), []);
    assert Utf8(CodePoint(b as int)) + [] == Utf8(CodePoint(b as int)) && Utf8(CodePoint(c as int)) + [] == Utf8(CodePoint(c as int));
  }

  // ---- contractions ----

  /** The contractions are exactly 's, 't, 'm, 'd, 're, 've and 'll, in any case. */
  lemma ContractionsAre(t: Bytes, a: nat)
    requires a < |t|
    ensures Contraction(t, a) == 2 <==>
      t[a] == '\'' && a + 1 < |t| && t[a + 1] in {'s', 'S', 't', 'T', 'm', 'M', 'd', 'D'}
    ensures Contraction(t, a) == 3 <==>
      t[a] == '\'' && a + 2 < |t|
      && ((t[a + 1] in {'r', 'R', 'v', 'V'} && t[a + 2] in {'e', 'E'}) || (t[a + 1] in {'l', 'L'} && t[a + 2] in {'l', 'L'}))
    ensures Contraction(t, a) in {0, 2, 3}
  {
  }

  // ---- digits ----

  /** How many characters the stretch from `a` to `p` has. */
  function Count(t: Bytes, a: nat, p: nat): nat
    requires a <= |t|
    decreases |t| - a
  {
    if a < |t| && a < p then 1 + Count(t, a + Len(t, a), p) else 0
  }

  lemma {:induction false} UpToIs(t: Bytes, a: nat, f: int -> bool, n: nat)
    requires a <= |t|
    ensures var p := RunUpTo(t, a, f, n);
      && AllTo(t, a, p, f) && Count(t, a, p) <= n
      && (Count(t, a, p) < n ==> p == |t| || !f(Cp(t, p)))
    decreases n
  {
    if n > 0 && a < |t| && f(Cp(t, a)) {
      var next := a + Len(t, a);
      UpToIs(t, next, f, n - 1);
      AllToGrows(t, next, RunUpTo(t, next, f, n - 1), f);
    }
  }

  /** In the staged profile digits come in pieces of at most three, a shorter one only
      where the digits end; in the other profile one by one. */
  lemma DigitPieces(f: Profile, t: Bytes, a: nat)
    requires a < |t|
    ensures f.triples && f.tripleDigit(Cp(t, a)) ==>
      var p := PieceEnd(f, t, a);
      && AllTo(t, a, p, f.tripleDigit) && 1 <= Count(t, a, p) <= 3
      && (Count(t, a, p) < 3 ==> p == |t| || !f.tripleDigit(Cp(t, p)))
    ensures !f.triples && IsDigit(Cp(t, a)) && !f.letter(Cp(t, a)) ==> PieceEnd(f, t, a) == a + Len(t, a)
  {
    UpToIs(t, a, f.tripleDigit, 3);
    if f.triples && f.tripleDigit(Cp(t, a)) {
      assert RunUpTo(t, a, f.tripleDigit, 3) == RunUpTo(t, a + Len(t, a), f.tripleDigit, 2);
    }
  }

  // ---- maximal runs ----

  /** From `a` to `p` all characters satisfy `f`, and the next one does not. */
  predicate Maximal(t: Bytes, a: nat, p: nat, f: int -> bool)
    requires a <= |t|
  {
    AllTo(t, a, p, f) && p <= |t| && (p < |t| ==> !f(Cp(t, p)))
  }

  /** In the staged profile a CJK run is one piece, and so are an ASCII symbol and all
      ASCII letters after it. */
  lemma StagedPieces(f: Profile, t: Bytes, a: nat)
    requires a < |t| && f.triples && !f.tripleDigit(Cp(t, a))
    ensures f.cjk(Cp(t, a)) ==> PieceEnd(f, t, a) > a && Maximal(t, a, PieceEnd(f, t, a), f.cjk)
    ensures var next := a + Len(t, a);
      !f.cjk(Cp(t, a)) && f.symbol(Cp(t, a)) && Cp(t, a) < 0x80 && next < |t| && IsAsciiLetter(Cp(t, next)) ==>
        PieceEnd(f, t, a) > next && Maximal(t, next, PieceEnd(f, t, a), IsAsciiLetter)
  {
    RunHolds(t, a, f.cjk, f.cjk);
    if a + Len(t, a) < |t| {
      RunHolds(t, a + Len(t, a), IsAsciiLetter, IsAsciiLetter);
    }
  }

  /** There, what comes before a CJK run does not take it along, unless it is a letter or a
      digit: a space, say, is a piece of its own. */
  lemma CjkStartsAPiece(f: Profile, t: Bytes, a: nat)
    requires a < |t| && f.triples
    requires var c := Cp(t, a); !f.letter(c) && !f.cjk(c) && !f.tripleDigit(c) && (IsBlank(c) ==> Len(t, a) == 1)
    requires var next := a + Len(t, a);
      next < |t| && f.cjk(Cp(t, next)) && !f.symbol(Cp(t, next)) && Cp(t, next) >= 0x80
    ensures PieceEnd(f, t, a) == a + Len(t, a)
  {
    var next := a + Len(t, a);
    assert FirstAlternatives(f, t, a).None? && WordAt(f, t, a).None?;
    assert t[next] as int >= 0x80 && BytesEnd(t, next) == next;
    RunOfOne(t, a, InPunctuation(f));
    RunOfOne(t, a, IsBlank);
    RunOfOne(t, a, IsNewline);
    hide RunEnd, BytesEnd, RunUpTo;
  }

  lemma RunOfOne(t: Bytes, a: nat, f: int -> bool)
    requires a < |t| && a + Len(t, a) < |t| && !f(Cp(t, a + Len(t, a)))
    ensures RunEnd(t, a, f) == if f(Cp(t, a)) then a + Len(t, a) else a
  {
  }

  /** A word, when no earlier alternative applies, goes on through all letters and marks. */
  lemma WordsAreMaximal(f: Profile, t: Bytes, a: nat)
    requires a < |t| && FirstAlternatives(f, t, a).None?
    ensures WordStart(f, Cp(t, a)) && !PrefixAllowed(f, Cp(t, a)) ==> Maximal(t, a, PieceEnd(f, t, a), InWord(f))
    ensures var next := a + Len(t, a);
      PrefixAllowed(f, Cp(t, a)) && next < |t| && WordStart(f, Cp(t, next)) ==>
        PieceEnd(f, t, a) > next && Maximal(t, next, PieceEnd(f, t, a), InWord(f))
  {
    RunHolds(t, a, InWord(f), InWord(f));
    if a + Len(t, a) < |t| {
      RunHolds(t, a + Len(t, a), InWord(f), InWord(f));
    }
  }

  // ---- sample texts ----

  /** The tables as far as ASCII goes. */
  ghost predicate Ascii(f: Profile) {
    forall c: int :: 0 <= c < 0x80 ==>
      && (f.letter(c) <==> 0x41 <= c <= 0x5A || 0x61 <= c <= 0x7A) && !f.mark(c) && !f.cjk(c)
      && (f.tripleDigit(c) <==> 0x30 <= c <= 0x39)
      && (f.symbol(c) <==> 0x21 <= c <= 0x2F || 0x3A <= c <= 0x40 || 0x5B <= c <= 0x60 || 0x7B <= c <= 0x7E)
  }

  /** How the alternatives class ASCII characters. */
  lemma AsciiClasses(f: Profile, c: int)
    requires Ascii(f) && 0 <= c < 0x80
    ensures IsSpace(c) <==> c in {9, 10, 11, 12, 13, 32}
    ensures IsBlank(c) <==> c in {9, 11, 12, 32}
    ensures WordStart(f, c) <==> f.letter(c)
    ensures !f.triples ==> (PrefixAllowed(f, c) <==> c !in {10, 13} && !f.letter(c) && !(0x30 <= c <= 0x39))
    ensures !f.triples ==> (Punctuation(f, c) <==> c !in {9, 10, 11, 12, 13, 32} && !f.letter(c) && !(0x30 <= c <= 0x39))
    ensures f.triples ==> (PrefixAllowed(f, c) <==> (c <= 0x20 && c !in {10, 13}) || 0x30 <= c <= 0x39 || c == 0x7F)
    ensures f.triples ==> (Punctuation(f, c) <==> 0x21 <= c <= 0x7E && !f.letter(c) && !(0x30 <= c <= 0x39))
  {
  }

  lemma AsciiAt(t: Bytes, i: nat)
    requires i < |t| && t[i] as int < 0x80
    ensures Cp(t, i) == t[i] as int && Len(t, i) == 1
  {
  }

  /** A run of ASCII characters ends where the next one does not satisfy `f`. */
  lemma {:induction false} RunsTo(t: Bytes, a: nat, b: nat, f: int -> bool)
    requires a <= b <= |t| && (forall i :: a <= i < b ==> t[i] as int < 0x80 && f(t[i] as int))
    requires b == |t| || (t[b] as int < 0x80 && !f(t[b] as int))
    ensures RunEnd(t, a, f) == b
    decreases b - a
  {
    if a < b {
      AsciiAt(t, a);
      RunsTo(t, a + 1, b, f);
    } else if b < |t| {
      AsciiAt(t, b);
    }
  }

  lemma OnePiece(f: Profile, t: Bytes, a: nat, b: nat)
    requires a < |t| && PieceEnd(f, t, a) == b
    ensures Pieces(f, t, a) == [t[a..b]] + Pieces(f, t, b)
  {
  }

  /** A word, after one character that may come before it or without. */
  lemma WordPiece(f: Profile, t: Bytes, a: nat, b: nat, w: nat)
    requires Ascii(f) && a <= w <= a + 1 && w < b <= |t| && forall i :: a <= i < |t| ==> t[i] as int < 0x80
    requires forall i :: w <= i < b ==> f.letter(t[i] as int)
    requires b == |t| || !f.letter(t[b] as int)
    requires w > a ==> t[a] == ' '
    ensures PieceEnd(f, t, a) == b
  {
    AsciiAt(t, a);
    AsciiAt(t, w);
    RunsTo(t, w, b, InWord(f));
    hide RunEnd, RunUpTo, BytesEnd, NewlinesEnd, BlanksEnd, PunctuationAt;
    assert FirstAlternatives(f, t, a).None?;
    if a + 1 < |t| {
      AsciiAt(t, a + 1);
    }
    assert WordAt(f, t, a) == Some(w);
  }

  const SAMPLE: Bytes := "I'll pay 12!\n\n ok"

  lemma SampleEnds(f: Profile)
    requires Ascii(f) && !f.triples
    ensures |SAMPLE| == 17
    ensures PieceEnd(f, SAMPLE, 0) == 1 && PieceEnd(f, SAMPLE, 1) == 4 && PieceEnd(f, SAMPLE, 4) == 8 && PieceEnd(f, SAMPLE, 8) == 9
    ensures PieceEnd(f, SAMPLE, 9) == 10 && PieceEnd(f, SAMPLE, 10) == 11 && PieceEnd(f, SAMPLE, 11) == 14 && PieceEnd(f, SAMPLE, 14) == 17
  {
    hide Cp, Len, RunEnd, RunUpTo, BytesEnd, Contraction, PieceEnd, Pieces, WordAt;
    WordPiece(f, SAMPLE, 0, 1, 0);
    ContractionPiece(f, SAMPLE);
    WordPiece(f, SAMPLE, 4, 8, 4 + 1);
    SpaceBeforeDigit(f, SAMPLE, 8);
    OneDigit(f, SAMPLE, 9);
    OneDigit(f, SAMPLE, 10);
    MarkAndNewlines(f, SAMPLE, 11, 12, 14);
    WordPiece(f, SAMPLE, 14, 17, 14 + 1);
  }

  lemma SampleParts()
    ensures |SAMPLE| == 17
    ensures SAMPLE[0..1] == "I" && SAMPLE[1..4] == "'ll" && SAMPLE[4..8] == " pay" && SAMPLE[8..9] == " " && SAMPLE[9..10] == "1"
    ensures SAMPLE[10..11] == "2" && SAMPLE[11..14] == "!\n\n" && SAMPLE[14..17] == " ok"
  {
  }

  /** The pieces of a text in the unstaged profile: contraction, words with their
      space, single digits, punctuation with the newlines after it. */
  lemma SamplePieces(f: Profile)
    requires Ascii(f) && !f.triples
    ensures Pieces(f, SAMPLE, 0) == ["I", "'ll", " pay", " ", "1", "2", "!\n\n", " ok"]
  {
    SampleParts();
    hide *;
    SampleEnds(f);
    OnePiece(f, SAMPLE, 0, 1);
    OnePiece(f, SAMPLE, 1, 4);
    OnePiece(f, SAMPLE, 4, 8);
    OnePiece(f, SAMPLE, 8, 9);
    OnePiece(f, SAMPLE, 9, 10);
    OnePiece(f, SAMPLE, 10, 11);
    OnePiece(f, SAMPLE, 11, 14);
    OnePiece(f, SAMPLE, 14, 17);
    NoPieces(f, SAMPLE);
  }

  lemma NoPieces(f: Profile, t: Bytes)
    ensures Pieces(f, t, |t|) == []
  {
  }

  lemma ContractionPiece(f: Profile, t: Bytes)
    requires Ascii(f) && !f.triples && t == SAMPLE
    ensures PieceEnd(f, t, 1) == 4
  {
    ContractionsAre(t, 1);
    AsciiAt(t, 1);
    hide RunEnd, RunUpTo, BytesEnd, NewlinesEnd, BlanksEnd, PunctuationAt, WordAt, Contraction;
  }

  lemma OneDigit(f: Profile, t: Bytes, a: nat)
    requires Ascii(f) && !f.triples && a < |t| && '0' <= t[a] <= '9'
    ensures PieceEnd(f, t, a) == a + 1
  {
    AsciiAt(t, a);
    DigitPieces(f, t, a);
  }

  /** A space that nothing takes along is a piece of its own. */
  lemma SpaceBeforeDigit(f: Profile, t: Bytes, a: nat)
    requires Ascii(f) && !f.triples && a + 1 < |t| && t[a] == ' ' && '0' <= t[a + 1] <= '9'
    ensures PieceEnd(f, t, a) == a + 1
  {
    AsciiAt(t, a);
    AsciiAt(t, a + 1);
    RunsTo(t, a, a + 1, IsBlank);
  }

  /** One punctuation character and the newlines after it. */
  lemma MarkAndNewlines(f: Profile, t: Bytes, a: nat, b: nat, c: nat)
    requires Ascii(f) && !f.triples && b == a + 1 && b <= c <= |t| && (forall i :: b <= i < c ==> t[i] == '\n')
    requires t[a] == '!' && (b == |t| || (t[b] as int < 0x80 && t[b] == '\n')) && (c == |t| || (t[c] != '\n' && t[c] != '\r'))
    ensures PieceEnd(f, t, a) == c
  {
    AsciiAt(t, a);
    if b < |t| {
      AsciiAt(t, b);
    }
    RunsTo(t, a, b, InPunctuation(f));
    NewlinesTo(t, b, c);
    hide RunEnd, BytesEnd;
    assert PunctuationAt(f, t, a) == Some(a);
  }

  lemma {:induction false} NewlinesTo(t: Bytes, b: nat, c: nat)
    requires b <= c <= |t| && (forall i :: b <= i < c ==> t[i] == '\n') && (c == |t| || (t[c] != '\n' && t[c] != '\r'))
    ensures BytesEnd(t, b) == c
    decreases c - b
  {
    if b < c {
      NewlinesTo(t, b + 1, c);
    }
  }
}
