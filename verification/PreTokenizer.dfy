/** pre_tokenize of engine/tokenizer.cpp:286-704: cutting a text into pieces, for any
    classification of code points into letters, marks, symbols and digits. */
module PreTokenizer {
  import opened Wrappers
  import opened Graph

  /** The tables of lines 295-390, and which of the two profiles is in use. */
  datatype Profile = Profile(triples: bool, letter: int -> bool, mark: int -> bool, symbol: int -> bool,
                             tripleDigit: int -> bool, cjk: int -> bool)

  // ---- code points (286-293), leniently decoded ----

  function Len(t: Bytes, p: nat): (r: nat)
    requires p < |t|
    ensures 1 <= r && p + r <= |t|
    ensures t[p] as int < 0x80 ==> r == 1
  {
    var c := t[p] as int;
    if 0xC0 <= c < 0xE0 && p + 2 <= |t| then 2
    else if 0xE0 <= c < 0xF0 && p + 3 <= |t| then 3
    else if 0xF0 <= c < 0xF8 && p + 4 <= |t| then 4
    else 1
  }

  function Cp(t: Bytes, p: nat): int
    requires p < |t|
  {
    var c := t[p] as int;
    match Len(t, p)
    case 2 => c % 32 * 64 + t[p + 1] as int % 64
    case 3 => c % 16 * 4096 + t[p + 1] as int % 64 * 64 + t[p + 2] as int % 64
    case 4 => c % 8 * 262144 + t[p + 1] as int % 64 * 4096 + t[p + 2] as int % 64 * 64 + t[p + 3] as int % 64
    case _ => c
  }

  /** -1 at the end, as CharReader::peek_cp. */
  function Peek(t: Bytes, p: nat): int {
    if p < |t| then Cp(t, p) else -1
  }

  predicate IsDigit(c: int) { '0' as int <= c <= '9' as int }

  predicate IsNewline(c: int) { c == 10 || c == 13 }

  predicate IsSpace(c: int) { c == 32 || 9 <= c <= 13 }

  predicate IsBlank(c: int) { IsSpace(c) && !IsNewline(c) }

  predicate IsAsciiLetter(c: int) { 'A' as int <= c <= 'Z' as int || 'a' as int <= c <= 'z' as int }

  // ---- runs ----

  /** The end of the longest run of characters satisfying `f` from `a`. */
  function RunEnd(t: Bytes, a: nat, f: int -> bool): (r: nat)
    requires a <= |t|
    ensures a <= r <= |t| && (r < |t| ==> !f(Cp(t, r)))
    ensures a < |t| && f(Cp(t, a)) ==> r >= a + Len(t, a)
    decreases |t| - a
  {
    if a < |t| && f(Cp(t, a)) then RunEnd(t, a + Len(t, a), f) else a
  }

  /** At most `n` of them. */
  function RunUpTo(t: Bytes, a: nat, f: int -> bool, n: nat): (r: nat)
    requires a <= |t|
    ensures a <= r <= |t|
    ensures n > 0 && a < |t| && f(Cp(t, a)) ==> r > a
    decreases n
  {
    if n > 0 && a < |t| && f(Cp(t, a)) then RunUpTo(t, a + Len(t, a), f, n - 1) else a
  }

  /** Newline bytes. */
  function BytesEnd(t: Bytes, a: nat): (r: nat)
    requires a <= |t|
    ensures a <= r <= |t|
    decreases |t| - a
  {
    if a < |t| && (t[a] == '\r' || t[a] == '\n') then BytesEnd(t, a + 1) else a
  }

  method Run(t: Bytes, a: nat, f: int -> bool) returns (p: nat)
    requires a <= |t|
    ensures p == RunEnd(t, a, f)
  {
    p := a;
    while p < |t| && f(Cp(t, p))
      invariant a <= p <= |t| && RunEnd(t, p, f) == RunEnd(t, a, f)
    {
      p := p + Len(t, p);
    }
  }

  method RunAtMost(t: Bytes, a: nat, f: int -> bool, n: nat) returns (p: nat)
    requires a <= |t|
    ensures p == RunUpTo(t, a, f, n)
  {
    p := a;
    var count := 0;
    while p < |t| && count < n && f(Cp(t, p))
      invariant a <= p <= |t| && count <= n && RunUpTo(t, p, f, n - count) == RunUpTo(t, a, f, n)
    {
      p, count := p + Len(t, p), count + 1;
    }
  }

  method RunBytes(t: Bytes, a: nat) returns (p: nat)
    requires a <= |t|
    ensures p == BytesEnd(t, a)
  {
    p := a;
    while p < |t| && (t[p] == '\r' || t[p] == '\n')
      invariant a <= p <= |t| && BytesEnd(t, p) == BytesEnd(t, a)
    {
      p := p + 1;
    }
  }

  // ---- the alternatives, in order ----

  function Lower(c: byte): byte {
    if 'A' <= c <= 'Z' then (c as int - 'A' as int + 'a' as int) as char else c
  }

  predicate LetterAt(t: Bytes, p: nat) {
    p < |t| && IsAsciiLetter(t[p] as int)
  }

  /** try_contraction (445-464): the bytes of 's, 't, 'm, 'd, 're, 've or 'll. */
  function Contraction(t: Bytes, a: nat): (r: nat)
    requires a < |t|
    ensures a + r <= |t|
    ensures r > 0 ==> t[a] == '\'' && LetterAt(t, a + 1) && (r == 2 || (r == 3 && LetterAt(t, a + 2)))
  {
    if t[a] != '\'' || !LetterAt(t, a + 1) then 0
    else
      var x := Lower(t[a + 1]);
      if x == 's' || x == 't' || x == 'm' || x == 'd' then 2
      else if !LetterAt(t, a + 2) then 0
      else
        var y := Lower(t[a + 2]);
        if (x == 'r' && y == 'e') || (x == 'v' && y == 'e') || (x == 'l' && y == 'l') then 3 else 0
  }

  predicate WordStart(f: Profile, c: int) {
    f.letter(c) && !(f.triples && f.cjk(c))
  }

  predicate PrefixAllowed(f: Profile, c: int) {
    !IsNewline(c) && !f.letter(c) && if f.triples then !f.symbol(c) else !IsDigit(c)
  }

  /** Where the letters of alternative 2 begin, if it applies. */
  function WordAt(f: Profile, t: Bytes, a: nat): (r: Option<nat>)
    requires a < |t|
    ensures r.Some? ==> (r.value == a || r.value == a + Len(t, a)) && r.value < |t| && WordStart(f, Cp(t, r.value))
  {
    var next := a + Len(t, a);
    if PrefixAllowed(f, Cp(t, a)) && next < |t| && WordStart(f, Cp(t, next)) then Some(next)
    else if WordStart(f, Cp(t, a)) then Some(a)
    else None
  }

  predicate Punctuation(f: Profile, c: int) {
    if f.triples then f.symbol(c) else !IsSpace(c) && !f.letter(c) && !IsDigit(c)
  }

  /** Where the punctuation of alternative 4 begins, if it applies. */
  function PunctuationAt(f: Profile, t: Bytes, a: nat): (r: Option<nat>)
    requires a < |t|
    ensures r.Some? ==> (r.value == a || r.value == a + Len(t, a)) && r.value < |t| && Punctuation(f, Cp(t, r.value))
  {
    var next := a + Len(t, a);
    if Cp(t, a) == 32 && next < |t| && Punctuation(f, Cp(t, next)) then Some(next)
    else if Punctuation(f, Cp(t, a)) then Some(a)
    else None
  }

  /** Blanks and the newlines right after them (alternative 5). */
  function NewlinesEnd(t: Bytes, a: nat): (r: Option<nat>)
    requires a < |t|
    ensures r.Some? ==> a < r.value <= |t|
  {
    var q := RunEnd(t, a, IsBlank);
    if IsNewline(Peek(t, q)) then Some(RunEnd(t, q, IsNewline)) else None
  }

  /** Blanks, leaving the last byte to what follows (alternatives 6 and 7). */
  function BlanksEnd(t: Bytes, a: nat): (r: nat)
    requires a < |t| && IsBlank(Cp(t, a))
    ensures a < r <= |t|
  {
    var q := RunEnd(t, a, IsBlank);
    if q < |t| && !IsSpace(Cp(t, q)) && q - 1 > a then q - 1 else q
  }

  /** The first two alternatives of the main expression differ by profile. */
  function FirstAlternatives(f: Profile, t: Bytes, a: nat): (r: Option<nat>)
    requires a < |t|
    ensures r.Some? ==> a < r.value <= |t|
  {
    var c, next := Cp(t, a), a + Len(t, a);
    if f.triples && f.tripleDigit(c) then Some(RunUpTo(t, a, f.tripleDigit, 3))
    else if f.triples && f.cjk(c) then Some(RunEnd(t, a, f.cjk))
    else if !f.triples && Contraction(t, a) > 0 then Some(a + Contraction(t, a))
    else if f.triples && f.symbol(c) && c < 0x80 && next < |t| && IsAsciiLetter(Cp(t, next)) then
      Some(RunEnd(t, next, IsAsciiLetter))
    else None
  }

  function InWord(f: Profile): int -> bool {
    c => f.letter(c) || f.mark(c)
  }

  function InPunctuation(f: Profile): int -> bool {
    c => Punctuation(f, c)
  }

  /** The end of the piece that starts at `a`. */
  function PieceEnd(f: Profile, t: Bytes, a: nat): (r: nat)
    requires a < |t|
    ensures a < r <= |t|
  {
    var c := Cp(t, a);
    if FirstAlternatives(f, t, a).Some? then FirstAlternatives(f, t, a).value
    else if WordAt(f, t, a).Some? then RunEnd(t, WordAt(f, t, a).value, InWord(f))
    else if IsDigit(c) then a + Len(t, a)
    else if PunctuationAt(f, t, a).Some? then BytesEnd(t, RunEnd(t, PunctuationAt(f, t, a).value, InPunctuation(f)))
    else if IsSpace(c) && NewlinesEnd(t, a).Some? then NewlinesEnd(t, a).value
    else if IsBlank(c) then BlanksEnd(t, a)
    else a + Len(t, a)
  }

  /** Alternatives 1 and 2 with their profile's stages (474-534). */
  method First(f: Profile, t: Bytes, a: nat) returns (r: Option<nat>)
    requires a < |t|
    ensures r == FirstAlternatives(f, t, a)
  {
    var c, len := Cp(t, a), Len(t, a);
    if f.triples && f.tripleDigit(c) {
      var end := RunAtMost(t, a, f.tripleDigit, 3);
      return Some(end);
    }
    if f.triples && f.cjk(c) {
      var end := Run(t, a, f.cjk);
      return Some(end);
    }
    if !f.triples {
      var length := Contraction(t, a);
      if length > 0 {
        return Some(a + length);
      }
    } else if f.symbol(c) && c < 0x80 {
      var next := a + len;
      if next < |t| && IsAsciiLetter(Cp(t, next)) {
        var end := Run(t, next, IsAsciiLetter);
        return Some(end);
      }
    }
    r := None;
  }

  /** Optional prefix and letters (536-580). */
  method Word(f: Profile, t: Bytes, a: nat) returns (r: Option<nat>)
    requires a < |t|
    ensures r == if WordAt(f, t, a).Some? then Some(RunEnd(t, WordAt(f, t, a).value, InWord(f))) else None
  {
    var p := a;
    if PrefixAllowed(f, Cp(t, a)) {
      var next := a + Len(t, a);
      if next < |t| && WordStart(f, Cp(t, next)) {
        p := next;
      }
    }
    if !WordStart(f, Cp(t, p)) {
      return None;
    }
    var end := Run(t, p, InWord(f));
    r := Some(end);
  }

  /** Optional space, punctuation and newline bytes (594-641). */
  method Symbols(f: Profile, t: Bytes, a: nat) returns (r: Option<nat>)
    requires a < |t|
    ensures r == if PunctuationAt(f, t, a).Some? then Some(BytesEnd(t, RunEnd(t, PunctuationAt(f, t, a).value, InPunctuation(f)))) else None
  {
    var p := a;
    if Cp(t, a) == 32 {
      var next := a + Len(t, a);
      if next < |t| && Punctuation(f, Cp(t, next)) {
        p := next;
      }
    }
    if !Punctuation(f, Cp(t, p)) {
      return None;
    }
    var q := Run(t, p, InPunctuation(f));
    var end := RunBytes(t, q);
    r := Some(end);
  }

  /** One round of the outer loop. */
  method NextPiece(f: Profile, t: Bytes, a: nat) returns (end: nat)
    requires a < |t|
    ensures end == PieceEnd(f, t, a)
  {
    hide FirstAlternatives, WordAt, PunctuationAt, RunEnd, BytesEnd;
    var first := First(f, t, a);
    if first.Some? {
      return first.value;
    }
    var word := Word(f, t, a);
    if word.Some? {
      return word.value;
    }
    var c := Cp(t, a);
    if IsDigit(c) {
      return a + Len(t, a);
    }
    var symbols := Symbols(f, t, a);
    if symbols.Some? {
      return symbols.value;
    }
    if IsSpace(c) {
      var q := Run(t, a, IsBlank);
      if IsNewline(Peek(t, q)) {
        end := Run(t, q, IsNewline);
        return;
      }
    }
    if IsBlank(c) {
      end := Run(t, a, IsBlank);
      // Never empty, so the guard of lines 688-690 has nothing to do.
      if end < |t| && !IsSpace(Cp(t, end)) {
        if end - 1 > a {
          end := end - 1;
        }
      }
      return;
    }
    end := a + Len(t, a);
  }

  // ---- the pieces ----

  function Pieces(f: Profile, t: Bytes, a: nat): seq<Bytes>
    requires a <= |t|
    decreases |t| - a
  {
    if a == |t| then [] else [t[a..PieceEnd(f, t, a)]] + Pieces(f, t, PieceEnd(f, t, a))
  }

  method PreTokenize(f: Profile, t: Bytes) returns (out: seq<Bytes>)
    ensures out == Pieces(f, t, 0)
  {
    hide PieceEnd;
    out := [];
    var pos := 0;
    while pos < |t|
      invariant 0 <= pos <= |t| && out + Pieces(f, t, pos) == Pieces(f, t, 0)
    {
      var end := NextPiece(f, t, pos);
      if end > pos {
        out := out + [t[pos..end]];
      }
      pos := end;
    }
  }

  function Joined(pieces: seq<Bytes>): Bytes {
    if pieces == [] then [] else pieces[0] + Joined(pieces[1..])
  }

  /** The pieces partition the text; none is empty. */
  lemma {:induction false} PiecesPartition(f: Profile, t: Bytes, a: nat)
    requires a <= |t|
    ensures Joined(Pieces(f, t, a)) == t[a..]
    ensures forall i :: 0 <= i < |Pieces(f, t, a)| ==> Pieces(f, t, a)[i] != []
    decreases |t| - a
  {
    hide PieceEnd;
    if a < |t| {
      var end := PieceEnd(f, t, a);
      PiecesPartition(f, t, end);
      assert t[a..] == t[a..end] + t[end..];
    }
  }

  // ---- pieces end between characters ----

  /** Stepping character by character from `x` arrives at `p`. */
  predicate Steps(t: Bytes, x: nat, p: nat)
    requires x <= |t|
    decreases |t| - x
  {
    x == p || (x < |t| && x < p && Steps(t, x + Len(t, x), p))
  }

  predicate Boundary(t: Bytes, p: nat) {
    Steps(t, 0, p)
  }

  lemma {:induction false} StepsOn(t: Bytes, x: nat, p: nat)
    requires x <= |t| && Steps(t, x, p) && p < |t|
    ensures Steps(t, x, p + Len(t, p))
    decreases |t| - x
  {
    if x != p {
      StepsOn(t, x + Len(t, x), p);
    }
  }

  lemma {:induction false} RunOnBoundary(t: Bytes, a: nat, f: int -> bool)
    requires a <= |t| && Boundary(t, a)
    ensures Boundary(t, RunEnd(t, a, f))
    decreases |t| - a
  {
    if a < |t| && f(Cp(t, a)) {
      StepsOn(t, 0, a);
      RunOnBoundary(t, a + Len(t, a), f);
    }
  }

  lemma {:induction false} RunUpToOnBoundary(t: Bytes, a: nat, f: int -> bool, n: nat)
    requires a <= |t| && Boundary(t, a)
    ensures Boundary(t, RunUpTo(t, a, f, n))
    decreases n
  {
    if n > 0 && a < |t| && f(Cp(t, a)) {
      StepsOn(t, 0, a);
      RunUpToOnBoundary(t, a + Len(t, a), f, n - 1);
    }
  }

  lemma {:induction false} BytesOnBoundary(t: Bytes, a: nat)
    requires a <= |t| && Boundary(t, a)
    ensures Boundary(t, BytesEnd(t, a))
    decreases |t| - a
  {
    if a < |t| && (t[a] == '\r' || t[a] == '\n') {
      StepsOn(t, 0, a);
      BytesOnBoundary(t, a + 1);
    }
  }

  lemma ContractionOnBoundary(t: Bytes, a: nat)
    requires a < |t| && Boundary(t, a) && Contraction(t, a) > 0
    ensures Boundary(t, a + Contraction(t, a))
  {
    StepsOn(t, 0, a);
    StepsOn(t, 0, a + 1);
    if Contraction(t, a) == 3 {
      StepsOn(t, 0, a + 2);
    }
  }

  lemma OneOnBoundary(t: Bytes, a: nat)
    requires a < |t| && Boundary(t, a)
    ensures Boundary(t, a + Len(t, a))
  {
    StepsOn(t, 0, a);
  }

  /** Where the last character of a run begins. */
  function LastOf(t: Bytes, a: nat, f: int -> bool): (r: nat)
    requires a < |t| && f(Cp(t, a))
    ensures a <= r < |t| && r + Len(t, r) == RunEnd(t, a, f)
    decreases |t| - a
  {
    var next := a + Len(t, a);
    if next < |t| && f(Cp(t, next)) then LastOf(t, next, f) else a
  }

  lemma {:induction false} LastOnBoundary(t: Bytes, a: nat, f: int -> bool)
    requires a < |t| && f(Cp(t, a)) && Boundary(t, a)
    ensures Boundary(t, LastOf(t, a, f))
    decreases |t| - a
  {
    StepsOn(t, 0, a);
    var next := a + Len(t, a);
    if next < |t| && f(Cp(t, next)) {
      LastOnBoundary(t, next, f);
    }
  }

  /** Nothing inside a character is a boundary. */
  lemma {:induction false} InsideIsNone(t: Bytes, x: nat, p: nat, q: nat)
    requires x <= |t| && Steps(t, x, p) && p < |t| && p < q < p + Len(t, p)
    ensures !Steps(t, x, q)
    decreases |t| - x
  {
    if x != p {
      InsideIsNone(t, x + Len(t, x), p, q);
    }
  }

  /** The blanks alternative is reached at `a`: something other than white space
      follows, more than one byte is consumed, and the byte given back is not all of
      the last blank character. */
  predicate CutsBlank(f: Profile, t: Bytes, a: nat)
    requires a < |t|
  {
    && ReachesBlanks(f, t, a)
    && var q := RunEnd(t, a, IsBlank);
    q < |t| && !IsSpace(Cp(t, q)) && q - 1 > a && Len(t, LastOf(t, a, IsBlank)) > 1
  }

  predicate ReachesBlanks(f: Profile, t: Bytes, a: nat)
    requires a < |t|
  {
    && FirstAlternatives(f, t, a).None? && WordAt(f, t, a).None? && !IsDigit(Cp(t, a)) && PunctuationAt(f, t, a).None?
    && NewlinesEnd(t, a).None? && IsBlank(Cp(t, a))
  }

  /** A piece ends inside a character if and only if it cuts a blank. */
  lemma PieceOnBoundaryExactly(f: Profile, t: Bytes, a: nat)
    requires a < |t| && Boundary(t, a)
    ensures Boundary(t, PieceEnd(f, t, a)) <==> !CutsBlank(f, t, a)
  {
    if ReachesBlanks(f, t, a) {
      var q, last := RunEnd(t, a, IsBlank), LastOf(t, a, IsBlank);
      RunOnBoundary(t, a, IsBlank);
      LastOnBoundary(t, a, IsBlank);
      if CutsBlank(f, t, a) {
        InsideIsNone(t, 0, last, q - 1);
      }
    } else {
      OthersOnBoundary(f, t, a);
    }
  }

  /** No other alternative ends inside a character. */
  lemma OthersOnBoundary(f: Profile, t: Bytes, a: nat)
    requires a < |t| && Boundary(t, a) && !ReachesBlanks(f, t, a)
    ensures Boundary(t, PieceEnd(f, t, a))
  {
    hide Boundary, RunEnd, BytesEnd, Contraction, RunUpTo;
    OneOnBoundary(t, a);
    if FirstAlternatives(f, t, a).Some? {
      RunUpToOnBoundary(t, a, f.tripleDigit, 3);
      RunOnBoundary(t, a, f.cjk);
      RunOnBoundary(t, a + Len(t, a), IsAsciiLetter);
      if Contraction(t, a) > 0 {
        ContractionOnBoundary(t, a);
      }
    } else if WordAt(f, t, a).Some? {
      RunOnBoundary(t, WordAt(f, t, a).value, InWord(f));
    } else if IsDigit(Cp(t, a)) {
    } else if PunctuationAt(f, t, a).Some? {
      RunOnBoundary(t, PunctuationAt(f, t, a).value, InPunctuation(f));
      BytesOnBoundary(t, RunEnd(t, PunctuationAt(f, t, a).value, InPunctuation(f)));
    } else {
      RunOnBoundary(t, a, IsBlank);
      RunOnBoundary(t, RunEnd(t, a, IsBlank), IsNewline);
    }
  }

  /** Where piece `i` of the pieces from `a` on begins, or where they all end. */
  function CutAt(f: Profile, t: Bytes, a: nat, i: nat): (r: nat)
    requires a <= |t| && i <= |Pieces(f, t, a)|
    ensures r <= |t|
    decreases |t| - a
  {
    if i == 0 then a else CutAt(f, t, PieceEnd(f, t, a), i - 1)
  }

  /** The cuts are where the pieces end. */
  lemma {:induction false} CutsAreEnds(f: Profile, t: Bytes, a: nat, i: nat)
    requires a <= |t| && i < |Pieces(f, t, a)|
    ensures CutAt(f, t, a, i) < |t| && CutAt(f, t, a, i + 1) == PieceEnd(f, t, CutAt(f, t, a, i))
    ensures Pieces(f, t, a)[i] == t[CutAt(f, t, a, i)..CutAt(f, t, a, i + 1)]
    decreases |t| - a
  {
    hide PieceEnd;
    if i > 0 {
      CutsAreEnds(f, t, PieceEnd(f, t, a), i - 1);
    }
  }

  ghost predicate AllBetween(f: Profile, t: Bytes) {
    forall i: nat :: i <= |Pieces(f, t, 0)| ==> Boundary(t, CutAt(f, t, 0, i))
  }

  ghost predicate NoneCut(f: Profile, t: Bytes) {
    forall i: nat :: i < |Pieces(f, t, 0)| ==> !CutsAt(f, t, i)
  }

  /** A text is cut between characters throughout if and only if no piece cuts a
      blank. */
  lemma PiecesOnBoundariesExactly(f: Profile, t: Bytes)
    ensures AllBetween(f, t) <==> NoneCut(f, t)
  {
    hide PieceEnd, Boundary, CutsBlank;
    if AllBetween(f, t) {
      forall i: nat | i < |Pieces(f, t, 0)|
        ensures !CutsAt(f, t, i)
      {
        CutsAreEnds(f, t, 0, i);
        assert Boundary(t, CutAt(f, t, 0, i)) && Boundary(t, CutAt(f, t, 0, i + 1));
        PieceOnBoundaryExactly(f, t, CutAt(f, t, 0, i));
      }
    }
    if NoneCut(f, t) {
      forall i: nat
        ensures i <= |Pieces(f, t, 0)| ==> Boundary(t, CutAt(f, t, 0, i))
      {
        if i <= |Pieces(f, t, 0)| {
          AllOnBoundary(f, t, i);
        }
      }
    }
  }

  predicate CutsAt(f: Profile, t: Bytes, i: nat)
    requires i < |Pieces(f, t, 0)|
  {
    CutAt(f, t, 0, i) < |t| && CutsBlank(f, t, CutAt(f, t, 0, i))
  }

  lemma {:induction false} AllOnBoundary(f: Profile, t: Bytes, i: nat)
    requires i <= |Pieces(f, t, 0)|
    requires NoneCut(f, t)
    ensures Boundary(t, CutAt(f, t, 0, i))
  {
    hide PieceEnd, CutsBlank;
    if i > 0 {
      AllOnBoundary(f, t, i - 1);
      CutsAreEnds(f, t, 0, i - 1);
      assert !CutsAt(f, t, i - 1);
      PieceOnBoundaryExactly(f, t, CutAt(f, t, 0, i - 1));
    }
  }

  /** An overlong space, which the decoder accepts, is cut in two. */
  lemma OverlongSpaceIsCut(f: Profile)
    requires !f.letter(32) && !f.symbol(32) && !f.tripleDigit(32) && !f.cjk(32)
    ensures var t: Bytes := [0xC0 as char, 0xA0 as char, 0xC0 as char, 0xA0 as char, 'x'];
      PieceEnd(f, t, 0) == 3 && !Boundary(t, 3)
  {
    var t: Bytes := [0xC0 as char, 0xA0 as char, 0xC0 as char, 0xA0 as char, 'x'];
    assert Cp(t, 0) == 32 && Len(t, 0) == 2 && Cp(t, 2) == 32 && Len(t, 2) == 2 && Cp(t, 4) == 'x' as int;
    assert !Steps(t, 4, 3) && !Steps(t, 2, 3);
    assert RunEnd(t, 4, IsBlank) == 4;
    assert RunEnd(t, 2, IsBlank) == 4;
    assert RunEnd(t, 0, IsBlank) == 4;
  }

  // ---- two places where the documented expression says otherwise ----

  /** The characters from `a` to `p` all satisfy `f`. */
  predicate AllTo(t: Bytes, a: nat, p: nat, f: int -> bool)
    requires a <= |t|
    decreases |t| - a
  {
    a == p || (a < |t| && a < p && f(Cp(t, a)) && AllTo(t, a + Len(t, a), p, f))
  }

  lemma {:induction false} RunHolds(t: Bytes, a: nat, f: int -> bool, g: int -> bool)
    requires a <= |t| && forall c :: f(c) ==> g(c)
    ensures AllTo(t, a, RunEnd(t, a, f), g)
    decreases |t| - a
  {
    if a < |t| && f(Cp(t, a)) {
      RunHolds(t, a + Len(t, a), f, g);
    }
  }

  lemma {:induction false} AllToJoins(t: Bytes, a: nat, p: nat, q: nat, f: int -> bool)
    requires a <= |t| && p <= |t| && AllTo(t, a, p, f) && AllTo(t, p, q, f)
    ensures AllTo(t, a, q, f)
    decreases |t| - a
  {
    if a != p {
      AllToJoins(t, a + Len(t, a), p, q, f);
      AllToGrows(t, p, q, f);
    }
  }

  lemma {:induction false} AllToGrows(t: Bytes, a: nat, p: nat, f: int -> bool)
    requires a <= |t| && AllTo(t, a, p, f)
    ensures a <= p <= |t|
    decreases |t| - a
  {
    if a != p {
      AllToGrows(t, a + Len(t, a), p, f);
    }
  }

  /** Two such stretches from one place nest. */
  lemma {:induction false} AllToSplits(t: Bytes, a: nat, p: nat, q: nat, f: int -> bool)
    requires a <= |t| && AllTo(t, a, p, f) && AllTo(t, a, q, f)
    ensures p <= q <= |t| ==> AllTo(t, p, q, f)
    ensures q < p ==> q < |t| && q + Len(t, q) <= p
    decreases |t| - a
  {
    AllToGrows(t, a, p, f);
    AllToGrows(t, a, q, f);
    if a != p && a != q {
      AllToSplits(t, a + Len(t, a), p, q, f);
    } else if a != p {
      AllToGrows(t, a + Len(t, a), p, f);
    }
  }

  /** A match of the newline alternative `\s*[\r\n]+` (line 414) that ends at `e`. */
  ghost predicate NewlineMatch(t: Bytes, a: nat, e: nat)
    requires a <= |t|
  {
    exists p: nat :: p < |t| && AllTo(t, a, p, IsSpace) && IsNewline(Cp(t, p)) && p + Len(t, p) == e
  }

  lemma {:induction false} NewlinesMatch(t: Bytes, a: nat)
    requires a < |t| && IsNewline(Cp(t, a))
    ensures NewlineMatch(t, a, RunEnd(t, a, IsNewline))
    decreases |t| - a
  {
    var next := a + Len(t, a);
    if next < |t| && IsNewline(Cp(t, next)) {
      NewlinesMatch(t, next);
      var p: nat :| p < |t| && AllTo(t, next, p, IsSpace) && IsNewline(Cp(t, p)) && p + Len(t, p) == RunEnd(t, next, IsNewline);
      AllToGrows(t, next, p, IsSpace);
      assert AllTo(t, a, p, IsSpace);
      assert RunEnd(t, a, IsNewline) == RunEnd(t, next, IsNewline);
    } else {
      assert AllTo(t, a, a, IsSpace);
      assert RunEnd(t, next, IsNewline) == next;
    }
  }

  /** What the code takes is a match. */
  lemma CodeMatches(t: Bytes, a: nat)
    requires a < |t| && NewlinesEnd(t, a).Some?
    ensures NewlineMatch(t, a, NewlinesEnd(t, a).value)
    ensures AllTo(t, a, NewlinesEnd(t, a).value, IsSpace)
  {
    var q := RunEnd(t, a, IsBlank);
    RunHolds(t, a, IsBlank, IsSpace);
    RunHolds(t, q, IsNewline, IsSpace);
    NewlinesMatch(t, q);
    var e := RunEnd(t, q, IsNewline);
    var p: nat :| p < |t| && AllTo(t, q, p, IsSpace) && IsNewline(Cp(t, p)) && p + Len(t, p) == e;
    AllToJoins(t, a, q, p, IsSpace);
    AllToJoins(t, a, q, e, IsSpace);
  }

  lemma {:induction false} MatchHasNewlines(t: Bytes, a: nat, p: nat)
    requires a <= |t| && p < |t| && AllTo(t, a, p, IsSpace) && IsNewline(Cp(t, p))
    ensures a < |t| && NewlinesEnd(t, a).Some?
    decreases |t| - a
  {
    if a != p && !IsNewline(Cp(t, a)) {
      MatchHasNewlines(t, a + Len(t, a), p);
    }
  }

  /** The code takes the longest match, as the expression would, exactly if no
      further newline follows the white space after it. */
  lemma NewlinesAreLongestExactly(t: Bytes, a: nat)
    requires a < |t| && NewlinesEnd(t, a).Some?
    ensures var e := NewlinesEnd(t, a).value;
      (forall x: nat :: NewlineMatch(t, a, x) ==> x <= e) <==> e == |t| || NewlinesEnd(t, e).None?
  {
    var e := NewlinesEnd(t, a).value;
    CodeMatches(t, a);
    forall x: nat | NewlineMatch(t, a, x) && x > e
      ensures e < |t| && NewlinesEnd(t, e).Some?
    {
      var p: nat :| p < |t| && AllTo(t, a, p, IsSpace) && IsNewline(Cp(t, p)) && p + Len(t, p) == x;
      AllToSplits(t, a, e, p, IsSpace);
      MatchHasNewlines(t, e, p);
    }
    if e < |t| && NewlinesEnd(t, e).Some? {
      var x := NewlinesEnd(t, e).value;
      CodeMatches(t, e);
      var p: nat :| p < |t| && AllTo(t, e, p, IsSpace) && IsNewline(Cp(t, p)) && p + Len(t, p) == x;
      AllToJoins(t, a, e, p, IsSpace);
      assert NewlineMatch(t, a, x);
    }
  }

  /** It need not: the text "\n \nx" is cut after its first newline. */
  lemma NewlinesStopEarly()
    ensures var t: Bytes := "\n \nx"; NewlinesEnd(t, 0) == Some(1) && NewlinesEnd(t, 1) == Some(3)
  {
    var t: Bytes := "\n \nx";
    assert Cp(t, 0) == 10 && Cp(t, 1) == 32 && Cp(t, 2) == 10 && Cp(t, 3) == 120;
    assert RunEnd(t, 0, IsBlank) == 0 && RunEnd(t, 1, IsNewline) == 1 && RunEnd(t, 0, IsNewline) == 1;
    assert RunEnd(t, 2, IsBlank) == 2 && RunEnd(t, 1, IsBlank) == 2;
    assert RunEnd(t, 3, IsNewline) == 3 && RunEnd(t, 2, IsNewline) == 3;
  }

  /** The characters of a word outside the CJK runs. */
  function OutsideCjk(f: Profile): int -> bool {
    c => InWord(f)(c) && !f.cjk(c)
  }

  lemma {:induction false} RunThroughRun(t: Bytes, a: nat, f: int -> bool, g: int -> bool)
    requires a <= |t| && forall c :: f(c) ==> g(c)
    ensures RunEnd(t, a, g) == RunEnd(t, RunEnd(t, a, f), g)
    decreases |t| - a
  {
    if a < |t| && f(Cp(t, a)) {
      RunThroughRun(t, a + Len(t, a), f, g);
    }
  }

  /** The word alternative leaves a CJK run to a piece of its own (474-497) if and
      only if none follows its letters directly: one that does is taken along. */
  lemma WordEndsBeforeCjkExactly(f: Profile, t: Bytes, a: nat)
    requires a < |t| && FirstAlternatives(f, t, a).None? && WordAt(f, t, a).Some?
    ensures var q := RunEnd(t, WordAt(f, t, a).value, OutsideCjk(f));
      PieceEnd(f, t, a) == q <==> q == |t| || !(f.cjk(Cp(t, q)) && InWord(f)(Cp(t, q)))
  {
    RunThroughRun(t, WordAt(f, t, a).value, OutsideCjk(f), InWord(f));
  }

  /** So the letter and the character of "a" followed by U+4E2D are one piece. */
  lemma WordTakesCjkAlong(f: Profile)
    requires f.triples && f.letter(97) && !f.cjk(97) && !f.tripleDigit(97) && !f.symbol(97) && f.letter(0x4E2D) && f.cjk(0x4E2D)
    ensures var t: Bytes := ['a', 0xE4 as char, 0xB8 as char, 0xAD as char];
      Pieces(f, t, 0) == [t]
  {
    var t: Bytes := ['a', 0xE4 as char, 0xB8 as char, 0xAD as char];
    assert Cp(t, 0) == 97 && Len(t, 0) == 1 && Len(t, 1) == 3 && Cp(t, 1) == 0x4E2D;
    assert RunEnd(t, 4, InWord(f)) == 4;
    assert RunEnd(t, 1, InWord(f)) == 4;
    assert RunEnd(t, 0, InWord(f)) == 4;
    assert WordAt(f, t, 0) == Some(0);
    assert t[0..4] == t;
    assert Pieces(f, t, 4) == [];
  }
}
