/** Byte-pair merging, engine/tokenizer.cpp:738-779: merging all occurrences of the
    best pair in each round against merging one pair at a time. */
module Bpe {
  import opened Graph
  import opened Wrappers

  type Symbols = seq<Bytes>
  type Merges = map<(Bytes, Bytes), nat>

  /** Each merge rule has its own rank, its line in the file. */
  ghost predicate Ranked(m: Merges) {
    forall p, q :: p in m && q in m && m[p] == m[q] ==> p == q
  }

  /** Merge rules as they are loaded (tokenizer.cpp:235-249): the last line wins. */
  method LoadMerges(lines: seq<(Bytes, Bytes)>) returns (m: Merges)
    ensures Ranked(m)
    ensures forall p :: p in m <==> p in lines
    ensures forall p <- m :: m[p] < |lines| && lines[m[p]] == p && p !in lines[m[p] + 1..]
  {
    m := map[];
    for i := 0 to |lines|
      invariant forall p :: p in m <==> p in lines[..i]
      invariant forall p <- m :: m[p] < i && lines[m[p]] == p && p !in lines[m[p] + 1..i]
    {
      m := m[lines[i] := i];
    }
    assert lines[..|lines|] == lines;
  }

  predicate Mergeable(m: Merges, s: Symbols, j: nat)
    requires j + 1 < |s|
  {
    (s[j], s[j + 1]) in m
  }

  function Rank(m: Merges, s: Symbols, j: nat): nat
    requires j + 1 < |s| && Mergeable(m, s, j)
  {
    m[(s[j], s[j + 1])]
  }

  function Concat(s: Symbols): Bytes {
    if s == [] then [] else s[0] + Concat(s[1..])
  }

  predicate NonEmpty(s: Symbols) {
    forall j :: 0 <= j < |s| ==> s[j] != []
  }

  /** The leftmost pair of the lowest rank. */
  ghost predicate IsBest(m: Merges, s: Symbols, i: nat) {
    && i + 1 < |s| && Mergeable(m, s, i)
    && (forall j: nat :: j + 1 < |s| && Mergeable(m, s, j) ==> Rank(m, s, i) <= Rank(m, s, j))
    && (forall j: nat :: j < i && Mergeable(m, s, j) ==> Rank(m, s, i) < Rank(m, s, j))
  }

  /** The first `n` pairs searched. */
  function Best(m: Merges, s: Symbols, n: nat): (r: Option<nat>)
    requires n < |s| || n == 0
    ensures r.Some? ==> r.value < n && Mergeable(m, s, r.value)
    ensures r.None? ==> forall j: nat :: j < n ==> !Mergeable(m, s, j)
    ensures r.Some? ==> forall j: nat :: j < n && Mergeable(m, s, j) ==> Rank(m, s, r.value) <= Rank(m, s, j)
    ensures r.Some? ==> forall j: nat :: j < r.value && Mergeable(m, s, j) ==> Rank(m, s, r.value) < Rank(m, s, j)
  {
    if n == 0 then None
    else
      var b := Best(m, s, n - 1);
      if Mergeable(m, s, n - 1) && (b.None? || Rank(m, s, n - 1) < Rank(m, s, b.value)) then Some(n - 1) else b
  }

  function BestPair(m: Merges, s: Symbols): Option<nat> {
    if s == [] then None else Best(m, s, |s| - 1)
  }

  lemma BestIsUnique(m: Merges, s: Symbols, i: nat)
    requires IsBest(m, s, i)
    ensures BestPair(m, s) == Some(i)
  {
    var j := BestPair(m, s).value;
    assert Rank(m, s, i) <= Rank(m, s, j) <= Rank(m, s, i);
  }

  function MergeAt(s: Symbols, i: nat): (r: Symbols)
    requires i + 1 < |s|
    ensures |r| == |s| - 1
  {
    s[..i] + [s[i] + s[i + 1]] + s[i + 2..]
  }

  /** The reference: one leftmost lowest-rank pair at a time, until none is left. */
  function OneAtATime(m: Merges, s: Symbols): Symbols
    decreases |s|
  {
    match BestPair(m, s)
    case None => s
    case Some(i) => OneAtATime(m, MergeAt(s, i))
  }

  /** All occurrences of a pair, left to right. */
  function MergeAll(s: Symbols, a: Bytes, b: Bytes): (r: Symbols)
    ensures |r| <= |s|
  {
    if |s| < 2 then s
    else if s[0] == a && s[1] == b then [a + b] + MergeAll(s[2..], a, b)
    else [s[0]] + MergeAll(s[1..], a, b)
  }

  /** Round by round, as the tokenizer does. */
  function ByRounds(m: Merges, s: Symbols): Symbols
    decreases |s|
  {
    match BestPair(m, s)
    case None => s
    case Some(i) =>
      MergeAllShrinks(s, s[i], s[i + 1], i);
      ByRounds(m, MergeAll(s, s[i], s[i + 1]))
  }

  lemma {:induction false} MergeAllShrinks(s: Symbols, a: Bytes, b: Bytes, i: nat)
    requires i + 1 < |s| && s[i] == a && s[i + 1] == b
    ensures |MergeAll(s, a, b)| < |s|
  {
    if i > 0 && !(s[0] == a && s[1] == b) {
      MergeAllShrinks(s[1..], a, b, i - 1);
    }
  }

  // ---- what both keep ----

  lemma {:induction false} MergeAllKeeps(s: Symbols, a: Bytes, b: Bytes)
    ensures Concat(MergeAll(s, a, b)) == Concat(s)
    decreases |s|
  {
    if |s| >= 2 {
      if s[0] == a && s[1] == b {
        MergeAllKeeps(s[2..], a, b);
        assert s[1..][0] == b && s[1..][1..] == s[2..];
        assert Concat(s) == a + Concat(s[1..]) == a + (b + Concat(s[2..]));
        MergedHead(a + b, MergeAll(s[2..], a, b));
      } else {
        MergeAllKeeps(s[1..], a, b);
        MergedHead(s[0], MergeAll(s[1..], a, b));
      }
    }
  }

  lemma MergedHead(x: Bytes, rest: Symbols)
    ensures Concat([x] + rest) == x + Concat(rest)
  {
    assert ([x] + rest)[1..] == rest;
  }

  lemma {:induction false} MergeAllNonEmpty(s: Symbols, a: Bytes, b: Bytes)
    requires NonEmpty(s)
    ensures NonEmpty(MergeAll(s, a, b))
    decreases |s|
  {
    if |s| >= 2 {
      if s[0] == a && s[1] == b {
        MergeAllNonEmpty(s[2..], a, b);
      } else {
        MergeAllNonEmpty(s[1..], a, b);
      }
    }
  }

  /** Merging keeps the text and leaves no pair that a rule applies to. */
  lemma {:induction false} RoundsFinish(m: Merges, s: Symbols)
    ensures var r := ByRounds(m, s);
      && Concat(r) == Concat(s) && (NonEmpty(s) ==> NonEmpty(r))
      && forall j: nat :: j + 1 < |r| ==> !Mergeable(m, r, j)
    decreases |s|
  {
    match BestPair(m, s)
    case None =>
    case Some(i) =>
      MergeAllShrinks(s, s[i], s[i + 1], i);
      MergeAllKeeps(s, s[i], s[i + 1]);
      if NonEmpty(s) {
        MergeAllNonEmpty(s, s[i], s[i + 1]);
      }
      RoundsFinish(m, MergeAll(s, s[i], s[i + 1]));
  }

  // ---- both give the same result ----

  /** A rule that uses a merged symbol ranks after every rule that produces it. */
  ghost predicate Ordered(m: Merges) {
    forall p, q :: p in m && q in m && (q.0 == p.0 + p.1 || q.1 == p.0 + p.1) ==> m[p] < m[q]
  }

  ghost predicate NoneBelow(m: Merges, s: Symbols, r: nat) {
    forall j: nat :: j + 1 < |s| && Mergeable(m, s, j) ==> Rank(m, s, j) >= r
  }

  predicate Occurs(s: Symbols, a: Bytes, b: Bytes, i: nat) {
    i + 1 < |s| && s[i] == a && s[i + 1] == b
  }

  lemma {:induction false} MergeAllAbsent(s: Symbols, a: Bytes, b: Bytes)
    requires forall i: nat :: !Occurs(s, a, b, i)
    ensures MergeAll(s, a, b) == s
  {
    if |s| >= 2 {
      assert !Occurs(s, a, b, 0);
      forall i: nat
        ensures !Occurs(s[1..], a, b, i)
      {
        assert !Occurs(s, a, b, i + 1);
      }
      MergeAllAbsent(s[1..], a, b);
    }
  }

  /** Merging the leftmost occurrence first makes no difference to the scan. */
  lemma {:induction false} MergeAllAfterOne(s: Symbols, a: Bytes, b: Bytes, i: nat)
    requires NonEmpty(s) && Occurs(s, a, b, i) && forall j: nat :: j < i ==> !Occurs(s, a, b, j)
    ensures MergeAll(MergeAt(s, i), a, b) == MergeAll(s, a, b)
  {
    var t := MergeAt(s, i);
    assert |a + b| > |a| && |a + b| > |b|;
    if i == 0 {
      assert t == [a + b] + s[2..];
      assert t[1..] == s[2..];
    } else {
      assert !Occurs(s, a, b, 0);
      assert t[0] == s[0] && t[1..] == MergeAt(s[1..], i - 1);
      assert i > 1 ==> t[1] == s[1];
      forall j: nat | j < i - 1
        ensures !Occurs(s[1..], a, b, j)
      {
        assert !Occurs(s, a, b, j + 1);
      }
      MergeAllAfterOne(s[1..], a, b, i - 1);
    }
  }

  /** Merging at a best pair makes no pair of lower rank, given ordered rules. */
  lemma MergeStaysAbove(m: Merges, s: Symbols, i: nat)
    requires Ordered(m) && i + 1 < |s| && Mergeable(m, s, i) && NoneBelow(m, s, Rank(m, s, i))
    ensures NoneBelow(m, MergeAt(s, i), Rank(m, s, i))
  {
    var t, p := MergeAt(s, i), (s[i], s[i + 1]);
    forall j: nat | j + 1 < |t| && Mergeable(m, t, j)
      ensures Rank(m, t, j) >= m[p]
    {
      if j == i || j + 1 == i {
        assert m[p] < m[(t[j], t[j + 1])];
      } else if j < i {
        assert Mergeable(m, s, j);
      } else {
        assert t[j] == s[j + 1] && t[j + 1] == s[j + 2];
        assert Mergeable(m, s, j + 1);
      }
    }
  }

  /** Merging one at a time passes through the end of the round. */
  lemma {:induction false} RoundIsSteps(m: Merges, s: Symbols, a: Bytes, b: Bytes)
    requires Ranked(m) && Ordered(m) && NonEmpty(s) && (a, b) in m && NoneBelow(m, s, m[(a, b)])
    ensures OneAtATime(m, s) == OneAtATime(m, MergeAll(s, a, b))
    decreases |s|
  {
    if k: nat :| Occurs(s, a, b, k) {
      assert Mergeable(m, s, k) && Rank(m, s, k) == m[(a, b)];
      var i := BestPair(m, s).value;
      assert Rank(m, s, i) == m[(a, b)];
      forall j: nat | j < i
        ensures !Occurs(s, a, b, j)
      {
        if Occurs(s, a, b, j) {
          assert Mergeable(m, s, j);
        }
      }
      MergeAllAfterOne(s, a, b, i);
      MergeStaysAbove(m, s, i);
      RoundIsSteps(m, MergeAt(s, i), a, b);
    } else {
      MergeAllAbsent(s, a, b);
    }
  }

  /** Merging by rounds equals merging one pair at a time. */
  lemma {:induction false} RoundsAreOneAtATime(m: Merges, s: Symbols)
    requires Ranked(m) && Ordered(m) && NonEmpty(s)
    ensures ByRounds(m, s) == OneAtATime(m, s)
    decreases |s|
  {
    match BestPair(m, s)
    case None =>
    case Some(i) =>
      var a, b := s[i], s[i + 1];
      RoundIsSteps(m, s, a, b);
      MergeAllShrinks(s, a, b, i);
      MergeAllNonEmpty(s, a, b);
      RoundsAreOneAtATime(m, MergeAll(s, a, b));
  }

  /** Without the order the two differ: here the later rule (ab, a) outranks the
      rule (a, b) that produces its symbol. */
  lemma OrderIsNeeded()
    ensures var a: Bytes, b: Bytes := "a", "b";
      var m: Merges := map[(a, b) := 1, (a + b, a) := 0];
      var s: Symbols := [a, b, a, b];
      && Ranked(m) && !Ordered(m) && NonEmpty(s)
      && ByRounds(m, s) == [a + b, a + b] && OneAtATime(m, s) == [a + b + a, b]
  {
    var a: Bytes, b: Bytes := "a", "b";
    var m: Merges := map[(a, b) := 1, (a + b, a) := 0];
    var s: Symbols := [a, b, a, b];
    assert (a, b) in m && (a + b, a) in m && m[(a, b)] > m[(a + b, a)];
    assert a + b == "ab" && a + b != a && a + b != b;
    var t: Symbols := [a + b, a, b];
    assert IsBest(m, s, 0);
    BestIsUnique(m, s, 0);
    assert MergeAt(s, 0) == t;
    assert IsBest(m, t, 0);
    BestIsUnique(m, t, 0);
    var u: Symbols := [a + b + a, b];
    assert MergeAt(t, 0) == u;
    assert BestPair(m, u) == None;
    assert OneAtATime(m, u) == u;
    assert OneAtATime(m, t) == OneAtATime(m, MergeAt(t, 0));
    assert OneAtATime(m, s) == OneAtATime(m, MergeAt(s, 0));
    assert s[2..] == [a, b];
    assert MergeAll(s, a, b) == [a + b, a + b];
    assert BestPair(m, [a + b, a + b]) == None;
  }

  /** bpe: the loop over rounds. */
  method Merge(m: Merges, s: Symbols) returns (parts: Symbols)
    ensures parts == ByRounds(m, s)
  {
    parts := s;
    if |parts| <= 1 {
      return;
    }
    var done := false;
    while !done
      invariant ByRounds(m, parts) == ByRounds(m, s)
      invariant done ==> BestPair(m, parts) == None
      decreases |parts|, !done
    {
      var best := FindBest(m, parts);
      if best.None? {
        break;
      }
      var i := best.value;
      MergeAllShrinks(parts, parts[i], parts[i + 1], i);
      parts := MergeRound(parts, parts[i], parts[i + 1]);
      if |parts| <= 1 {
        break;
      }
    }
  }

  method FindBest(m: Merges, s: Symbols) returns (best: Option<nat>)
    ensures best == BestPair(m, s)
  {
    best := None;
    var j := 0;
    while j + 1 < |s|
      invariant j < |s| || j == 0
      invariant best == Best(m, s, j)
    {
      if (s[j], s[j + 1]) in m && (best.None? || m[(s[j], s[j + 1])] < m[(s[best.value], s[best.value + 1])]) {
        best := Some(j);
      }
      j := j + 1;
    }
  }

  lemma MergeAllNone(a: Bytes, b: Bytes)
    ensures MergeAll([], a, b) == []
  {
  }

  /** One step of the scan. */
  lemma MergeFrom(s: Symbols, a: Bytes, b: Bytes, j: nat)
    requires j < |s|
    ensures MergeAll(s[j..], a, b) ==
      if j + 1 < |s| && s[j] == a && s[j + 1] == b then [a + b] + MergeAll(s[j + 2..], a, b)
      else [s[j]] + MergeAll(s[j + 1..], a, b)
  {
    var rest := s[j..];
    if j + 1 < |s| && s[j] == a && s[j + 1] == b {
      assert rest[2..] == s[j + 2..];
    } else {
      assert rest[1..] == s[j + 1..];
      if j + 1 == |s| {
        assert rest == [s[j]] + [];
      }
    }
  }

  method MergeRound(s: Symbols, a: Bytes, b: Bytes) returns (merged: Symbols)
    ensures merged == MergeAll(s, a, b)
  {
    hide MergeAll;
    merged := [];
    var j := 0;
    MergeAllNone(a, b);
    assert s[0..] == s;
    while j < |s|
      invariant 0 <= j <= |s| && merged + MergeAll(s[j..], a, b) == MergeAll(s, a, b)
    {
      MergeFrom(s, a, b, j);
      if j + 1 < |s| && s[j] == a && s[j + 1] == b {
        merged := merged + [a + b];
        j := j + 2;
      } else {
        merged := merged + [s[j]];
        j := j + 1;
      }
    }
  }
}
