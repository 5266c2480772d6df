/** The candidate filters of engine/sampler.cpp over the reals: top-k through a
    bounded heap, min-p and top-p. */
module Candidates {
  datatype Candidate = Candidate(id: nat, logit: real)

  /** Higher logit first, then lower id. */
  predicate Better(a: Candidate, b: Candidate) {
    a.logit > b.logit || (a.logit == b.logit && a.id < b.id)
  }

  ghost predicate Sorted(s: seq<Candidate>) {
    forall i, j :: 0 <= i < j < |s| ==> !Better(s[j], s[i])
  }

  function Insert(c: Candidate, s: seq<Candidate>): (r: seq<Candidate>)
    ensures |r| == |s| + 1 && multiset(r) == multiset(s) + multiset{c}
  {
    if s == [] || Better(c, s[0]) then [c] + s
    else
      assert s == [s[0]] + s[1..];
      [s[0]] + Insert(c, s[1..])
  }

  /** All tokens by rank. */
  function Ranked(logits: seq<real>): (r: seq<Candidate>)
    ensures |r| == |logits|
  {
    if logits == [] then []
    else Insert(Candidate(|logits| - 1, logits[|logits| - 1]), Ranked(logits[..|logits| - 1]))
  }

  lemma {:induction false} InsertSorted(c: Candidate, s: seq<Candidate>)
    requires Sorted(s)
    ensures Sorted(Insert(c, s))
  {
    if s != [] && !Better(c, s[0]) {
      InsertSorted(c, s[1..]);
      var r := Insert(c, s[1..]);
      forall j | 0 <= j < |r|
        ensures !Better(r[j], s[0])
      {
        assert r[j] in multiset(r);
        assert r[j] == c || r[j] in s[1..];
      }
    }
  }

  lemma {:induction false} RankedSorted(logits: seq<real>)
    ensures Sorted(Ranked(logits))
  {
    if logits != [] {
      RankedSorted(logits[..|logits| - 1]);
      InsertSorted(Candidate(|logits| - 1, logits[|logits| - 1]), Ranked(logits[..|logits| - 1]));
    }
  }

  /** Every token is ranked once, with its own logit. */
  lemma {:induction false} RankedExactly(logits: seq<real>, c: Candidate)
    ensures multiset(Ranked(logits))[c] == if c.id < |logits| && c.logit == logits[c.id] then 1 else 0
  {
    if logits != [] {
      RankedExactly(logits[..|logits| - 1], c);
    }
  }

  /** The best `k` after one more candidate. */
  lemma {:induction false} InsertTake(c: Candidate, s: seq<Candidate>, k: nat)
    requires Sorted(s) && 0 < k <= |s|
    ensures Insert(c, s)[..k] == if Better(c, s[k - 1]) then Insert(c, s[..k - 1]) else s[..k]
  {
    SortedTail(s);
    hide Better, Sorted, Insert;
    if Better(c, s[0]) {
      TakeFirst(c, s, k);
    } else {
      InsertLater(c, s, k);
      if k > 1 {
        InsertTake(c, s[1..], k - 1);
        TakeLater(c, s, k);
      } else {
        assert [s[0]] == s[..1];
      }
    }
  }

  lemma SortedTail(s: seq<Candidate>)
    requires Sorted(s) && s != []
    ensures Sorted(s[1..])
  {
  }

  /** The new candidate comes first. */
  lemma TakeFirst(c: Candidate, s: seq<Candidate>, k: nat)
    requires Sorted(s) && 0 < k <= |s| && Better(c, s[0])
    ensures Better(c, s[k - 1]) && Insert(c, s)[..k] == Insert(c, s[..k - 1])
  {
    assert k > 1 ==> !Better(s[k - 1], s[0]);
    hide Sorted;
    InsertFirst(c, s);
    InsertFirst(c, s[..k - 1]);
    hide Insert;
    assert ([c] + s)[..k] == [c] + s[..k - 1];
  }

  /** It comes after the first of the ranking. */
  lemma TakeLater(c: Candidate, s: seq<Candidate>, k: nat)
    requires 1 < k <= |s| && !Better(c, s[0])
    ensures Better(c, s[k - 1]) ==> [s[0]] + Insert(c, s[1..][..k - 2]) == Insert(c, s[..k - 1])
    ensures [s[0]] + s[1..][..k - 1] == s[..k]
  {
    var t := s[..k - 1];
    assert t[1..] == s[1..][..k - 2];
    InsertLater(c, t, k);
    hide Insert;
    assert Insert(c, t)[..k] == Insert(c, t);
    assert Insert(c, t[1..])[..k - 1] == Insert(c, t[1..]);
  }

  lemma InsertFirst(c: Candidate, s: seq<Candidate>)
    requires s != [] ==> Better(c, s[0])
    ensures Insert(c, s) == [c] + s
  {
  }

  lemma InsertLater(c: Candidate, s: seq<Candidate>, k: nat)
    requires s != [] && !Better(c, s[0]) && 0 < k <= |s| + 1
    ensures Insert(c, s)[..k] == [s[0]] + Insert(c, s[1..])[..k - 1]
  {
  }

  /** A ranking is determined by what it ranks. */
  lemma {:induction false} SortedUnique(a: seq<Candidate>, b: seq<Candidate>)
    requires Sorted(a) && Sorted(b) && multiset(a) == multiset(b)
    ensures a == b
  {
    SameSize(a, b);
    if a != [] {
      NotWorse(a, b);
      NotWorse(b, a);
      SortedTail(a);
      SortedTail(b);
      WithoutFirst(a);
      WithoutFirst(b);
      assert a[0] == b[0];
      hide *;
      SortedUnique(a[1..], b[1..]);
    }
  }

  lemma WithoutFirst(a: seq<Candidate>)
    requires a != []
    ensures a == [a[0]] + a[1..] && multiset(a[1..]) == multiset(a) - multiset{a[0]}
  {
    assert a == [a[0]] + a[1..];
  }

  lemma SameSize(a: seq<Candidate>, b: seq<Candidate>)
    requires multiset(a) == multiset(b)
    ensures |a| == |b|
  {
    assert |a| == |multiset(a)| == |multiset(b)| == |b|;
  }

  lemma NotWorse(a: seq<Candidate>, b: seq<Candidate>)
    requires Sorted(b) && multiset(a) == multiset(b) && a != [] && b != []
    ensures !Better(a[0], b[0])
  {
    assert a[0] in multiset(b);
  }

  // ---- the bounded heap, engine/sampler.cpp:42-71 ----

  /** All that the pass uses of a heap under MinLogitHeapCompare: its front is a
      worst element. */
  ghost predicate Heap(h: seq<Candidate>) {
    forall i :: 0 <= i < |h| ==> !Better(h[0], h[i])
  }

  method PushHeap(h: seq<Candidate>, c: Candidate) returns (r: seq<Candidate>)
    requires Heap(h)
    ensures Heap(r) && multiset(r) == multiset(h) + multiset{c}
  {
    if h == [] || Better(h[0], c) {
      r := [c] + h;
    } else {
      r := h + [c];
    }
  }

  method PopHeap(h: seq<Candidate>) returns (r: seq<Candidate>)
    requires Heap(h) && h != []
    ensures Heap(r) && multiset(r) == multiset(h) - multiset{h[0]}
  {
    r := [];
    assert h == [h[0]] + h[1..];
    for i := 1 to |h|
      invariant Heap(r) && multiset(r) == multiset(h[1..i])
    {
      assert h[1..i + 1] == h[1..i] + [h[i]];
      r := PushHeap(r, h[i]);
    }
    assert h[1..|h|] == h[1..];
  }

  lemma WorstIsLast(h: seq<Candidate>, s: seq<Candidate>)
    requires Heap(h) && Sorted(s) && s != [] && multiset(h) == multiset(s)
    ensures h != [] && h[0] == s[|s| - 1]
  {
    assert s[|s| - 1] in multiset(h);
    assert h[0] in multiset(s);
  }

  function Best(ranked: seq<Candidate>, k: nat): (r: seq<Candidate>)
    ensures |r| == if |ranked| < k then |ranked| else k
  {
    if |ranked| < k then ranked else ranked[..k]
  }

  /** One candidate offered to the heap. */
  method Offer(heap0: seq<Candidate>, c: Candidate, k: nat, ghost ranked: seq<Candidate>) returns (heap: seq<Candidate>)
    requires Heap(heap0) && Sorted(ranked) && k > 0 && multiset(heap0) == multiset(Best(ranked, k))
    ensures Heap(heap) && multiset(heap) == multiset(Best(Insert(c, ranked), k))
  {
    hide *;
    SameSize(heap0, Best(ranked, k));
    if |heap0| < k {
      OneMore(c, ranked, k);
      heap := PushHeap(heap0, c);
    } else {
      BestIsPrefix(ranked, k);
      WorstIsLast(heap0, Best(ranked, k));
      OneBetter(c, ranked, k);
      heap := Compete(heap0, c);
    }
  }

  /** Replaces the worst element if the candidate is better. */
  method Compete(heap0: seq<Candidate>, c: Candidate) returns (heap: seq<Candidate>)
    requires Heap(heap0) && heap0 != []
    ensures Heap(heap)
    ensures multiset(heap) == if Better(c, heap0[0]) then multiset(heap0) - multiset{heap0[0]} + multiset{c} else multiset(heap0)
  {
    hide *;
    heap := heap0;
    if Better(c, heap[0]) {
      heap := PopHeap(heap);
      heap := PushHeap(heap, c);
    }
  }

  /** The heap holds the first `k` of the full ranking. */
  method TopK(logits: seq<real>, k: nat) returns (heap: seq<Candidate>)
    requires 0 < k <= |logits|
    ensures multiset(heap) == multiset(Ranked(logits)[..k])
  {
    hide Insert, Better;
    heap := [];
    for i := 0 to |logits|
      invariant Heap(heap) && multiset(heap) == multiset(Best(Ranked(logits[..i]), k))
    {
      assert logits[..i + 1][..i] == logits[..i];
      RankedSorted(logits[..i]);
      heap := Offer(heap, Candidate(i, logits[i]), k, Ranked(logits[..i]));
    }
    assert logits[..|logits|] == logits;
  }

  lemma OneMore(c: Candidate, ranked: seq<Candidate>, k: nat)
    requires |ranked| < k
    ensures multiset(Best(Insert(c, ranked), k)) == multiset(Best(ranked, k)) + multiset{c}
  {
    BestOfAll(Insert(c, ranked), k);
  }

  lemma OneBetter(c: Candidate, ranked: seq<Candidate>, k: nat)
    requires Sorted(ranked) && 0 < k <= |ranked|
    ensures |Best(ranked, k)| == k
    ensures Better(c, Best(ranked, k)[k - 1]) ==>
      multiset(Best(Insert(c, ranked), k)) == multiset(Best(ranked, k)) - multiset{Best(ranked, k)[k - 1]} + multiset{c}
    ensures !Better(c, Best(ranked, k)[k - 1]) ==> Best(Insert(c, ranked), k) == Best(ranked, k)
  {
    hide *;
    InsertTake(c, ranked, k);
    BestIsPrefix(ranked, k);
    BestIsPrefix(Insert(c, ranked), k);
    WithoutLast(ranked[..k], ranked[..k - 1], ranked[k - 1]);
  }

  lemma BestOfAll(s: seq<Candidate>, k: nat)
    requires |s| <= k
    ensures Best(s, k) == s
  {
    assert s[..|s|] == s;
  }

  lemma BestIsPrefix(s: seq<Candidate>, k: nat)
    requires 0 < k <= |s|
    ensures Best(s, k) == s[..k] && (Sorted(s) ==> Sorted(Best(s, k)))
  {
    assert s[..|s|] == s;
  }

  lemma WithoutLast(s: seq<Candidate>, init: seq<Candidate>, last: Candidate)
    requires s == init + [last]
    ensures multiset(init) == multiset(s) - multiset{last}
  {
  }

  /** std::sort over the candidates. */
  method Sort(heap: seq<Candidate>) returns (s: seq<Candidate>)
    ensures Sorted(s) && multiset(s) == multiset(heap)
  {
    s := [];
    for i := 0 to |heap|
      invariant Sorted(s) && multiset(s) == multiset(heap[..i])
    {
      assert heap[..i + 1] == heap[..i] + [heap[i]];
      InsertSorted(heap[i], s);
      s := Insert(heap[i], s);
    }
    assert heap[..|heap|] == heap;
  }

  // ---- min-p and top-p, engine/sampler.cpp:73-109 ----

  /** exp, as far as the filters depend on it. */
  ghost predicate ExpLike(exp: real -> real) {
    exp(0.0) == 1.0 && (forall x :: exp(x) > 0.0) && forall x, y :: x <= y ==> exp(x) <= exp(y)
  }

  function Weight(exp: real -> real, temperature: real, top: Candidate, c: Candidate): real
    requires temperature > 0.0
  {
    exp((c.logit - top.logit) / temperature)
  }

  function Weights(exp: real -> real, temperature: real, s: seq<Candidate>): (r: seq<real>)
    requires temperature > 0.0
    ensures |r| == |s|
  {
    seq(|s|, i requires 0 <= i < |s| => Weight(exp, temperature, s[0], s[i]))
  }

  function Total(w: seq<real>): real {
    if w == [] then 0.0 else Total(w[..|w| - 1]) + w[|w| - 1]
  }

  lemma TotalSnoc(w: seq<real>, i: nat)
    requires i < |w|
    ensures Total(w[..i + 1]) == Total(w[..i]) + w[i]
  {
    assert w[..i + 1][..i] == w[..i];
  }

  lemma {:induction false} TotalPositive(w: seq<real>, a: nat, b: nat)
    requires a <= b <= |w| && forall i :: 0 <= i < |w| ==> w[i] > 0.0
    ensures 0.0 <= Total(w[..a]) <= Total(w[..b]) && (b > a ==> Total(w[..a]) < Total(w[..b]))
    decreases a + b
  {
    if b > a {
      TotalPositive(w, a, b - 1);
      TotalSnoc(w, b - 1);
    } else if a > 0 {
      TotalPositive(w, a - 1, a - 1);
      TotalSnoc(w, a - 1);
    }
  }

  lemma WeightsDescend(exp: real -> real, temperature: real, s: seq<Candidate>)
    requires temperature > 0.0 && ExpLike(exp) && Sorted(s)
    ensures forall i :: 0 <= i < |s| ==> Weights(exp, temperature, s)[i] > 0.0
    ensures forall i, j :: 0 <= i < j < |s| ==> Weights(exp, temperature, s)[i] >= Weights(exp, temperature, s)[j]
    ensures s != [] ==> Weights(exp, temperature, s)[0] == 1.0
  {
    forall i, j | 0 <= i < j < |s|
      ensures Weights(exp, temperature, s)[i] >= Weights(exp, temperature, s)[j]
    {
      assert s[i].logit >= s[j].logit;
      DivisionMonotone(s[j].logit - s[0].logit, s[i].logit - s[0].logit, temperature);
    }
  }

  lemma DivisionMonotone(x: real, y: real, t: real)
    requires x <= y && t > 0.0
    ensures x / t <= y / t
  {
  }

  function Share(part: real, whole: real): real {
    part * whole
  }

  /** What the filters keep: `n` candidates under min-p, of which `active` under
      top-p. */
  ghost predicate MinPKeeps(w: seq<real>, minP: real, n: nat) {
    && 1 <= n <= |w|
    && if minP > 0.0 then forall i :: 1 <= i < |w| ==> (i < n <==> w[i] >= minP * w[0]) else n == |w|
  }

  ghost predicate TopPKeeps(w: seq<real>, n: nat, topP: real, active: nat) {
    && 1 <= active <= n <= |w|
    && if 0.0 < topP < 1.0
       then Total(w[..active]) >= Share(topP, Total(w[..n])) && forall a: nat :: a < active ==> Total(w[..a]) < Share(topP, Total(w[..n]))
       else active == n
  }

  /** prepare_candidates: the candidates are the best `k` of the whole ranking;
      min-p keeps exactly those at or above the threshold; top-p keeps the
      shortest prefix that reaches its share of their mass. */
  method PrepareCandidates(exp: real -> real, logits: seq<real>, temperature: real, topK: int, topP: real, minP: real)
      returns (candidates: seq<Candidate>, w: seq<real>, active: nat, sum: real, ghost n: nat)
    requires logits != [] && temperature > 0.0 && ExpLike(exp)
    ensures candidates == Ranked(logits)[..if 0 < topK < |logits| then topK else |logits|]
    ensures w == Weights(exp, temperature, candidates)
    ensures MinPKeeps(w, minP, n) && TopPKeeps(w, n, topP, active) && sum == Total(w[..active]) > 0.0
  {
    var k := if 0 < topK < |logits| then topK else |logits|;
    var heap := TopK(logits, k);
    candidates := Sort(heap);
    RankedSorted(logits);
    SortedUnique(candidates, Ranked(logits)[..k]);
    w := Weights(exp, temperature, candidates);
    WeightsDescend(exp, temperature, candidates);
    active, sum, n := Filter(w, topP, minP);
  }

  /** The two filters over descending weights. */
  method Filter(w: seq<real>, topP: real, minP: real) returns (active: nat, sum: real, ghost n: nat)
    requires w != [] && (forall i :: 0 <= i < |w| ==> w[i] > 0.0) && forall i, j :: 0 <= i < j < |w| ==> w[i] >= w[j]
    ensures MinPKeeps(w, minP, n) && TopPKeeps(w, n, topP, active) && sum == Total(w[..active]) > 0.0
  {
    active := |w|;
    if minP > 0.0 {
      active := 1;
      while active < |w| && w[active] >= minP * w[0]
        invariant 1 <= active <= |w| && forall i :: 1 <= i < active ==> w[i] >= minP * w[0]
      {
        active := active + 1;
      }
    }
    n := active;
    hide MinPKeeps, Share;
    sum := 0.0;
    for i := 0 to active
      invariant sum == Total(w[..i])
    {
      TotalSnoc(w, i);
      sum := sum + w[i];
    }
    TotalPositive(w, 0, active);
    if 0.0 < topP < 1.0 {
      active, sum := Cut(w, active, topP, sum);
      TotalPositive(w, 0, active);
    }
  }

  /** The top-p cut. */
  method Cut(w: seq<real>, n: nat, topP: real, whole: real) returns (active: nat, sum: real)
    requires 1 <= n <= |w| && whole == Total(w[..n]) > 0.0 && 0.0 < topP < 1.0
    ensures TopPKeeps(w, n, topP, active) && sum == Total(w[..active])
  {
    LessThanWhole(topP, whole);
    hide Share;
    var cutoff := Share(topP, whole);
    var cumulative, found := 0.0, false;
    var i := 0;
    active, sum := n, whole;
    while i < active && !found
      invariant 0 <= i <= active <= n && sum == Total(w[..active])
      invariant if found then active == i && 1 <= i && sum >= cutoff else active == n && cumulative == Total(w[..i])
      invariant forall a: nat :: a < i || (a == i && !found) ==> Total(w[..a]) < cutoff
      decreases n - i
    {
      TotalSnoc(w, i);
      cumulative := cumulative + w[i];
      i := i + 1;
      if cumulative >= cutoff {
        active, sum, found := i, cumulative, true;
      }
    }
  }

  lemma PositiveProduct(a: real, b: real)
    requires a > 0.0 && b > 0.0
    ensures a * b > 0.0
  {
  }

  lemma LessThanWhole(share: real, whole: real)
    requires 0.0 < share < 1.0 && whole > 0.0
    ensures Share(share, whole) > 0.0 && Share(share, whole) < whole
  {
    var rest := 1.0 - share;
    var part := Share(share, whole);
    assert part == share * whole;
    PositiveProduct(share, whole);
    PositiveProduct(rest, whole);
    var other := rest * whole;
    assert other > 0.0;
    assert part + other == (share + rest) * whole;
    assert share + rest == 1.0;
  }
}
