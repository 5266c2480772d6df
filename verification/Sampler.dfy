/** The stateful sampler of engine/sampler.cpp over the reals, and how it meets
    the conditions of the speculative sampling law. */
module Sampler {
  import opened Candidates
  import opened SpecLaw

  datatype Params = Params(temperature: real, topK: int, topP: real, minP: real,
                           repeatPenalty: real, repeatLastN: int, presence: real, frequency: real)

  /** validate_sampling_params, engine/sampler.cpp:174-212. */
  predicate Acceptable(p: Params) {
    && 0.0 <= p.temperature <= 2.0 && p.topK >= 0 && 0.0 <= p.topP <= 1.0 && 0.0 <= p.minP <= 1.0
    && p.repeatPenalty > 0.0 && p.repeatLastN >= -1
    && -2.0 <= p.presence <= 2.0 && -2.0 <= p.frequency <= 2.0
  }

  predicate Penalises(p: Params) {
    p.repeatLastN != 0 && (p.repeatPenalty != 1.0 || p.presence != 0.0 || p.frequency != 0.0)
  }

  /** The last tokens that penalties look at; all of them if `n` is negative. */
  function Window(n: int, context: seq<int>): seq<int> {
    if n < 0 || n > |context| then context else context[|context| - n..]
  }

  function Adjusted(p: Params, logit: real, count: nat): real
    requires p.repeatPenalty > 0.0
  {
    var scaled :=
      if p.repeatPenalty == 1.0 then logit
      else if logit > 0.0 then logit / p.repeatPenalty else logit * p.repeatPenalty;
    scaled - p.presence - p.frequency * count as real
  }

  /** The logits after `context`. */
  function Penalised(p: Params, logits: seq<real>, context: seq<int>): (r: seq<real>)
    requires p.repeatPenalty > 0.0
    ensures |r| == |logits|
  {
    var seen := multiset(Window(p.repeatLastN, context));
    seq(|logits|, t requires 0 <= t < |logits| =>
      if Penalises(p) && seen[t] > 0 then Adjusted(p, logits[t], seen[t]) else logits[t])
  }

  // ---- what the penalties do to a logit ----

  /** How often `t` is among the last `n` tokens; all of them if `n` is negative. */
  function Repeats(context: seq<int>, n: int, t: int): nat
    decreases |context|
  {
    if context == [] || n == 0 then 0
    else Repeats(context[..|context| - 1], n - 1, t) + if context[|context| - 1] == t then 1 else 0
  }

  lemma {:induction false} RepeatsAre(context: seq<int>, n: int, t: int)
    ensures Repeats(context, n, t) == multiset(Window(n, context))[t]
    decreases |context|
  {
    if context != [] && n != 0 {
      var init, last := context[..|context| - 1], context[|context| - 1];
      RepeatsAre(init, n - 1, t);
      assert Window(n, context) == Window(n - 1, init) + [last];
    }
  }

  /** `x` is the logit after the repetition penalty. */
  predicate Scaled(logit: real, penalty: real, x: real) {
    if logit > 0.0 then x * penalty == logit else x == logit * penalty
  }

  /** What `count` occurrences cost. */
  function Charge(frequency: real, count: nat): real {
    frequency * count as real
  }

  /** A penalised logit, exactly: tokens that do not occur in the window keep theirs;
      for the others the repetition penalty divides a positive logit and multiplies any
      other, and presence counts once and frequency every time. */
  lemma PenalisedExactly(p: Params, logits: seq<real>, context: seq<int>, t: nat)
    requires p.repeatPenalty > 0.0 && t < |logits|
    ensures var count, r := Repeats(context, p.repeatLastN, t), Penalised(p, logits, context)[t];
      if count == 0 then r == logits[t]
      else
        Scaled(logits[t], p.repeatPenalty, r + p.presence + Charge(p.frequency, count))
  {
    RepeatsAre(context, p.repeatLastN, t);
    var count := Repeats(context, p.repeatLastN, t);
    if Penalises(p) {
      AdjustedIs(p, logits[t], count);
    } else if count > 0 {
      NoChange(p, logits[t], count);
    }
    hide Repeats, Window, Adjusted, Scaled, Charge;
  }

  lemma AdjustedIs(p: Params, logit: real, count: nat)
    requires p.repeatPenalty > 0.0
    ensures Scaled(logit, p.repeatPenalty, Adjusted(p, logit, count) + p.presence + Charge(p.frequency, count))
  {
  }

  lemma NoChange(p: Params, logit: real, count: nat)
    requires !Penalises(p) && p.repeatLastN != 0
    ensures Scaled(logit, p.repeatPenalty, logit + p.presence + Charge(p.frequency, count))
  {
  }

  /** So no repeated token gains, and which lose. */
  lemma PenaltyNeverRewards(p: Params, logits: seq<real>, context: seq<int>, t: nat)
    requires p.repeatPenalty >= 1.0 && p.presence >= 0.0 && p.frequency >= 0.0 && t < |logits|
    ensures var r := Penalised(p, logits, context)[t];
      && r <= logits[t]
      && (r < logits[t] <==> Repeats(context, p.repeatLastN, t) > 0
                             && (p.presence > 0.0 || p.frequency > 0.0 || (p.repeatPenalty > 1.0 && logits[t] != 0.0)))
  {
    PenalisedExactly(p, logits, context, t);
    var count, r := Repeats(context, p.repeatLastN, t), Penalised(p, logits, context)[t];
    hide *;
    if count > 0 {
      Times(p.frequency, count);
      Loses(p, logits[t], Charge(p.frequency, count), r);
    }
  }

  lemma Loses(p: Params, logit: real, charge: real, r: real)
    requires p.repeatPenalty >= 1.0 && p.presence >= 0.0 && charge >= 0.0
    requires Scaled(logit, p.repeatPenalty, r + p.presence + charge)
    ensures r <= logit && (r < logit <==> p.presence > 0.0 || charge > 0.0 || (p.repeatPenalty > 1.0 && logit != 0.0))
  {
    ScaledDown(logit, p.repeatPenalty, r + p.presence + charge);
  }

  lemma Signs(a: real, b: real)
    requires b > 0.0
    ensures (a * b > 0.0 <==> a > 0.0) && (a * b == 0.0 <==> a == 0.0)
  {
    if a < 0.0 {
      assert -a * b > 0.0;
    }
  }

  lemma ScaledDown(logit: real, penalty: real, scaled: real)
    requires penalty >= 1.0 && Scaled(logit, penalty, scaled)
    ensures scaled <= logit && (scaled < logit <==> penalty > 1.0 && logit != 0.0)
  {
    var less := if logit > 0.0 then scaled else logit;
    Signs(scaled, penalty);
    if penalty > 1.0 {
      Signs(less, penalty - 1.0);
      Minus(less, penalty, 1.0);
    }
  }

  lemma Minus(a: real, b: real, c: real)
    ensures a * (b - c) == a * b - a * c
  {
  }

  lemma Times(a: real, n: nat)
    requires a >= 0.0 && n > 0
    ensures Charge(a, n) >= 0.0 && (Charge(a, n) > 0.0 <==> a > 0.0)
  {
  }

  /** A penalty below 1 rewards repetition. */
  lemma PenaltyBelowOneRewards(p: Params, logits: seq<real>, context: seq<int>, t: nat)
    requires 0.0 < p.repeatPenalty < 1.0 && p.presence == 0.0 && p.frequency == 0.0 && t < |logits|
    ensures var r := Penalised(p, logits, context)[t];
      r >= logits[t] && (r > logits[t] <==> Repeats(context, p.repeatLastN, t) > 0 && logits[t] != 0.0)
  {
    PenalisedExactly(p, logits, context, t);
    var count, r := Repeats(context, p.repeatLastN, t), Penalised(p, logits, context)[t];
    assert Charge(p.frequency, count) == 0.0;
    hide *;
    if count > 0 {
      ScaledUp(logits[t], p.repeatPenalty, r);
    }
  }

  lemma ScaledUp(logit: real, penalty: real, scaled: real)
    requires 0.0 < penalty < 1.0 && Scaled(logit, penalty, scaled)
    ensures scaled >= logit && (scaled > logit <==> logit != 0.0)
  {
    var more := if logit > 0.0 then scaled else logit;
    Signs(scaled, penalty);
    Signs(more, 1.0 - penalty);
    Minus(more, 1.0, penalty);
  }

  /** More occurrences cost more, exactly if there is a frequency penalty. */
  lemma RepeatingCostsMore(p: Params, logits: seq<real>, a: seq<int>, b: seq<int>, t: nat)
    requires p.repeatPenalty > 0.0 && p.frequency >= 0.0 && t < |logits|
    requires 0 < Repeats(a, p.repeatLastN, t) < Repeats(b, p.repeatLastN, t)
    ensures Penalised(p, logits, b)[t] <= Penalised(p, logits, a)[t]
    ensures Penalised(p, logits, b)[t] < Penalised(p, logits, a)[t] <==> p.frequency > 0.0
  {
    PenalisedExactly(p, logits, a, t);
    PenalisedExactly(p, logits, b, t);
    var m, n := Repeats(a, p.repeatLastN, t), Repeats(b, p.repeatLastN, t);
    var x, y := Penalised(p, logits, a)[t], Penalised(p, logits, b)[t];
    hide *;
    Times(p.frequency, n - m);
    TimesMore(p.frequency, m, n);
    SameScaled(logits[t], p.repeatPenalty, x + p.presence + Charge(p.frequency, m), y + p.presence + Charge(p.frequency, n));
  }

  lemma TimesMore(a: real, m: nat, n: nat)
    requires m <= n
    ensures Charge(a, n) == Charge(a, m) + Charge(a, n - m)
  {
  }

  lemma SameScaled(logit: real, penalty: real, x: real, y: real)
    requires penalty > 0.0 && Scaled(logit, penalty, x) && Scaled(logit, penalty, y)
    ensures x == y
  {
    Signs(x - y, penalty);
    Minus(penalty, x, y);
  }

  /** host_argmax_token: the first of the largest logits. */
  method ArgMax(logits: seq<real>) returns (best: nat)
    requires logits != []
    ensures IsArgMax(logits, best)
  {
    best := 0;
    for i := 1 to |logits|
      invariant best < i && (forall j :: 0 <= j < i ==> logits[j] <= logits[best])
      invariant forall j :: 0 <= j < best ==> logits[j] < logits[best]
    {
      if logits[i] > logits[best] {
        best := i;
      }
    }
  }

  ghost predicate IsArgMax(logits: seq<real>, best: nat) {
    && best < |logits| && (forall j :: 0 <= j < |logits| ==> logits[j] <= logits[best])
    && forall j :: 0 <= j < best ==> logits[j] < logits[best]
  }

  function Zeros(v: nat): (r: seq<real>)
    ensures |r| == v
  {
    seq(v, _ => 0.0)
  }

  /** The kept candidates' shares, by token. */
  function Spread(v: nat, c: seq<Candidate>, w: seq<real>, sum: real): (r: seq<real>)
    requires |c| == |w| && sum != 0.0 && forall i :: 0 <= i < |c| ==> c[i].id < v
    ensures |r| == v
  {
    if c == [] then Zeros(v)
    else
      var n := |c| - 1;
      Spread(v, c[..n], w[..n], sum)[c[n].id := w[n] / sum]
  }

  function Kept(p: Params, logits: seq<real>): (r: seq<Candidate>)
    ensures |r| <= |logits| && (logits != [] ==> r != [])
  {
    Ranked(logits)[..if 0 < p.topK < |logits| then p.topK else |logits|]
  }

  predicate Plain(p: Params) {
    p.temperature <= 0.0 || p.topK == 1
  }

  ghost predicate Filters(p: Params, exp: real -> real, logits: seq<real>, n: nat, active: nat)
    requires p.temperature > 0.0
  {
    var w := Weights(exp, p.temperature, Kept(p, logits));
    MinPKeeps(w, p.minP, n) && TopPKeeps(w, n, p.topP, active)
  }

  /** The distribution that the configured filters make of some logits. */
  ghost predicate IsLaw(p: Params, exp: real -> real, logits: seq<real>, out: seq<real>) {
    if logits == [] then out == []
    else if Plain(p) then exists t: nat :: IsArgMax(logits, t) && out == Zeros(|logits|)[t := 1.0]
    else exists n: nat, active: nat :: Filters(p, exp, logits, n, active) && IsSpread(p, exp, logits, active, out)
  }

  ghost predicate IsSpread(p: Params, exp: real -> real, logits: seq<real>, active: nat, out: seq<real>)
    requires p.temperature > 0.0
  {
    var c := Kept(p, logits);
    var w := Weights(exp, p.temperature, c);
    && active <= |c| && Total(w[..active]) != 0.0 && (forall i :: 0 <= i < active ==> c[i].id < |logits|)
    && out == Spread(|logits|, c[..active], w[..active], Total(w[..active]))
  }

  /** The filters leave no choice. */
  lemma LawIsUnique(p: Params, exp: real -> real, logits: seq<real>, a: seq<real>, b: seq<real>)
    requires IsLaw(p, exp, logits, a) && IsLaw(p, exp, logits, b)
    ensures a == b
  {
    if logits != [] && !Plain(p) {
      var n, x: nat :| Filters(p, exp, logits, n, x) && IsSpread(p, exp, logits, x, a);
      var m, y: nat :| Filters(p, exp, logits, m, y) && IsSpread(p, exp, logits, y, b);
      FiltersUnique(p, Weights(exp, p.temperature, Kept(p, logits)), n, x, m, y);
    }
  }

  lemma FiltersUnique(p: Params, w: seq<real>, n: nat, x: nat, m: nat, y: nat)
    requires MinPKeeps(w, p.minP, n) && TopPKeeps(w, n, p.topP, x)
    requires MinPKeeps(w, p.minP, m) && TopPKeeps(w, m, p.topP, y)
    ensures n == m && x == y
  {
    MinPUnique(w, p.minP, n, m);
    TopPUnique(w, n, p.topP, x, y);
  }

  lemma MinPUnique(w: seq<real>, minP: real, n: nat, m: nat)
    requires MinPKeeps(w, minP, n) && MinPKeeps(w, minP, m)
    ensures n == m
  {
    assert n > 1 ==> w[n - 1] >= minP * w[0] || minP <= 0.0;
    assert m > 1 ==> w[m - 1] >= minP * w[0] || minP <= 0.0;
  }

  lemma TopPUnique(w: seq<real>, n: nat, topP: real, x: nat, y: nat)
    requires TopPKeeps(w, n, topP, x) && TopPKeeps(w, n, topP, y)
    ensures x == y
  {
    hide Total, Candidates.Share;
  }

  lemma RankedIds(logits: seq<real>)
    ensures forall i :: 0 <= i < |Ranked(logits)| ==> Ranked(logits)[i].id < |logits|
    ensures forall i, j :: 0 <= i < j < |Ranked(logits)| ==> Ranked(logits)[i].id != Ranked(logits)[j].id
  {
    var r := Ranked(logits);
    forall i | 0 <= i < |r|
      ensures r[i].id < |logits| && r[i].logit == logits[r[i].id]
    {
      assert r[i] in multiset(r);
      RankedExactly(logits, r[i]);
    }
    forall i, j | 0 <= i < j < |r|
      ensures r[i].id != r[j].id
    {
      if r[i].id == r[j].id {
        assert r == r[..i] + [r[i]] + r[i + 1..j] + [r[j]] + r[j + 1..];
        assert multiset(r)[r[i]] >= 2;
        RankedExactly(logits, r[i]);
      }
    }
  }

  // ---- the law is a probability distribution ----

  lemma {:induction false} SumUpdate(s: seq<real>, t: nat, x: real, n: nat)
    requires t < |s| && n <= |s|
    ensures Sum(n, Mass(s[t := x])) == Sum(n, Mass(s)) + if t < n then x - s[t] else 0.0
  {
    if n > 0 {
      SumUpdate(s, t, x, n - 1);
    }
  }

  lemma {:induction false} SumZeros(v: nat, n: nat)
    requires n <= v
    ensures Sum(n, Mass(Zeros(v))) == 0.0
  {
    if n > 0 {
      SumZeros(v, n - 1);
    }
  }

  /** Each kept candidate's token has its share, every other token nothing. */
  lemma {:induction false} SpreadAt(v: nat, c: seq<Candidate>, w: seq<real>, sum: real, t: nat)
    requires |c| == |w| && sum > 0.0 && t < v && forall i :: 0 <= i < |c| ==> c[i].id < v
    requires forall i, j :: 0 <= i < j < |c| ==> c[i].id != c[j].id
    ensures (forall i :: 0 <= i < |c| ==> c[i].id != t) ==> Spread(v, c, w, sum)[t] == 0.0
    ensures forall i :: 0 <= i < |c| && c[i].id == t ==> Spread(v, c, w, sum)[t] == w[i] / sum
  {
    if c != [] {
      SpreadAt(v, c[..|c| - 1], w[..|c| - 1], sum, t);
    }
  }

  lemma {:induction false} SpreadSums(v: nat, c: seq<Candidate>, w: seq<real>, sum: real)
    requires |c| == |w| && sum > 0.0 && forall i :: 0 <= i < |c| ==> c[i].id < v && w[i] > 0.0
    requires forall i, j :: 0 <= i < j < |c| ==> c[i].id != c[j].id
    ensures Sum(v, Mass(Spread(v, c, w, sum))) == Total(w) / sum
  {
    if c == [] {
      SumZeros(v, v);
      NoShare(sum);
    } else {
      var n := |c| - 1;
      SpreadAt(v, c[..n], w[..n], sum, c[n].id);
      SpreadLast(v, c, w, sum);
      hide Spread, Total, Sum, Mass;
      SpreadSums(v, c[..n], w[..n], sum);
      LastShare(v, Spread(v, c[..n], w[..n], sum), c[n].id, Total(w[..n]), w[n], sum);
    }
  }

  lemma NoShare(sum: real)
    requires sum != 0.0
    ensures 0.0 / sum == 0.0
  {
  }

  lemma SpreadLast(v: nat, c: seq<Candidate>, w: seq<real>, sum: real)
    requires |c| == |w| > 0 && sum != 0.0 && forall i :: 0 <= i < |c| ==> c[i].id < v
    ensures Spread(v, c, w, sum) == Spread(v, c[..|c| - 1], w[..|c| - 1], sum)[c[|c| - 1].id := w[|c| - 1] / sum]
    ensures Total(w) == Total(w[..|c| - 1]) + w[|c| - 1]
  {
  }

  lemma LastShare(v: nat, rest: seq<real>, id: nat, total: real, last: real, sum: real)
    requires |rest| == v && id < v && rest[id] == 0.0 && sum > 0.0 && Sum(v, Mass(rest)) == total / sum
    ensures Sum(v, Mass(rest[id := last / sum])) == (total + last) / sum
  {
    AddShares(total, last, sum);
    hide *;
    SumUpdate(rest, id, last / sum, v);
  }

  lemma SpreadNonNegative(v: nat, c: seq<Candidate>, w: seq<real>, sum: real)
    requires |c| == |w| && sum > 0.0 && forall i :: 0 <= i < |c| ==> c[i].id < v && w[i] > 0.0
    requires forall i, j :: 0 <= i < j < |c| ==> c[i].id != c[j].id
    ensures forall t: nat :: At(Spread(v, c, w, sum), t) >= 0.0
  {
    hide Spread;
    forall t: nat
      ensures At(Spread(v, c, w, sum), t) >= 0.0
    {
      if t < v {
        SpreadAt(v, c, w, sum, t);
        if i :| 0 <= i < |c| && c[i].id == t {
          Share(w[i], sum);
        }
      }
    }
  }

  lemma Share(a: real, b: real)
    requires a > 0.0 && b > 0.0
    ensures a / b > 0.0
  {
  }

  lemma AddShares(a: real, b: real, c: real)
    requires c != 0.0
    ensures a / c + b / c == (a + b) / c
  {
  }

  /** Whatever the logits and the parameters, the filters give a distribution. */
  lemma LawIsDistribution(p: Params, exp: real -> real, logits: seq<real>, out: seq<real>)
    requires ExpLike(exp) && logits != [] && IsLaw(p, exp, logits, out)
    ensures Distribution(out, |logits|)
  {
    var v := |logits|;
    if Plain(p) {
      var t: nat :| IsArgMax(logits, t) && out == Zeros(v)[t := 1.0];
      SumZeros(v, v);
      SumUpdate(Zeros(v), t, 1.0, v);
    } else {
      var n, active: nat :| Filters(p, exp, logits, n, active) && IsSpread(p, exp, logits, active, out);
      FilteredIsDistribution(p, exp, logits, n, active, out);
    }
  }

  lemma SpreadIsDistribution(v: nat, c: seq<Candidate>, w: seq<real>, sum: real)
    requires |c| == |w| && sum == Total(w) > 0.0 && forall i :: 0 <= i < |c| ==> c[i].id < v && w[i] > 0.0
    requires forall i, j :: 0 <= i < j < |c| ==> c[i].id != c[j].id
    ensures Distribution(Spread(v, c, w, sum), v)
  {
    hide Spread, Sum, Total;
    SpreadSums(v, c, w, sum);
    SpreadNonNegative(v, c, w, sum);
    WholeShare(sum);
  }

  lemma WholeShare(sum: real)
    requires sum != 0.0
    ensures sum / sum == 1.0
  {
  }

  lemma KeptFacts(p: Params, exp: real -> real, logits: seq<real>)
    requires ExpLike(exp) && p.temperature > 0.0
    ensures var c := Kept(p, logits);
      && (forall i :: 0 <= i < |c| ==> c[i].id < |logits|)
      && (forall i, j :: 0 <= i < j < |c| ==> c[i].id != c[j].id)
      && forall i :: 0 <= i < |c| ==> Weights(exp, p.temperature, c)[i] > 0.0
  {
    hide Ranked;
    RankedSorted(logits);
    RankedIds(logits);
    hide Weights;
    WeightsDescend(exp, p.temperature, Kept(p, logits));
  }

  lemma FilteredIsDistribution(p: Params, exp: real -> real, logits: seq<real>, n: nat, active: nat, out: seq<real>)
    requires ExpLike(exp) && logits != [] && p.temperature > 0.0
    requires Filters(p, exp, logits, n, active) && IsSpread(p, exp, logits, active, out)
    ensures Distribution(out, |logits|)
  {
    var c := Kept(p, logits);
    var w := Weights(exp, p.temperature, c);
    KeptFacts(p, exp, logits);
    hide Weights, Ranked, Kept, Spread, ExpLike, Sorted, Sum, MinPKeeps, Distribution;
    TotalPositive(w, 0, active);
    assert w[..0] == [];
    SpreadIsDistribution(|logits|, c[..active], w[..active], Total(w[..active]));
  }

  // ---- draws ----

  /** What a draw that lands on `target` of the total mass picks from weights: the
      first positive weight whose cumulative mass reaches it. */
  ghost predicate IsDraw(w: seq<real>, target: real, i: nat) {
    && i < |w| && w[i] > 0.0 && target <= Total(w[..i + 1])
    && forall j: nat :: j < i && w[j] > 0.0 ==> Through(w, j) < target
  }

  /** The cumulative mass up to and including `j`. */
  function Through(w: seq<real>, j: nat): real
    requires j < |w|
  {
    Total(w[..j + 1])
  }

  /** Where a uniform draw lands in a mass. */
  function Target(u: real, sum: real): real {
    u * sum
  }

  lemma {:induction false} TotalMonotone(w: seq<real>, a: nat, b: nat)
    requires a <= b <= |w| && forall i :: 0 <= i < |w| ==> w[i] >= 0.0
    ensures 0.0 <= Total(w[..a]) <= Total(w[..b])
    decreases a + b
  {
    if b > a {
      TotalMonotone(w, a, b - 1);
      TotalSnoc(w, b - 1);
    } else if a > 0 {
      TotalMonotone(w, a - 1, a - 1);
      TotalSnoc(w, a - 1);
    }
  }

  /** Token `i` is drawn on an interval of length w[i] out of Total(w), so a
      uniform draw picks it with exactly that share. */
  lemma DrawInterval(w: seq<real>, target: real, i: nat)
    requires i < |w| && (forall k :: 0 <= k < |w| ==> w[k] >= 0.0) && 0.0 < target <= Total(w)
    ensures IsDraw(w, target, i) <==> Total(w[..i]) < target <= Total(w[..i]) + w[i]
  {
    TotalSnoc(w, i);
    if Total(w[..i]) < target {
      forall j: nat | j < i
        ensures Through(w, j) < target
      {
        TotalMonotone(w, j + 1, i);
      }
    }
    if IsDraw(w, target, i) {
      BelowTarget(w, target, i);
    }
  }

  lemma {:induction false} BelowTarget(w: seq<real>, target: real, n: nat)
    requires n <= |w| && target > 0.0 && forall k :: 0 <= k < |w| ==> w[k] >= 0.0
    requires forall j: nat :: j < n && w[j] > 0.0 ==> Through(w, j) < target
    ensures Total(w[..n]) < target
  {
    if n > 0 {
      BelowTarget(w, target, n - 1);
      TotalSnoc(w, n - 1);
      assert w[n - 1] > 0.0 ==> Through(w, n - 1) < target;
    }
  }

  class Sampler {
    const params: Params
    const exp: real -> real
    var history: seq<int>

    ghost predicate Valid()
      reads this
    {
      params.repeatPenalty > 0.0 && ExpLike(exp) && forall i :: 0 <= i < |history| ==> history[i] >= 0
    }

    constructor (p: Params, e: real -> real)
      requires Acceptable(p) && ExpLike(e)
      ensures Valid() && params == p && exp == e && history == []
    {
      params, exp, history := p, e, [];
    }

    /** accept ignores negative tokens. */
    method Accept(token: int)
      requires Valid()
      modifies this`history
      ensures Valid() && history == if token < 0 then old(history) else old(history) + [token]
    {
      if token < 0 {
        return;
      }
      history := history + [token];
    }

    /** The penalty pass shared by sample and probabilities: counts over the window
        of the combined history, then one adjustment per counted token, in any
        order. */
    method Penalise(logits: seq<real>, extra: seq<int>) returns (adjusted: seq<real>)
      requires Valid()
      ensures adjusted == Penalised(params, logits, history + extra)
    {
      adjusted := logits;
      if !Penalises(params) {
        return;
      }
      ghost var context := history + extra;
      var size := |history| + |extra|;
      var window := if params.repeatLastN < 0 || size < params.repeatLastN then size else params.repeatLastN;
      var counts := CountTokens(extra, size - window, |logits|);
      assert context[size - window..] == Window(params.repeatLastN, context);
      adjusted := AdjustEach(logits, counts);
    }

    /** One adjustment per counted token, in any order. */
    method AdjustEach(logits: seq<real>, counts: map<int, nat>) returns (adjusted: seq<real>)
      requires Valid() && forall t <- counts :: 0 <= t < |logits|
      ensures |adjusted| == |logits|
      ensures forall t :: 0 <= t < |logits| ==>
        adjusted[t] == if t in counts then Adjusted(params, logits[t], counts[t]) else logits[t]
    {
      adjusted := logits;
      var rest := counts.Keys;
      while rest != {}
        invariant rest <= counts.Keys && |adjusted| == |logits|
        invariant forall t :: 0 <= t < |logits| ==>
          adjusted[t] == if t in counts && t !in rest then Adjusted(params, logits[t], counts[t]) else logits[t]
      {
        assert (forall t :: t !in rest) ==> rest == {};
        var t :| t in rest;
        adjusted := adjusted[t := Adjusted(params, adjusted[t], counts[t])];
        rest := rest - {t};
      }
    }

    method CountTokens(extra: seq<int>, begin: nat, vocab: nat) returns (counts: map<int, nat>)
      requires begin <= |history| + |extra|
      ensures forall t :: t in counts <==> 0 <= t < vocab && t in (history + extra)[begin..]
      ensures forall t <- counts :: counts[t] == multiset((history + extra)[begin..])[t]
    {
      ghost var context := history + extra;
      counts := map[];
      for i := begin to |history| + |extra|
        invariant forall t :: t in counts <==> 0 <= t < vocab && t in context[begin..i]
        invariant forall t <- counts :: counts[t] == multiset(context[begin..i])[t]
      {
        var t := if i < |history| then history[i] else extra[i - |history|];
        assert context[begin..i + 1] == context[begin..i] + [context[i]];
        if 0 <= t < vocab {
          counts := counts[t := (if t in counts then counts[t] else 0) + 1];
        }
      }
      assert context[begin..|context|] == context[begin..];
    }

    /** probabilities, engine/sampler.cpp:304-350: the law of the logits penalised
        by the committed history and the extra one together. */
    method Probabilities(logits: seq<real>, extra: seq<int>) returns (out: seq<real>)
      requires Valid()
      ensures IsLaw(params, exp, Penalised(params, logits, history + extra), out)
    {
      if logits == [] {
        return [];
      }
      var filtered := Penalise(logits, extra);
      out := DistributionOf(params, exp, filtered);
    }

    /** sample, engine/sampler.cpp:256-302: the logits are penalised in place and
        put back; the token is an arg-max or a draw from the kept candidates. */
    method Sample(logits: array<real>, u: real) returns (token: nat)
      requires Valid() && logits.Length > 0 && 0.0 <= u <= 1.0
      modifies logits
      ensures logits[..] == old(logits[..])
      ensures IsSample(params, exp, Penalised(params, old(logits[..]), history), u, token)
    {
      if !Penalises(params) {
        NoPenalty(params, logits[..], history);
        token := SampleFrom(params, exp, logits[..], u);
        return;
      }
      token := SamplePenalised(logits, u);
    }

    method SamplePenalised(logits: array<real>, u: real) returns (token: nat)
      requires Valid() && logits.Length > 0 && 0.0 <= u <= 1.0 && Penalises(params)
      modifies logits
      ensures logits[..] == old(logits[..])
      ensures IsSample(params, exp, Penalised(params, old(logits[..]), history), u, token)
    {
      var window := if params.repeatLastN < 0 || |history| < params.repeatLastN then |history| else params.repeatLastN;
      assert history + [] == history;
      ghost var recent := history[|history| - window..];
      assert recent == Window(params.repeatLastN, history);
      var counts := CountTokens([], |history| - window, logits.Length);
      hide *;
      token := SampleAdjusted(logits, u, counts, recent);
    }

    /** Penalises in place, samples and restores. */
    method SampleAdjusted(logits: array<real>, u: real, counts: map<int, nat>, ghost recent: seq<int>) returns (token: nat)
      requires Valid() && logits.Length > 0 && 0.0 <= u <= 1.0 && Penalises(params)
      requires recent == Window(params.repeatLastN, history)
      requires forall t :: t in counts <==> 0 <= t < logits.Length && t in recent
      requires forall t <- counts :: counts[t] == multiset(recent)[t]
      modifies logits
      ensures logits[..] == old(logits[..])
      ensures IsSample(params, exp, Penalised(params, old(logits[..]), history), u, token)
    {
      hide Penalised, Adjusted, IsSample, ExpLike, Window, Penalises;
      ghost var before := logits[..];
      var saved := PenaliseInPlace(logits, counts);
      PenaltyIs(params, before, history, recent, counts, logits[..]);
      token := SampleFrom(params, exp, logits[..], u);
      RestoreLogits(logits, saved);
      assert logits[..] == before;
    }

    method PenaliseInPlace(logits: array<real>, counts: map<int, nat>) returns (saved: map<int, real>)
      requires Valid() && forall t <- counts :: 0 <= t < logits.Length
      modifies logits
      ensures saved.Keys == counts.Keys && forall t <- saved :: saved[t] == old(logits[t])
      ensures forall t :: 0 <= t < logits.Length ==>
        logits[t] == if t in counts then Adjusted(params, old(logits[t]), counts[t]) else old(logits[t])
    {
      saved := map[];
      var rest := counts.Keys;
      while rest != {}
        invariant rest <= counts.Keys && saved.Keys == counts.Keys - rest
        invariant forall t <- saved :: saved[t] == old(logits[t])
        invariant forall t :: 0 <= t < logits.Length ==>
          logits[t] == if t in counts && t !in rest then Adjusted(params, old(logits[t]), counts[t]) else old(logits[t])
      {
        assert (forall t :: t !in rest) ==> rest == {};
        var t :| t in rest;
        saved := saved[t := logits[t]];
        logits[t] := Adjusted(params, logits[t], counts[t]);
        rest := rest - {t};
      }
    }
  }

  lemma NoPenalty(p: Params, logits: seq<real>, context: seq<int>)
    requires p.repeatPenalty > 0.0 && !Penalises(p)
    ensures Penalised(p, logits, context) == logits
  {
  }

  lemma PenaltyIs(p: Params, logits: seq<real>, context: seq<int>, window: seq<int>, counts: map<int, nat>, out: seq<real>)
    requires p.repeatPenalty > 0.0 && Penalises(p) && window == Window(p.repeatLastN, context)
    requires forall t :: t in counts <==> 0 <= t < |logits| && t in window
    requires forall t <- counts :: counts[t] == multiset(window)[t]
    requires |out| == |logits| && forall t :: 0 <= t < |logits| ==>
      out[t] == if t in counts then Adjusted(p, logits[t], counts[t]) else logits[t]
    ensures out == Penalised(p, logits, context)
  {
    hide Adjusted;
  }

  method RestoreLogits(logits: array<real>, saved: map<int, real>)
    requires forall t <- saved :: 0 <= t < logits.Length
    modifies logits
    ensures forall t :: 0 <= t < logits.Length ==> logits[t] == if t in saved then saved[t] else old(logits[t])
  {
    var rest := saved.Keys;
    while rest != {}
      invariant rest <= saved.Keys
      invariant forall t :: 0 <= t < logits.Length ==>
        logits[t] == if t in saved && t !in rest then saved[t] else old(logits[t])
    {
      assert (forall t :: t !in rest) ==> rest == {};
      var t :| t in rest;
      logits[t] := saved[t];
      rest := rest - {t};
    }
  }

  /** A token sampled from some logits with the draw `u`. */
  ghost predicate IsSample(p: Params, exp: real -> real, logits: seq<real>, u: real, token: nat) {
    if Plain(p) then IsArgMax(logits, token)
    else exists n: nat, active: nat, i: nat :: Filters(p, exp, logits, n, active) && DrawnAt(p, exp, logits, active, u, i, token)
  }

  ghost predicate DrawnAt(p: Params, exp: real -> real, logits: seq<real>, active: nat, u: real, i: nat, token: nat)
    requires p.temperature > 0.0
  {
    var c := Kept(p, logits);
    var w := Weights(exp, p.temperature, c);
    i < active <= |c| && token == c[i].id && IsDraw(w[..active], Target(u, Total(w[..active])), i)
  }

  /** sample_token_impl, sampler.cpp:118-140. */
  method SampleFrom(p: Params, exp: real -> real, logits: seq<real>, u: real) returns (token: nat)
    requires ExpLike(exp) && logits != [] && 0.0 <= u <= 1.0
    ensures IsSample(p, exp, logits, u, token)
  {
    if p.temperature <= 0.0 || p.topK == 1 {
      token := ArgMax(logits);
      return;
    }
    var c, w, active, sum, n := PrepareCandidates(exp, logits, p.temperature, p.topK, p.topP, p.minP);
    KeptFacts(p, exp, logits);
    hide Weights, MinPKeeps, TopPKeeps, Ranked;
    assert c == Kept(p, logits);
    ActiveBound(w, n, p.topP, active);
    hide *;
    var i := Draw(w[..active], sum, u);
    token := c[i].id;
    SampleIs(p, exp, logits, n, active, u, i);
  }

  lemma SampleIs(p: Params, exp: real -> real, logits: seq<real>, n: nat, active: nat, u: real, i: nat)
    requires p.temperature > 0.0 && p.topK != 1 && logits != [] && i < active <= |Kept(p, logits)|
    requires var w := Weights(exp, p.temperature, Kept(p, logits));
      MinPKeeps(w, p.minP, n) && TopPKeeps(w, n, p.topP, active) && IsDraw(w[..active], Target(u, Total(w[..active])), i)
    ensures IsSample(p, exp, logits, u, Kept(p, logits)[i].id)
  {
    hide Weights, MinPKeeps, TopPKeeps, Kept, IsDraw, Target, Total;
    assert Filters(p, exp, logits, n, active) && DrawnAt(p, exp, logits, active, u, i, Kept(p, logits)[i].id);
  }

  /** A kept candidate's entry of the distribution is its weight's share. */
  lemma KeptShare(p: Params, exp: real -> real, logits: seq<real>, out: seq<real>, n: nat, active: nat, i: nat)
    requires ExpLike(exp) && p.temperature > 0.0 && logits != []
    requires Filters(p, exp, logits, n, active) && IsSpread(p, exp, logits, active, out) && i < active
    ensures var c := Kept(p, logits);
      var w := Weights(exp, p.temperature, c);
      Total(w[..active]) > 0.0 && c[i].id < |out| && out[c[i].id] == Part(w[i], Total(w[..active]))
  {
    var c := Kept(p, logits);
    var w := Weights(exp, p.temperature, c);
    KeptFacts(p, exp, logits);
    hide Weights, Ranked, Kept, Spread, ExpLike, MinPKeeps;
    TotalPositive(w, 0, active);
    SpreadAt(|logits|, c[..active], w[..active], Total(w[..active]), c[i].id);
    assert c[..active][i] == c[i];
  }

  /** Which draws sample the candidate `i`. */
  lemma SampledAt(p: Params, exp: real -> real, logits: seq<real>, n: nat, active: nat, u: real, i: nat)
    requires ExpLike(exp) && !Plain(p) && logits != [] && Filters(p, exp, logits, n, active) && i < active <= |Kept(p, logits)|
    requires Total(Weights(exp, p.temperature, Kept(p, logits))[..active]) > 0.0
    ensures IsSample(p, exp, logits, u, Kept(p, logits)[i].id) <==>
            Drawn(Weights(exp, p.temperature, Kept(p, logits))[..active], u, i)
  {
    KeptFacts(p, exp, logits);
    hide Weights, MinPKeeps, TopPKeeps, Kept, IsDraw, Target, Total, ExpLike;
    var token := Kept(p, logits)[i].id;
    if IsSample(p, exp, logits, u, token) {
      var k := OnlyDraw(p, exp, logits, n, active, u, token);
      assert k == i;
    } else {
      assert !(Filters(p, exp, logits, n, active) && DrawnAt(p, exp, logits, active, u, i, token));
    }
  }

  /** A sampled token is drawn among the active candidates. */
  lemma OnlyDraw(p: Params, exp: real -> real, logits: seq<real>, n: nat, active: nat, u: real, token: nat) returns (i: nat)
    requires !Plain(p) && Filters(p, exp, logits, n, active) && IsSample(p, exp, logits, u, token)
    ensures DrawnAt(p, exp, logits, active, u, i, token)
  {
    hide Weights, MinPKeeps, TopPKeeps, Kept, IsDraw, Target, Total;
    var m, other: nat, k :| Filters(p, exp, logits, m, other) && DrawnAt(p, exp, logits, other, u, k, token);
    FiltersUnique(p, Weights(exp, p.temperature, Kept(p, logits)), n, active, m, other);
    i := k;
  }

  /** Sampling directly and drawing from the distribution give every token the same
      chance: a uniform draw samples it exactly on an interval that is as long as the
      token's entry. */
  lemma SameChance(p: Params, exp: real -> real, logits: seq<real>, out: seq<real>, token: nat) returns (lo: real)
    requires ExpLike(exp) && logits != [] && IsLaw(p, exp, logits, out)
    ensures 0.0 <= lo && 0.0 <= At(out, token) && lo + At(out, token) <= 1.0
    ensures forall u: real :: 0.0 < u <= 1.0 ==> (IsSample(p, exp, logits, u, token) <==> lo < u <= lo + At(out, token))
  {
    if Plain(p) {
      lo := 0.0;
      var best: nat :| IsArgMax(logits, best) && out == Zeros(|logits|)[best := 1.0];
      if IsArgMax(logits, token) {
        OneArgMax(logits, best, token);
      }
    } else {
      hide ExpLike, IsSpread, Filters, IsSample, Plain;
      var n, active: nat :| Filters(p, exp, logits, n, active) && IsSpread(p, exp, logits, active, out);
      lo := SampleInterval(p, exp, logits, out, n, active, token);
    }
  }

  lemma OneArgMax(logits: seq<real>, a: nat, b: nat)
    requires IsArgMax(logits, a) && IsArgMax(logits, b)
    ensures a == b
  {
    assert logits[a] <= logits[b] <= logits[a];
  }

  lemma SampleInterval(p: Params, exp: real -> real, logits: seq<real>, out: seq<real>, n: nat, active: nat, token: nat) returns (lo: real)
    requires ExpLike(exp) && !Plain(p) && logits != []
    requires Filters(p, exp, logits, n, active) && IsSpread(p, exp, logits, active, out)
    ensures 0.0 <= lo && 0.0 <= At(out, token) && lo + At(out, token) <= 1.0
    ensures forall u: real :: 0.0 < u <= 1.0 ==> (IsSample(p, exp, logits, u, token) <==> lo < u <= lo + At(out, token))
  {
    var c := Kept(p, logits);
    hide Weights, MinPKeeps, TopPKeeps, Kept, Spread, ExpLike, IsDraw, IsSample, Total;
    if i: nat :| i < active && c[i].id == token {
      lo := KeptInterval(p, exp, logits, out, n, active, i);
    } else {
      lo := 0.0;
      NotKept(p, exp, logits, out, active, token);
      forall u: real | 0.0 < u <= 1.0
        ensures !IsSample(p, exp, logits, u, token)
      {
        if IsSample(p, exp, logits, u, token) {
          var k := OnlyDraw(p, exp, logits, n, active, u, token);
        }
      }
    }
  }

  lemma ActiveMass(p: Params, exp: real -> real, logits: seq<real>, n: nat, active: nat)
    requires ExpLike(exp) && !Plain(p) && logits != [] && Filters(p, exp, logits, n, active)
    ensures var w := Weights(exp, p.temperature, Kept(p, logits));
      && active <= |w| && Total(w[..active]) > 0.0 && forall k :: 0 <= k < |w[..active]| ==> w[..active][k] >= 0.0
  {
    var w := Weights(exp, p.temperature, Kept(p, logits));
    KeptFacts(p, exp, logits);
    hide Weights, MinPKeeps, Kept, ExpLike, Total;
    TotalPositive(w, 0, active);
    assert w[..0] == [];
  }

  /** A token outside the active candidates has nothing. */
  lemma NotKept(p: Params, exp: real -> real, logits: seq<real>, out: seq<real>, active: nat, token: nat)
    requires ExpLike(exp) && !Plain(p) && IsSpread(p, exp, logits, active, out)
    requires forall i: nat :: i < active && i < |Kept(p, logits)| ==> Kept(p, logits)[i].id != token
    ensures At(out, token) == 0.0
  {
    var c := Kept(p, logits);
    var w := Weights(exp, p.temperature, c);
    hide Weights, Kept, ExpLike, Total;
    if token < |logits| {
      SpreadElsewhere(|logits|, c[..active], w[..active], Total(w[..active]), token);
    }
  }

  lemma {:induction false} SpreadElsewhere(v: nat, c: seq<Candidate>, w: seq<real>, sum: real, t: nat)
    requires |c| == |w| && sum != 0.0 && t < v && forall i :: 0 <= i < |c| ==> c[i].id < v && c[i].id != t
    ensures Spread(v, c, w, sum)[t] == 0.0
  {
    if c != [] {
      SpreadElsewhere(v, c[..|c| - 1], w[..|c| - 1], sum, t);
    }
  }

  lemma DrawLawIs(w: seq<real>, i: nat)
    requires i < |w| && (forall k :: 0 <= k < |w| ==> w[k] >= 0.0) && Total(w) > 0.0
    ensures DrawLaw(w, i) == Part(w[i], Total(w))
  {
    hide DrawLaw, Total;
    DrawShare(w, i);
    ShareIs(w[i], DrawLaw(w, i), Total(w));
  }

  lemma EntryIs(p: Params, exp: real -> real, logits: seq<real>, out: seq<real>, n: nat, active: nat, i: nat)
    requires ExpLike(exp) && !Plain(p) && logits != []
    requires Filters(p, exp, logits, n, active) && IsSpread(p, exp, logits, active, out) && i < active
    ensures i < |Kept(p, logits)| && active <= |Weights(exp, p.temperature, Kept(p, logits))|
    ensures At(out, Kept(p, logits)[i].id) == DrawLaw(Weights(exp, p.temperature, Kept(p, logits))[..active], i)
  {
    ActiveMass(p, exp, logits, n, active);
    var w := Weights(exp, p.temperature, Kept(p, logits));
    hide Weights, MinPKeeps, TopPKeeps, Kept, Total, Spread, ExpLike, DrawLaw;
    hide Part;
    KeptShare(p, exp, logits, out, n, active, i);
    DrawLawIs(w[..active], i);
  }

  lemma KeptInterval(p: Params, exp: real -> real, logits: seq<real>, out: seq<real>, n: nat, active: nat, i: nat) returns (lo: real)
    requires ExpLike(exp) && !Plain(p) && logits != []
    requires Filters(p, exp, logits, n, active) && IsSpread(p, exp, logits, active, out) && i < active
    ensures i < |Kept(p, logits)|
    ensures var token := Kept(p, logits)[i].id;
      && 0.0 <= lo && 0.0 <= At(out, token) && lo + At(out, token) <= 1.0
      && forall u: real :: 0.0 < u <= 1.0 ==> (IsSample(p, exp, logits, u, token) <==> lo < u <= lo + At(out, token))
  {
    ActiveMass(p, exp, logits, n, active);
    EntryIs(p, exp, logits, out, n, active, i);
    hide *;
    var c := Kept(p, logits);
    var kept := Weights(exp, p.temperature, c)[..active];
    DrawIntervals(kept, i);
    lo := Low(kept, i);
    forall u: real | 0.0 < u <= 1.0
      ensures IsSample(p, exp, logits, u, c[i].id) <==> lo < u <= lo + DrawLaw(kept, i)
    {
      SampledAt(p, exp, logits, n, active, u, i);
    }
  }

  /** probability_distribution_impl, sampler.cpp:142-167. */
  method DistributionOf(p: Params, exp: real -> real, logits: seq<real>) returns (out: seq<real>)
    requires ExpLike(exp) && logits != []
    ensures IsLaw(p, exp, logits, out)
  {
    if p.temperature <= 0.0 || p.topK == 1 {
      var best := ArgMax(logits);
      return Zeros(|logits|)[best := 1.0];
    }
    var c, w, active, sum, n := PrepareCandidates(exp, logits, p.temperature, p.topK, p.topP, p.minP);
    KeptFacts(p, exp, logits);
    hide Weights, MinPKeeps, TopPKeeps, Ranked, Total, ExpLike, IsArgMax, Sorted, Spread;
    assert c == Kept(p, logits);
    hide Kept;
    assert active <= |c| by {
      ActiveBound(w, n, p.topP, active);
    }
    out := SpreadOut(|logits|, c[..active], w[..active], sum);
    assert Filters(p, exp, logits, n, active) && IsSpread(p, exp, logits, active, out);
  }

  lemma ActiveBound(w: seq<real>, n: nat, topP: real, active: nat)
    requires TopPKeeps(w, n, topP, active)
    ensures 1 <= active <= |w|
  {
  }

  /** Writes the shares into the output vector (sampler.cpp:163-166). */
  method SpreadOut(v: nat, c: seq<Candidate>, w: seq<real>, sum: real) returns (out: seq<real>)
    requires |c| == |w| && sum != 0.0 && forall i :: 0 <= i < |c| ==> c[i].id < v
    ensures out == Spread(v, c, w, sum)
  {
    out := Zeros(v);
    for i := 0 to |c|
      invariant |out| == v && out == Spread(v, c[..i], w[..i], sum)
    {
      assert c[..i + 1][..i] == c[..i] && w[..i + 1][..i] == w[..i];
      out := out[c[i].id := w[i] / sum];
    }
    assert c[..|c|] == c && w[..|w|] == w;
  }

  /** A proposal made with drafts as extra history and a target computed after
      accepting them use the same context. */
  lemma SharedContext(p: Params, exp: real -> real, logits: seq<real>, history: seq<int>, drafts: seq<int>, a: seq<real>, b: seq<real>)
    requires p.repeatPenalty > 0.0
    requires IsLaw(p, exp, Penalised(p, logits, history + drafts), a)
    requires IsLaw(p, exp, Penalised(p, logits, history + drafts + []), b)
    ensures a == b
  {
    assert history + drafts + [] == history + drafts;
    LawIsUnique(p, exp, Penalised(p, logits, history + drafts), a, b);
  }

  /** A token drawn from weights: token 0 if they have no mass. */
  ghost predicate Drawn(w: seq<real>, u: real, token: nat) {
    if Total(w) > 0.0 then IsDraw(w, Target(u, Total(w)), token) else token == 0
  }

  /** sample_probabilities, engine/sampler.cpp:352-374, for a uniform draw. */
  method SampleProbabilities(w: seq<real>, u: real) returns (token: nat)
    requires 0.0 <= u <= 1.0 && forall k :: 0 <= k < |w| ==> w[k] >= 0.0
    ensures Drawn(w, u, token)
  {
    hide Target, IsDraw;
    var sum := 0.0;
    for i := 0 to |w|
      invariant sum == Total(w[..i])
    {
      TotalSnoc(w, i);
      if w[i] > 0.0 {
        sum := sum + w[i];
      }
    }
    assert w[..|w|] == w;
    if !(sum > 0.0) {
      return 0;
    }
    token := Draw(w, sum, u);
  }

  method Draw(w: seq<real>, sum: real, u: real) returns (i: nat)
    requires 0.0 <= u <= 1.0 && sum == Total(w) > 0.0 && forall k :: 0 <= k < |w| ==> w[k] >= 0.0
    ensures IsDraw(w, Target(u, sum), i)
  {
    Reaches(u, sum);
    i := FirstReaching(w, Target(u, sum));
  }

  lemma Reaches(u: real, sum: real)
    requires 0.0 <= u <= 1.0 && sum > 0.0
    ensures Target(u, sum) <= sum
  {
  }

  method FirstReaching(w: seq<real>, target: real) returns (last: nat)
    requires target <= Total(w) && Total(w) > 0.0 && forall k :: 0 <= k < |w| ==> w[k] >= 0.0
    ensures IsDraw(w, target, last)
  {
    var cumulative, found := 0.0, false;
    last := 0;
    assert w[..0] == [] && w[..|w|] == w;
    var i := 0;
    while i < |w| && !found
      invariant 0 <= i <= |w| && (found ==> IsDraw(w, target, last))
      invariant !found ==> cumulative == Total(w[..i]) && (cumulative > 0.0 ==> cumulative < target)
      invariant !found ==> forall j: nat :: j < i && w[j] > 0.0 ==> Through(w, j) < target
    {
      TotalSnoc(w, i);
      if w[i] > 0.0 {
        cumulative, last := cumulative + w[i], i;
        found := target <= cumulative;
      }
      i := i + 1;
    }
  }

  // ---- the speculative step ----

  lemma {:induction false} TotalIsSum(w: seq<real>, n: nat)
    requires n <= |w|
    ensures Total(w[..n]) == Sum(n, Mass(w))
  {
    if n > 0 {
      TotalIsSum(w, n - 1);
      TotalSnoc(w, n - 1);
    }
  }

  lemma DrawShare(w: seq<real>, i: nat)
    requires (forall k :: 0 <= k < |w| ==> w[k] >= 0.0) && Total(w) > 0.0
    ensures DrawLaw(w, i) * Total(w) == At(w, i)
  {
    hide DrawLaw, Total, Sum, Mass;
    TotalIsSum(w, |w|);
    assert w[..|w|] == w;
    DrawTimesMass(w, i);
    Commutes(Total(w), DrawLaw(w, i));
  }

  lemma Commutes(a: real, b: real)
    ensures a * b == b * a
  {
  }

  /** What a draw returns lies on an interval of [0, 1] as long as DrawLaw says. */
  lemma DrawIntervals(w: seq<real>, i: nat)
    requires forall k :: 0 <= k < |w| ==> w[k] >= 0.0
    ensures 0.0 <= Low(w, i) && 0.0 <= DrawLaw(w, i) && Low(w, i) + DrawLaw(w, i) <= 1.0
    ensures forall v: real :: 0.0 < v <= 1.0 ==> (Drawn(w, v, i) <==> Low(w, i) < v <= Low(w, i) + DrawLaw(w, i))
  {
    TotalIsSum(w, |w|);
    assert w[..|w|] == w;
    TotalMonotone(w, 0, |w|);
    if Total(w) > 0.0 && i < |w| {
      var lo, hi := Part(Total(w[..i]), Total(w)), Part(Total(w[..i + 1]), Total(w));
      DrawBounds(w, i, lo, hi);
      forall v: real | 0.0 < v <= 1.0
        ensures Drawn(w, v, i) <==> lo < v <= hi
      {
        DrawnBetween(w, v, i, lo, hi);
      }
    } else if Total(w) > 0.0 {
      assert At(w, i) == 0.0;
      NoShare(Total(w));
    }
  }

  /** Where the interval of token `i` begins. */
  function Low(w: seq<real>, i: nat): real {
    if Total(w) != 0.0 && i < |w| then Part(Total(w[..i]), Total(w)) else 0.0
  }

  function Part(a: real, z: real): real
    requires z != 0.0
  {
    a / z
  }

  lemma DrawBounds(w: seq<real>, i: nat, lo: real, hi: real)
    requires i < |w| && (forall k :: 0 <= k < |w| ==> w[k] >= 0.0) && Total(w) > 0.0
    requires lo == Part(Total(w[..i]), Total(w)) && hi == Part(Total(w[..i + 1]), Total(w))
    ensures 0.0 <= lo <= hi <= 1.0 && hi - lo == DrawLaw(w, i)
  {
    hide Part, DrawLaw, Total;
    TotalMonotone(w, 0, i);
    TotalMonotone(w, i, i + 1);
    TotalMonotone(w, i + 1, |w|);
    TotalSnoc(w, i);
    DrawShare(w, i);
    assert w[..|w|] == w && w[..0] == [];
    hide *;
    SharesOf(Total(w[..i]), w[i], DrawLaw(w, i), Total(w), lo, hi);
  }

  lemma SharesOf(a: real, b: real, share: real, z: real, lo: real, hi: real)
    requires 0.0 <= a <= a + b <= z && z > 0.0 && share * z == b && lo == Part(a, z) && hi == Part(a + b, z)
    ensures 0.0 <= lo <= hi <= 1.0 && hi - lo == share
  {
    AddShares(a, b, z);
    WholeShare(z);
    ShareIs(b, share, z);
    Ordered(0.0, a, z);
    Ordered(a + b, z, z);
    Ordered(a, a + b, z);
  }

  lemma ShareIs(b: real, share: real, z: real)
    requires z > 0.0 && share * z == b
    ensures b / z == share
  {
  }

  lemma Ordered(a: real, b: real, z: real)
    requires a <= b && z > 0.0
    ensures a / z <= b / z
  {
  }

  lemma DrawnBetween(w: seq<real>, v: real, i: nat, lo: real, hi: real)
    requires i < |w| && (forall k :: 0 <= k < |w| ==> w[k] >= 0.0) && Total(w) > 0.0 && 0.0 < v <= 1.0
    requires lo == Part(Total(w[..i]), Total(w)) && hi == Part(Total(w[..i + 1]), Total(w))
    ensures Drawn(w, v, i) <==> lo < v <= hi
  {
    TotalSnoc(w, i);
    hide IsDraw, Total, Target, Part;
    TargetWithin(v, Total(w));
    DrawInterval(w, Target(v, Total(w)), i);
    TargetPasses(v, Total(w), Total(w[..i]));
    TargetPasses(v, Total(w), Total(w[..i + 1]));
  }

  lemma TargetWithin(v: real, z: real)
    requires 0.0 < v <= 1.0 && z > 0.0
    ensures 0.0 < Target(v, z) <= z
  {
  }

  lemma TargetPasses(v: real, z: real, a: real)
    requires z > 0.0
    ensures a < Target(v, z) <==> Part(a, z) < v
    ensures Target(v, z) <= a <==> v <= Part(a, z)
  {
    assert a / z * z == a;
    if a / z < v {
      assert (v - a / z) * z > 0.0;
    } else {
      assert (a / z - v) * z >= 0.0;
    }
  }

  /** What speculative_sample returns for the proposal `x` and two uniform draws. */
  ghost predicate Replies(p: seq<real>, q: seq<real>, x: nat, u: real, v: real, token: nat) {
    if u <= Acceptance(p, q, x) then token == x else Drawn(Correction(p, q), v, token)
  }

  /** Over two uniform draws the sampler returns `w` with the chance that the reply
      law gives it: accepting takes an interval of the first draw, and a replacement
      the rest of it and an interval of the second. */
  lemma ReplyIntervals(p: seq<real>, q: seq<real>, x: nat, w: nat)
    requires |p| == |q| && x < |p|
    requires (forall k :: 0 <= k < |p| ==> p[k] >= 0.0) && forall k :: 0 <= k < |q| ==> q[k] >= 0.0
    ensures var lo, chance := Low(Correction(p, q), w), DrawLaw(Correction(p, q), w);
      && 0.0 <= Acceptance(p, q, x) <= 1.0 && 0.0 <= lo && 0.0 <= chance && lo + chance <= 1.0
      && (forall u: real, v: real :: 0.0 < u <= 1.0 && 0.0 < v <= 1.0 ==>
            (Replies(p, q, x, u, v, w) <==>
             if u <= Acceptance(p, q, x) then x == w else lo < v <= lo + chance))
      && ReplyLaw(p, q, w)(x) == (if x == w then Acceptance(p, q, x) else 0.0) + (1.0 - Acceptance(p, q, x)) * chance
  {
    if q[x] > 0.0 {
      Ratio(p[x], q[x]);
    }
    DrawIntervals(Correction(p, q), w);
  }

  /** A draft that the target model rules out is accepted by a draw of exactly 0, and
      by no other. */
  lemma ZeroDrawAccepts(p: seq<real>, q: seq<real>, x: nat, u: real, v: real)
    requires |p| == |q| && x < |p| && p[x] == 0.0 && 0.0 <= u <= 1.0
    ensures u <= Acceptance(p, q, x) <==> u == 0.0
    ensures Replies(p, q, x, 0.0, v, x)
  {
  }

  /** speculative_sample, engine/sampler.cpp:377-404, for two uniform draws. */
  method SpeculativeSample(p: seq<real>, q: seq<real>, proposed: int, u: real, v: real) returns (token: nat, accepted: bool)
    requires 0.0 <= u <= 1.0 && 0.0 <= v <= 1.0
    requires (forall k :: 0 <= k < |p| ==> p[k] >= 0.0) && forall k :: 0 <= k < |q| ==> q[k] >= 0.0
    ensures accepted <==> |p| == |q| && 0 <= proposed < |p| && u <= Acceptance(p, q, proposed)
    ensures if |p| == |q| && 0 <= proposed < |p| then Replies(p, q, proposed, u, v, token) else Drawn(p, v, token)
  {
    hide Drawn;
    accepted := false;
    if |p| != |q| || p == [] || proposed < 0 || proposed >= |p| {
      token := SampleProbabilities(p, v);
      return;
    }
    var acceptance := AcceptanceOf(p[proposed], q[proposed]);
    assert acceptance == Acceptance(p, q, proposed);
    hide Acceptance, Correction;
    if u <= acceptance {
      return proposed, true;
    }
    var weights := Excess(p, q);
    token := SampleProbabilities(weights, v);
  }

  method AcceptanceOf(a: real, b: real) returns (r: real)
    requires a >= 0.0 && b >= 0.0
    ensures r == if b > 0.0 then (if a < b then a / b else 1.0) else 0.0
  {
    if b > 0.0 {
      Ratio(a, b);
      r := if 1.0 < a / b then 1.0 else a / b;
    } else {
      r := 0.0;
    }
  }

  method Excess(p: seq<real>, q: seq<real>) returns (weights: seq<real>)
    requires |p| == |q|
    ensures weights == Correction(p, q) && forall k :: 0 <= k < |weights| ==> weights[k] >= 0.0
  {
    weights := Zeros(|p|);
    for t := 0 to |p|
      invariant |weights| == |p|
      invariant forall k :: 0 <= k < t ==> weights[k] == if p[k] > q[k] then p[k] - q[k] else 0.0
    {
      weights := weights[t := if p[t] - q[t] > 0.0 then p[t] - q[t] else 0.0];
    }
  }

  lemma Ratio(a: real, b: real)
    requires b > 0.0
    ensures a < b <==> a / b < 1.0
    ensures a == b <==> a / b == 1.0
  {
    if a < b {
      assert a / b < b / b;
    } else {
      assert a / b >= b / b;
    }
  }

  /** The kernels of a generation: the filtered, penalised distributions of both
      models, each in the context of all tokens before it. */
  ghost predicate FromLogits(s: Sampling, p: Params, exp: real -> real,
                             target: seq<nat> -> seq<real>, draft: (seq<nat>, seq<nat>) -> seq<real>)
    requires p.repeatPenalty > 0.0
  {
    && s.v > 0
    && (forall h: seq<nat> :: |target(h)| == s.v && IsLaw(p, exp, Penalised(p, target(h), h), s.target(h)))
    && (forall h: seq<nat>, xs: seq<nat> ::
          |draft(h, xs)| == s.v && IsLaw(p, exp, Penalised(p, draft(h, xs), h + xs), s.draft(h, xs)))
  }

  /** Any logits, any accepted parameters: speculative generation has the law of
      plain sampling from the target model. */
  lemma SpeculationIsExact(s: Sampling, p: Params, exp: real -> real,
                           target: seq<nat> -> seq<real>, draft: (seq<nat>, seq<nat>) -> seq<real>,
                           h: seq<nat>, w: seq<nat>)
    requires Acceptable(p) && ExpLike(exp) && FromLogits(s, p, exp, target, draft)
    ensures SpeculativeLaw(s, h, w) == TargetLaw(s, h, w)
  {
    hide Penalised, IsLaw, Distribution, ExpLike;
    forall a: seq<nat>
      ensures Distribution(s.target(a), s.v)
    {
      LawIsDistribution(p, exp, Penalised(p, target(a), a), s.target(a));
    }
    forall a: seq<nat>, xs: seq<nat>
      ensures Distribution(s.draft(a, xs), s.v)
    {
      LawIsDistribution(p, exp, Penalised(p, draft(a, xs), a + xs), s.draft(a, xs));
    }
    SpeculationKeepsLaw(s, h, w);
  }
}
