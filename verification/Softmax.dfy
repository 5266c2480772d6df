/** What the sampler's distribution is, read off the ranking of the logits: which
    tokens survive top-k, min-p and top-p, and in which proportions. */
module Softmax {
  import opened Candidates
  import opened SpecLaw
  import opened Sampler

  /** Higher logits come first, and lower ids where logits are equal. */
  lemma RankedInOrder(logits: seq<real>, i: nat, j: nat)
    requires i < j < |logits|
    ensures var a, b := Ranked(logits)[i], Ranked(logits)[j];
      && a.id < |logits| && a.logit == logits[a.id]
      && (a.logit > b.logit || (a.logit == b.logit && a.id < b.id))
  {
    RankedSorted(logits);
    RankedIds(logits);
    assert Ranked(logits)[i] in multiset(Ranked(logits));
    RankedExactly(logits, Ranked(logits)[i]);
  }

  /** The tempered weight of the token of rank `i` against the first. */
  function Heat(exp: real -> real, temperature: real, logits: seq<real>, i: nat): real
    requires i < |logits| && temperature > 0.0
  {
    exp((Ranked(logits)[i].logit - Ranked(logits)[0].logit) / temperature)
  }

  /** The weight of the first `n`. */
  function HeatOf(exp: real -> real, temperature: real, logits: seq<real>, n: nat): real
    requires n <= |logits| && temperature > 0.0
  {
    if n == 0 then 0.0 else HeatOf(exp, temperature, logits, n - 1) + Heat(exp, temperature, logits, n - 1)
  }

  /** How many tokens top-k leaves. */
  function Limit(p: Params, logits: seq<real>): (k: nat)
    ensures k <= |logits| && (logits != [] ==> k > 0)
  {
    if 0 < p.topK < |logits| then p.topK else |logits|
  }

  /** `n` of them are hot enough for min-p. */
  ghost predicate HotEnough(p: Params, exp: real -> real, logits: seq<real>, n: nat)
    requires p.temperature > 0.0
  {
    && 1 <= n <= Limit(p, logits)
    && forall i: nat :: i < Limit(p, logits) ==>
         (i < n <==> p.minP <= 0.0 || i == 0 || Heat(exp, p.temperature, logits, i) >= p.minP * Heat(exp, p.temperature, logits, 0))
  }

  /** The token of rank `i` is among them, and those before it fall short of the share
      that top-p asks for. */
  ghost predicate Survives(p: Params, exp: real -> real, logits: seq<real>, n: nat, i: nat)
    requires p.temperature > 0.0 && n <= |logits|
  {
    i < n && (0.0 < p.topP < 1.0 ==> HeatOf(exp, p.temperature, logits, i) < Cutoff(p.topP, HeatOf(exp, p.temperature, logits, n)))
  }

  function Cutoff(topP: real, mass: real): real {
    topP * mass
  }

  /** The weights that the filters work on. */
  lemma {:induction false} WeightsAre(p: Params, exp: real -> real, logits: seq<real>, n: nat)
    requires p.temperature > 0.0 && n <= Limit(p, logits)
    ensures |Weights(exp, p.temperature, Kept(p, logits))| == Limit(p, logits)
    ensures forall i: nat :: i < n ==> Weights(exp, p.temperature, Kept(p, logits))[i] == Heat(exp, p.temperature, logits, i)
    ensures Total(Weights(exp, p.temperature, Kept(p, logits))[..n]) == HeatOf(exp, p.temperature, logits, n)
  {
    var w := Weights(exp, p.temperature, Kept(p, logits));
    if n == 0 {
      assert w[..0] == [];
    } else {
      WeightsAre(p, exp, logits, n - 1);
      TotalSnoc(w, n - 1);
    }
  }

  /** The filters keep a prefix of the ranking. */
  lemma PrefixSurvives(p: Params, exp: real -> real, logits: seq<real>, n: nat, active: nat)
    requires ExpLike(exp) && !Plain(p) && logits != [] && Filters(p, exp, logits, n, active)
    ensures HotEnough(p, exp, logits, n)
    ensures forall i: nat :: i < |logits| ==> (i < active <==> Survives(p, exp, logits, n, i))
  {
    var w := Weights(exp, p.temperature, Kept(p, logits));
    KeptFacts(p, exp, logits);
    hide Weights, Kept, ExpLike, Heat, HeatOf, Total, Cutoff, TopPKeeps, MinPKeeps, HotEnough, Ranked;
    WeightsAre(p, exp, logits, Limit(p, logits));
    MinPIs(p, exp, logits, w, n);
    NotMore(p, exp, logits, n);
    WeightsAre(p, exp, logits, n);
    ActiveAtMost(w, n, p.topP, active);
    forall i: nat | i < |logits|
      ensures i < active <==> Survives(p, exp, logits, n, i)
    {
      if i < n {
        WeightsAre(p, exp, logits, i);
        TopPIs(w, n, p.topP, active, i);
      }
    }
  }

  lemma NotMore(p: Params, exp: real -> real, logits: seq<real>, n: nat)
    requires p.temperature > 0.0 && HotEnough(p, exp, logits, n)
    ensures n <= Limit(p, logits)
  {
  }

  lemma ActiveAtMost(w: seq<real>, n: nat, topP: real, active: nat)
    requires TopPKeeps(w, n, topP, active)
    ensures active <= n
  {
  }

  lemma MinPIs(p: Params, exp: real -> real, logits: seq<real>, w: seq<real>, n: nat)
    requires p.temperature > 0.0 && |w| == Limit(p, logits) && MinPKeeps(w, p.minP, n)
    requires forall i: nat :: i < |w| ==> w[i] == Heat(exp, p.temperature, logits, i)
    ensures HotEnough(p, exp, logits, n)
  {
    hide Heat;
  }

  lemma TopPIs(w: seq<real>, n: nat, topP: real, active: nat, i: nat)
    requires TopPKeeps(w, n, topP, active) && i < n && forall k :: 0 <= k < |w| ==> w[k] > 0.0
    ensures i < active <==> (0.0 < topP < 1.0 ==> Total(w[..i]) < Cutoff(topP, Total(w[..n])))
  {
    hide Total;
    if 0.0 < topP < 1.0 && i >= active {
      TotalPositive(w, active, i);
    }
  }

  /** A token has a chance exactly if it survives all three filters ... */
  lemma SurvivorsExactly(p: Params, exp: real -> real, logits: seq<real>, out: seq<real>) returns (n: nat)
    requires ExpLike(exp) && !Plain(p) && logits != [] && IsLaw(p, exp, logits, out)
    ensures HotEnough(p, exp, logits, n)
    ensures forall i: nat :: i < |logits| ==> (At(out, Ranked(logits)[i].id) > 0.0 <==> Survives(p, exp, logits, n, i))
  {
    hide ExpLike, IsSpread, Filters, Survives, HotEnough, Ranked;
    var m, active: nat :| Filters(p, exp, logits, m, active) && IsSpread(p, exp, logits, active, out);
    n := m;
    PrefixSurvives(p, exp, logits, n, active);
    forall i: nat | i < |logits|
      ensures At(out, Ranked(logits)[i].id) > 0.0 <==> i < active
    {
      if i < active {
        EntryOf(p, exp, logits, out, n, active, i);
      } else {
        NoEntry(p, exp, logits, out, active, i);
      }
    }
  }

  /** The entry of a survivor. */
  lemma EntryOf(p: Params, exp: real -> real, logits: seq<real>, out: seq<real>, n: nat, active: nat, i: nat)
    requires ExpLike(exp) && !Plain(p) && logits != [] && i < |logits|
    requires Filters(p, exp, logits, n, active) && IsSpread(p, exp, logits, active, out) && i < active
    ensures active <= |Kept(p, logits)|
    ensures var mass := Total(Weights(exp, p.temperature, Kept(p, logits))[..active]);
      mass > 0.0 && At(out, Ranked(logits)[i].id) == Part(Heat(exp, p.temperature, logits, i), mass) > 0.0
  {
    FilteredSize(p, exp, logits, n, active);
    assert Kept(p, logits)[i] == Ranked(logits)[i];
    hide Weights, Kept, Ranked, ExpLike, Heat, Total, Part, IsSpread, Filters, Limit;
    WeightsAre(p, exp, logits, active);
    KeptShare(p, exp, logits, out, n, active, i);
    HeatIsPositive(p, exp, logits, i);
    PartIsPositive(Heat(exp, p.temperature, logits, i), Total(Weights(exp, p.temperature, Kept(p, logits))[..active]));
  }

  lemma FilteredSize(p: Params, exp: real -> real, logits: seq<real>, n: nat, active: nat)
    requires !Plain(p) && Filters(p, exp, logits, n, active)
    ensures active <= |Kept(p, logits)| == Limit(p, logits)
  {
    hide Weights;
  }

  lemma HeatIsPositive(p: Params, exp: real -> real, logits: seq<real>, i: nat)
    requires ExpLike(exp) && !Plain(p) && i < |logits|
    ensures Heat(exp, p.temperature, logits, i) > 0.0
  {
    hide Ranked;
  }

  lemma NoEntry(p: Params, exp: real -> real, logits: seq<real>, out: seq<real>, active: nat, i: nat)
    requires ExpLike(exp) && !Plain(p) && active <= i < |logits| && IsSpread(p, exp, logits, active, out)
    ensures At(out, Ranked(logits)[i].id) == 0.0
  {
    RankedIds(logits);
    forall k: nat | k < active && k < |Kept(p, logits)|
      ensures Kept(p, logits)[k].id != Ranked(logits)[i].id
    {
      assert Kept(p, logits)[k] == Ranked(logits)[k];
    }
    hide *;
    NotKept(p, exp, logits, out, active, Ranked(logits)[i].id);
  }

  lemma PartIsPositive(a: real, z: real)
    requires a > 0.0 && z > 0.0
    ensures Part(a, z) > 0.0
  {
  }

  /** ... and the survivors' chances are as their weights: with the distribution's sum
      of 1 this fixes every entry. */
  lemma SurvivorsInProportion(p: Params, exp: real -> real, logits: seq<real>, out: seq<real>, i: nat, j: nat)
    requires ExpLike(exp) && !Plain(p) && IsLaw(p, exp, logits, out) && i < |logits| && j < |logits|
    requires At(out, Ranked(logits)[i].id) > 0.0 && At(out, Ranked(logits)[j].id) > 0.0
    ensures At(out, Ranked(logits)[i].id) * Heat(exp, p.temperature, logits, j) ==
            At(out, Ranked(logits)[j].id) * Heat(exp, p.temperature, logits, i)
  {
    hide ExpLike, IsSpread, Filters, Ranked, Heat, Part, Total, Weights, Kept;
    var n, active: nat :| Filters(p, exp, logits, n, active) && IsSpread(p, exp, logits, active, out);
    if i >= active {
      NoEntry(p, exp, logits, out, active, i);
      assert false;
    }
    if j >= active {
      NoEntry(p, exp, logits, out, active, j);
      assert false;
    }
    EntryOf(p, exp, logits, out, n, active, i);
    EntryOf(p, exp, logits, out, n, active, j);
    FilteredSize(p, exp, logits, n, active);
    hide *;
    CrossParts(Heat(exp, p.temperature, logits, i), Heat(exp, p.temperature, logits, j),
               Total(Weights(exp, p.temperature, Kept(p, logits))[..active]));
  }

  lemma CrossParts(a: real, b: real, z: real)
    requires z > 0.0
    ensures Part(a, z) * b == Part(b, z) * a
  {
    assert a / z * b == a * b / z;
    assert b / z * a == a * b / z;
  }
}
