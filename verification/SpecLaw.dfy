/** Speculative sampling over the reals: acceptance and correction, composed over
    whole steps and whole generations, leave the target model's law unchanged. */
module SpecLaw {

  /** Sum of f(0) .. f(n - 1). */
  function Sum(n: nat, f: nat -> real): real {
    if n == 0 then 0.0 else Sum(n - 1, f) + f(n - 1)
  }

  lemma {:induction false} SumLinear(n: nat, f: nat -> real, a: real, g: nat -> real, b: real, h: nat -> real)
    requires forall i: nat :: i < n ==> f(i) == a * g(i) + b * h(i)
    ensures Sum(n, f) == a * Sum(n, g) + b * Sum(n, h)
  {
    if n > 0 {
      SumLinear(n - 1, f, a, g, b, h);
      Grouped(a, Sum(n - 1, g), g(n - 1), b, Sum(n - 1, h), h(n - 1));
    }
  }

  lemma Grouped(a: real, s: real, x: real, b: real, t: real, y: real)
    ensures a * s + b * t + (a * x + b * y) == a * (s + x) + b * (t + y)
  {
  }

  /** Only the term at `k` counts. */
  lemma {:induction false} SumAt(n: nat, f: nat -> real, k: nat)
    requires forall i: nat :: i < n && i != k ==> f(i) == 0.0
    ensures Sum(n, f) == if k < n then f(k) else 0.0
  {
    if n > 0 {
      SumAt(n - 1, f, k);
    }
  }

  lemma {:induction false} SumNonNegative(n: nat, f: nat -> real, k: nat)
    requires forall i: nat :: i < n ==> f(i) >= 0.0
    ensures Sum(n, f) >= (if k < n then f(k) else 0.0)
  {
    if n > 0 {
      SumNonNegative(n - 1, f, k);
    }
  }

  // ---- one proposed token, engine/sampler.cpp:377-404 ----

  function At(d: seq<real>, x: nat): real {
    if x < |d| then d[x] else 0.0
  }

  /** A weight list as a function. */
  function Mass(d: seq<real>): nat -> real {
    (x: nat) => At(d, x)
  }

  ghost predicate Distribution(d: seq<real>, v: nat) {
    |d| == v && (forall x: nat :: x < v ==> At(d, x) >= 0.0) && Sum(v, Mass(d)) == 1.0
  }

  /** The chance of drawing `w` from weights, zero mass giving token 0
      (sample_probabilities). */
  function DrawLaw(weights: seq<real>, w: nat): real {
    var z := Sum(|weights|, Mass(weights));
    if z > 0.0 then At(weights, w) / z else if w == 0 then 1.0 else 0.0
  }

  function Acceptance(p: seq<real>, q: seq<real>, x: nat): real {
    if At(q, x) > 0.0 then (if At(p, x) < At(q, x) then At(p, x) / At(q, x) else 1.0) else 0.0
  }

  /** The unnormalised distribution a rejected proposal is replaced from. */
  function Correction(p: seq<real>, q: seq<real>): seq<real> {
    seq(|p|, (x: nat) => if At(p, x) > At(q, x) then At(p, x) - At(q, x) else 0.0)
  }

  /** The chance that `x` is proposed and rejected. */
  function Rejected(p: seq<real>, q: seq<real>): nat -> real {
    (x: nat) => At(q, x) * (1.0 - Acceptance(p, q, x))
  }

  /** The chance that speculative_sample returns `w` for the proposal `x`. */
  function ReplyLaw(p: seq<real>, q: seq<real>, w: nat): nat -> real {
    (x: nat) => (if x == w then Acceptance(p, q, x) else 0.0) + (1.0 - Acceptance(p, q, x)) * DrawLaw(Correction(p, q), w)
  }

  /** The same, the proposal being drawn from q. */
  function TokenLaw(p: seq<real>, q: seq<real>, w: nat): real {
    Sum(|q|, Proposed(p, q, w))
  }

  function Proposed(p: seq<real>, q: seq<real>, w: nat): nat -> real {
    (x: nat) => At(q, x) * ReplyLaw(p, q, w)(x)
  }

  function Least(p: seq<real>, q: seq<real>): nat -> real {
    (x: nat) => if At(p, x) < At(q, x) then At(p, x) else At(q, x)
  }

  lemma AcceptedMass(p: seq<real>, q: seq<real>, x: nat)
    requires At(p, x) >= 0.0 && At(q, x) >= 0.0
    ensures At(q, x) * Acceptance(p, q, x) == Least(p, q)(x)
    ensures |p| == |q| ==> At(Correction(p, q), x) == At(p, x) - Least(p, q)(x)
    ensures Rejected(p, q)(x) == At(q, x) - Least(p, q)(x)
  {
  }

  /** A replacement is needed exactly as often as there is mass to replace from;
      so the zero-mass fallback of sample_probabilities never shows. */
  lemma CorrectionMass(p: seq<real>, q: seq<real>, v: nat)
    requires Distribution(p, v) && Distribution(q, v)
    ensures Sum(v, Mass(Correction(p, q))) == Sum(v, Rejected(p, q))
  {
    hide Acceptance, DrawLaw, Rejected, Correction, Least, At;
    forall x: nat | x < v
      ensures Mass(Correction(p, q))(x) == Mass(p)(x) - Least(p, q)(x) && Rejected(p, q)(x) == Mass(q)(x) - Least(p, q)(x)
    {
      AcceptedMass(p, q, x);
    }
    SumLinear(v, Mass(Correction(p, q)), 1.0, Mass(p), -1.0, Least(p, q));
    SumLinear(v, Rejected(p, q), 1.0, Mass(q), -1.0, Least(p, q));
  }

  lemma DrawTimesMass(weights: seq<real>, w: nat)
    requires forall i: nat :: At(weights, i) >= 0.0
    ensures Sum(|weights|, Mass(weights)) * DrawLaw(weights, w) == At(weights, w)
  {
    var z := Sum(|weights|, Mass(weights));
    SumNonNegative(|weights|, Mass(weights), w);
    if z > 0.0 {
      assert z * (At(weights, w) / z) == At(weights, w);
    }
  }

  /** Being proposed and accepted, and being drawn after a rejection. */
  function Hit(p: seq<real>, q: seq<real>, w: nat): nat -> real {
    (x: nat) => if x == w then At(q, x) * Acceptance(p, q, x) else 0.0
  }

  lemma ReplyAt(p: seq<real>, q: seq<real>, w: nat, x: nat)
    ensures Proposed(p, q, w)(x) == Hit(p, q, w)(x) + DrawLaw(Correction(p, q), w) * Rejected(p, q)(x)
  {
    hide Acceptance, DrawLaw, Correction, At;
    assert Proposed(p, q, w)(x) == At(q, x) * ReplyLaw(p, q, w)(x);
    Distribute(At(q, x), if x == w then Acceptance(p, q, x) else 0.0, 1.0 - Acceptance(p, q, x), DrawLaw(Correction(p, q), w));
  }

  lemma Distribute(a: real, b: real, c: real, d: real)
    ensures a * (b + c * d) == a * b + d * (a * c)
  {
    assert a * (c * d) == d * (a * c);
  }

  lemma TokenLawSplits(p: seq<real>, q: seq<real>, v: nat, w: nat)
    requires |q| == v
    ensures TokenLaw(p, q, w) == (if w < v then Hit(p, q, w)(w) else 0.0) + DrawLaw(Correction(p, q), w) * Sum(v, Rejected(p, q))
  {
    hide Acceptance, DrawLaw, Rejected, ReplyLaw, Proposed, Correction;
    forall x: nat | x < v
      ensures Proposed(p, q, w)(x) == 1.0 * Hit(p, q, w)(x) + DrawLaw(Correction(p, q), w) * Rejected(p, q)(x)
    {
      ReplyAt(p, q, w, x);
    }
    SumLinear(v, Proposed(p, q, w), 1.0, Hit(p, q, w), DrawLaw(Correction(p, q), w), Rejected(p, q));
    SumAt(v, Hit(p, q, w), w);
  }

  /** Acceptance with correction returns exactly the target distribution. */
  lemma CorrectionRestoresTarget(p: seq<real>, q: seq<real>, v: nat, w: nat)
    requires Distribution(p, v) && Distribution(q, v)
    ensures TokenLaw(p, q, w) == At(p, w)
  {
    hide Acceptance, DrawLaw, Rejected, TokenLaw, Sum;
    TokenLawSplits(p, q, v, w);
    CorrectionMass(p, q, v);
    DrawTimesMass(Correction(p, q), w);
    AcceptedMass(p, q, w);
  }

  // ---- whole steps and whole generations, engine/engine.cpp:1610-1787 ----

  /** The two models as conditional distributions.  A proposal may depend on the
      committed tokens and the drafts before it; how many drafts a step makes may
      depend on the committed tokens and the remaining budget. */
  datatype Sampling = Sampling(v: nat, stop: int, target: seq<nat> -> seq<real>,
                               draft: (seq<nat>, seq<nat>) -> seq<real>, depth: (seq<nat>, nat) -> nat)

  ghost predicate Normalised(s: Sampling) {
    && (forall h: seq<nat> :: Distribution(s.target(h), s.v))
    && (forall h: seq<nat>, xs: seq<nat> :: Distribution(s.draft(h, xs), s.v))
  }

  function Ends(rest: seq<nat>): real {
    if rest == [] then 1.0 else 0.0
  }

  /** The chance that plain sampling after `h` continues with `w`, the stop token
      ending the text. */
  function TargetLaw(s: Sampling, h: seq<nat>, w: seq<nat>): real
    decreases |w|
  {
    if w == [] then 1.0
    else At(s.target(h), w[0]) * if w[0] == s.stop then Ends(w[1..]) else TargetLaw(s, h + [w[0]], w[1..])
  }

  /** The same for speculative generation: one step drafts, verifies and outputs
      at least one token; further steps produce the rest. */
  function SpeculativeLaw(s: Sampling, h: seq<nat>, w: seq<nat>): real
    decreases |w|, 3, 0
  {
    if w == [] then 1.0 else DraftLaw(s, h, s.depth(h, |w|), [], 0, w)
  }

  /** With `d` drafts still to be drawn after `xs`, averaged over all of them. */
  function DraftLaw(s: Sampling, h: seq<nat>, d: nat, xs: seq<nat>, i: nat, w: seq<nat>): real
    requires i <= |xs|
    decreases |w|, 2, d, 0
  {
    if d == 0 then VerifyLaw(s, h, xs, i, w) else Sum(s.v, NextDraft(s, h, d, xs, i, w))
  }

  function NextDraft(s: Sampling, h: seq<nat>, d: nat, xs: seq<nat>, i: nat, w: seq<nat>): nat -> real
    requires i <= |xs| && d > 0
    decreases |w|, 2, d - 1, 1
  {
    (x: nat) => At(s.draft(h, xs), x) * DraftLaw(s, h, d - 1, xs + [x], i, w)
  }

  /** Verification of the drafts `xs`, the first `i` of them accepted: the chance
      that what is still to come is `w`. */
  function VerifyLaw(s: Sampling, h: seq<nat>, xs: seq<nat>, i: nat, w: seq<nat>): real
    requires i <= |xs|
    decreases |w|, 1, |xs| - i
  {
    if w == [] then 1.0
    else if i == |xs| then At(s.target(h + xs), w[0]) * Onward(s, h + xs, w[0], w[1..])
    else
      var p, q := s.target(h + xs[..i]), s.draft(h, xs[..i]);
      (if w[0] != xs[i] then 0.0
       else Acceptance(p, q, xs[i]) * if w[0] == s.stop then Ends(w[1..]) else VerifyLaw(s, h, xs, i + 1, w[1..]))
      + (1.0 - Acceptance(p, q, xs[i])) * DrawLaw(Correction(p, q), w[0]) * Onward(s, h + xs[..i], w[0], w[1..])
  }

  /** After a step's last output. */
  function Onward(s: Sampling, h: seq<nat>, token: nat, rest: seq<nat>): real
    decreases |rest|, 4
  {
    if token == s.stop then Ends(rest) else SpeculativeLaw(s, h + [token], rest)
  }

  /** Averaging a certain event changes nothing. */
  lemma {:induction false} DraftsSumToOne(s: Sampling, h: seq<nat>, d: nat, xs: seq<nat>, i: nat)
    requires Normalised(s) && i <= |xs|
    ensures DraftLaw(s, h, d, xs, i, []) == 1.0
    decreases d
  {
    if d > 0 {
      var q := s.draft(h, xs);
      forall x: nat | x < s.v
        ensures NextDraft(s, h, d, xs, i, [])(x) == 1.0 * Mass(q)(x) + 0.0 * Mass(q)(x)
      {
        DraftsSumToOne(s, h, d - 1, xs + [x], i);
      }
      SumLinear(s.v, NextDraft(s, h, d, xs, i, []), 1.0, Mass(q), 0.0, Mass(q));
    }
  }

  /** The two ways draft `i` leads on to the text `w`: its acceptance, and what
      its rejection adds. */
  predicate Verdict(s: Sampling, h: seq<nat>, xs: seq<nat>, i: nat, w: seq<nat>, a: real, b: real)
    requires i < |xs| && w != []
  {
    var p, q := s.target(h + xs[..i]), s.draft(h, xs[..i]);
    && a == (if w[0] == xs[i] then Acceptance(p, q, xs[i]) else 0.0)
    && b == (1.0 - Acceptance(p, q, xs[i])) * DrawLaw(Correction(p, q), w[0]) * Onward(s, h + xs[..i], w[0], w[1..])
  }

  lemma VerdictOfAll(s: Sampling, h: seq<nat>, xs: seq<nat>, i: nat, w: seq<nat>, a: real, b: real)
    requires i < |xs| && w != [] && Verdict(s, h, xs, i, w, a, b)
    ensures DraftLaw(s, h, 0, xs, i, w) ==
      a * (if w[0] == s.stop then Ends(w[1..]) else DraftLaw(s, h, 0, xs, i + 1, w[1..])) + b
  {
    hide Acceptance, DrawLaw, Correction, Onward;
  }

  /** The verdict on draft `i` does not depend on the drafts after it. */
  lemma {:induction false} VerdictFactors(s: Sampling, h: seq<nat>, d: nat, xs: seq<nat>, i: nat, w: seq<nat>, a: real, b: real)
    requires Normalised(s) && i < |xs| && w != [] && Verdict(s, h, xs, i, w, a, b)
    ensures DraftLaw(s, h, d, xs, i, w) ==
      a * (if w[0] == s.stop then Ends(w[1..]) else DraftLaw(s, h, d, xs, i + 1, w[1..])) + b
    decreases d
  {
    hide Acceptance, DrawLaw, Correction, Onward, VerifyLaw, At;
    if d == 0 {
      VerdictOfAll(s, h, xs, i, w, a, b);
    } else {
      forall x: nat | x < s.v
        ensures DraftLaw(s, h, d - 1, xs + [x], i, w) ==
          a * (if w[0] == s.stop then Ends(w[1..]) else DraftLaw(s, h, d - 1, xs + [x], i + 1, w[1..])) + b
      {
        assert (xs + [x])[..i] == xs[..i];
        VerdictFactors(s, h, d - 1, xs + [x], i, w, a, b);
      }
      VerdictSums(s, h, d, xs, i, w, a, b);
    }
  }

  /** An average of a*x + b is a times the average of x, plus b. */
  lemma {:induction false} Average(n: nat, q: nat -> real, f: nat -> real, g: nat -> real, a: real, b: real)
    requires forall x: nat :: x < n ==> f(x) == a * g(x) + b * q(x)
    ensures Sum(n, f) == a * Sum(n, g) + b * Sum(n, q)
  {
    SumLinear(n, f, a, g, b, q);
  }

  lemma NextVerdict(s: Sampling, h: seq<nat>, d: nat, xs: seq<nat>, i: nat, w: seq<nat>, a: real, b: real, x: nat)
    requires i < |xs| && w != [] && d > 0
    requires w[0] != s.stop && DraftLaw(s, h, d - 1, xs + [x], i, w) == a * DraftLaw(s, h, d - 1, xs + [x], i + 1, w[1..]) + b
    ensures NextDraft(s, h, d, xs, i, w)(x) == a * NextDraft(s, h, d, xs, i + 1, w[1..])(x) + b * Mass(s.draft(h, xs))(x)
  {
    hide At, DraftLaw;
    Affine(At(s.draft(h, xs), x), a, DraftLaw(s, h, d - 1, xs + [x], i + 1, w[1..]), b);
  }

  lemma NextStop(s: Sampling, h: seq<nat>, d: nat, xs: seq<nat>, i: nat, w: seq<nat>, c: real, x: nat)
    requires i < |xs| && w != [] && d > 0 && DraftLaw(s, h, d - 1, xs + [x], i, w) == c
    ensures NextDraft(s, h, d, xs, i, w)(x) == c * Mass(s.draft(h, xs))(x)
  {
    hide At, DraftLaw;
  }

  lemma DraftMass(s: Sampling, h: seq<nat>, xs: seq<nat>)
    requires Normalised(s)
    ensures Sum(s.v, Mass(s.draft(h, xs))) == 1.0
  {
    assert Distribution(s.draft(h, xs), s.v);
  }

  /** Averaging over the next draft. */
  lemma VerdictSums(s: Sampling, h: seq<nat>, d: nat, xs: seq<nat>, i: nat, w: seq<nat>, a: real, b: real)
    requires Normalised(s) && i < |xs| && w != [] && d > 0
    requires forall x: nat :: x < s.v ==>
               DraftLaw(s, h, d - 1, xs + [x], i, w)
               == a * (if w[0] == s.stop then Ends(w[1..]) else DraftLaw(s, h, d - 1, xs + [x], i + 1, w[1..])) + b
    ensures DraftLaw(s, h, d, xs, i, w) ==
      a * (if w[0] == s.stop then Ends(w[1..]) else DraftLaw(s, h, d, xs, i + 1, w[1..])) + b
  {
    hide *;
    DraftLawUnfolds(s, h, d, xs, i, w);
    DraftMass(s, h, xs);
    var q, f := s.draft(h, xs), NextDraft(s, h, d, xs, i, w);
    if w[0] == s.stop {
      var c := a * Ends(w[1..]) + b;
      forall x: nat | x < s.v
        ensures f(x) == c * Mass(q)(x) + 0.0 * Mass(q)(x)
      {
        NextStop(s, h, d, xs, i, w, c, x);
      }
      Average(s.v, Mass(q), f, Mass(q), c, 0.0);
    } else {
      forall x: nat | x < s.v
        ensures f(x) == a * NextDraft(s, h, d, xs, i + 1, w[1..])(x) + b * Mass(q)(x)
      {
        NextVerdict(s, h, d, xs, i, w, a, b, x);
      }
      Average(s.v, Mass(q), f, NextDraft(s, h, d, xs, i + 1, w[1..]), a, b);
    }
  }

  lemma DraftLawUnfolds(s: Sampling, h: seq<nat>, d: nat, xs: seq<nat>, i: nat, w: seq<nat>)
    requires i < |xs| && d > 0 && w != []
    ensures DraftLaw(s, h, d, xs, i, w) == Sum(s.v, NextDraft(s, h, d, xs, i, w))
    ensures DraftLaw(s, h, d, xs, i + 1, w[1..]) == Sum(s.v, NextDraft(s, h, d, xs, i + 1, w[1..]))
  {
  }

  lemma Affine(c: real, a: real, g: real, b: real)
    ensures c * (a * g + b) == a * (c * g) + b * c
  {
    assert c * (a * g) == a * (c * g);
  }

  /** One step with any number of drafts, then the rest by later steps. */
  lemma {:induction false} StepKeepsLaw(s: Sampling, h: seq<nat>, d: nat, xs: seq<nat>, w: seq<nat>)
    requires Normalised(s)
    ensures DraftLaw(s, h, d, xs, |xs|, w) == TargetLaw(s, h + xs, w)
    decreases |w|, 0, d
  {
    if w == [] {
      DraftsSumToOne(s, h, d, xs, |xs|);
      return;
    }
    hide Acceptance, DrawLaw, Correction, TokenLaw, At, Distribution, Proposed, NextDraft, Mass, Sum;
    var t, rest := w[0], w[1..];
    var tail := if t == s.stop then Ends(rest) else TargetLaw(s, h + xs + [t], rest);
    SpeculationKeepsLaw(s, h + xs + [t], rest);
    assert Onward(s, h + xs, t, rest) == tail;
    if d > 0 {
      forall x: nat | x < s.v
        ensures NextDraft(s, h, d, xs, |xs|, w)(x) == tail * Proposed(s.target(h + xs), s.draft(h, xs), t)(x)
      {
        OneDraft(s, h, d, xs, w, x, tail);
      }
      SumOfReplies(s, NextDraft(s, h, d, xs, |xs|, w), s.target(h + xs), s.draft(h, xs), t, tail);
    }
  }

  lemma SumOfReplies(s: Sampling, f: nat -> real, p: seq<real>, q: seq<real>, t: nat, tail: real)
    requires Distribution(p, s.v) && Distribution(q, s.v)
    requires forall x: nat :: x < s.v ==> f(x) == tail * Proposed(p, q, t)(x)
    ensures Sum(s.v, f) == At(p, t) * tail
  {
    CorrectionRestoresTarget(p, q, s.v, t);
    TokenLawIsSum(p, q, s.v, t);
    hide *;
    SumLinear(s.v, f, tail, Proposed(p, q, t), 0.0, Mass(q));
  }

  lemma TokenLawIsSum(p: seq<real>, q: seq<real>, v: nat, t: nat)
    requires |q| == v
    ensures TokenLaw(p, q, t) == Sum(v, Proposed(p, q, t))
  {
  }

  /** The contribution of one value of the next draft. */
  lemma {:induction false} OneDraft(s: Sampling, h: seq<nat>, d: nat, xs: seq<nat>, w: seq<nat>, x: nat, tail: real)
    requires Normalised(s) && d > 0 && w != []
    requires tail == if w[0] == s.stop then Ends(w[1..]) else TargetLaw(s, h + xs + [w[0]], w[1..])
    requires Onward(s, h + xs, w[0], w[1..]) == tail
    ensures NextDraft(s, h, d, xs, |xs|, w)(x) == tail * Proposed(s.target(h + xs), s.draft(h, xs), w[0])(x)
    decreases |w|, 0, d - 1, 1
  {
    hide Acceptance, DrawLaw, Correction, TokenLaw, Onward, TargetLaw, VerifyLaw, DraftLaw, At, Ends;
    var t, ys := w[0], xs + [x];
    var p, q := s.target(h + xs), s.draft(h, xs);
    assert ys[..|xs|] == xs;
    var a := if t == x then Acceptance(p, q, x) else 0.0;
    var c := (1.0 - Acceptance(p, q, x)) * DrawLaw(Correction(p, q), t);
    VerdictFactors(s, h, d - 1, ys, |xs|, w, a, c * Onward(s, h + xs, t, w[1..]));
    if t == x && t != s.stop {
      StepKeepsLaw(s, h, d - 1, ys, w[1..]);
      assert h + ys == h + xs + [t];
    }
    var next := if t == s.stop then Ends(w[1..]) else DraftLaw(s, h, d - 1, ys, |xs| + 1, w[1..]);
    SameProduct(DraftLaw(s, h, d - 1, ys, |xs|, w), a, c, next, tail);
    OneReply(s, h, d, xs, w, x, a, c, tail);
  }

  lemma SameProduct(law: real, a: real, c: real, next: real, tail: real)
    requires law == a * next + c * tail && (a == 0.0 || next == tail)
    ensures law == a * tail + c * tail
  {
  }

  lemma OneReply(s: Sampling, h: seq<nat>, d: nat, xs: seq<nat>, w: seq<nat>, x: nat, a: real, c: real, tail: real)
    requires d > 0 && w != [] && DraftLaw(s, h, d - 1, xs + [x], |xs|, w) == a * tail + c * tail
    requires var p, q := s.target(h + xs), s.draft(h, xs);
      && a == (if w[0] == x then Acceptance(p, q, x) else 0.0)
      && c == (1.0 - Acceptance(p, q, x)) * DrawLaw(Correction(p, q), w[0])
    ensures NextDraft(s, h, d, xs, |xs|, w)(x) == tail * Proposed(s.target(h + xs), s.draft(h, xs), w[0])(x)
  {
    hide Acceptance, DrawLaw, Correction, DraftLaw, At;
    assert ReplyLaw(s.target(h + xs), s.draft(h, xs), w[0])(x) == a + c;
    assert NextDraft(s, h, d, xs, |xs|, w)(x) == At(s.draft(h, xs), x) * DraftLaw(s, h, d - 1, xs + [x], |xs|, w);
    Regroup(At(s.draft(h, xs), x), a, c, tail);
  }

  lemma Regroup(q: real, a: real, c: real, tail: real)
    ensures q * (a * tail + c * tail) == tail * (q * (a + c))
  {
    assert a * tail + c * tail == tail * (a + c);
    assert q * (tail * (a + c)) == tail * (q * (a + c));
  }

  /** Speculative generation, whatever the draft model and the depths, has the
      target model's joint law over texts. */
  lemma {:induction false} SpeculationKeepsLaw(s: Sampling, h: seq<nat>, w: seq<nat>)
    requires Normalised(s)
    ensures SpeculativeLaw(s, h, w) == TargetLaw(s, h, w)
    decreases |w|, 1
  {
    if w != [] {
      StepKeepsLaw(s, h, s.depth(h, |w|), [], w);
      assert h + [] == h;
    }
  }
}
