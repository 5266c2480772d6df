/** One speculative step as the sampler makes it, engine/engine.cpp:1747-1787: the
    draws that lead to given outputs fill exactly the volume that the law of
    speculative sampling gives those outputs. */
module SpecStep {
  import opened Candidates
  import opened SpecLaw
  import opened Sampler

  /** Independent uniform draws: two for each draft and for the place after them. */
  ghost predicate Draws(us: seq<real>, vs: seq<real>, n: nat) {
    |us| == |vs| == n + 1 && forall k :: 0 <= k <= n ==> 0.0 < us[k] <= 1.0 && 0.0 < vs[k] <= 1.0
  }

  /** With these draws, verifying the drafts `xs` from number `i` on outputs `out`. */
  ghost predicate Steps(s: Sampling, h: seq<nat>, xs: seq<nat>, i: nat, us: seq<real>, vs: seq<real>, out: seq<nat>)
    requires i <= |xs| && |us| == |vs| == |xs| + 1
    decreases |xs| - i
  {
    && out != []
    && if i == |xs| then |out| == 1 && Drawn(s.target(h + xs), vs[i], out[0])
       else
         var p, q := s.target(h + xs[..i]), s.draft(h, xs[..i]);
         && Replies(p, q, xs[i], us[i], vs[i], out[0])
         && if us[i] <= Acceptance(p, q, xs[i]) && out[0] != s.stop then Steps(s, h, xs, i + 1, us, vs, out[1..])
            else |out| == 1
  }

  // ---- boxes of draws ----

  /** Intervals for the two draws of one place. */
  datatype Side = Side(ulo: real, uhi: real, vlo: real, vhi: real)

  type Box = seq<Side>

  const ANY := Side(0.0, 1.0, 0.0, 1.0)

  function Area(side: Side): real {
    (side.uhi - side.ulo) * (side.vhi - side.vlo)
  }

  function Volume(box: Box): real {
    if box == [] then 1.0 else Area(box[0]) * Volume(box[1..])
  }

  function Volumes(boxes: seq<Box>): real {
    if boxes == [] then 0.0 else Volume(boxes[0]) + Volumes(boxes[1..])
  }

  predicate Within(side: Side, u: real, v: real) {
    side.ulo < u <= side.uhi && side.vlo < v <= side.vhi
  }

  /** The draws from place `i` on lie in the box. */
  predicate Inside(box: Box, us: seq<real>, vs: seq<real>, i: nat)
    requires i + |box| == |us| == |vs|
  {
    box == [] || (Within(box[0], us[i], vs[i]) && Inside(box[1..], us, vs, i + 1))
  }

  ghost predicate InSome(boxes: seq<Box>, us: seq<real>, vs: seq<real>, i: nat) {
    exists b :: 0 <= b < |boxes| && i + |boxes[b]| == |us| == |vs| && Inside(boxes[b], us, vs, i)
  }

  function Anything(n: nat): (r: Box)
    ensures |r| == n
  {
    if n == 0 then [] else [ANY] + Anything(n - 1)
  }

  function Behind(side: Side, boxes: seq<Box>): (r: seq<Box>)
    ensures |r| == |boxes|
  {
    if boxes == [] then [] else [[side] + boxes[0]] + Behind(side, boxes[1..])
  }

  /** Accepting draft `i`, and drawing a replacement for it. */
  function Accepting(s: Sampling, h: seq<nat>, xs: seq<nat>, i: nat): Side
    requires i < |xs|
  {
    Side(0.0, Acceptance(s.target(h + xs[..i]), s.draft(h, xs[..i]), xs[i]), 0.0, 1.0)
  }

  function Drawing(w: seq<real>, token: nat, from: real): Side {
    Side(from, 1.0, Low(w, token), Low(w, token) + DrawLaw(w, token))
  }

  /** The draws with which the step outputs `out` from draft `i` on. */
  function Boxes(s: Sampling, h: seq<nat>, xs: seq<nat>, i: nat, out: seq<nat>): seq<Box>
    requires i <= |xs|
    decreases |xs| - i
  {
    if out == [] then []
    else if i == |xs| then
      if |out| == 1 then [[Drawing(s.target(h + xs), out[0], 0.0)]] else []
    else AcceptedBoxes(s, h, xs, i, out) + RejectedBoxes(s, h, xs, i, out)
  }

  function AcceptedBoxes(s: Sampling, h: seq<nat>, xs: seq<nat>, i: nat, out: seq<nat>): seq<Box>
    requires i < |xs| && out != []
    decreases |xs| - i, 0
  {
    if out[0] != xs[i] then []
    else if xs[i] != s.stop then Behind(Accepting(s, h, xs, i), Boxes(s, h, xs, i + 1, out[1..]))
    else if |out| == 1 then [[Accepting(s, h, xs, i)] + Anything(|xs| - i)] else []
  }

  function RejectedBoxes(s: Sampling, h: seq<nat>, xs: seq<nat>, i: nat, out: seq<nat>): seq<Box>
    requires i < |xs| && out != []
  {
    var p, q := s.target(h + xs[..i]), s.draft(h, xs[..i]);
    if |out| == 1 then [[Drawing(Correction(p, q), out[0], Acceptance(p, q, xs[i]))] + Anything(|xs| - i)] else []
  }

  ghost predicate Sized(boxes: seq<Box>, n: nat) {
    forall b :: 0 <= b < |boxes| ==> |boxes[b]| == n
  }

  lemma {:induction false} BehindAt(side: Side, boxes: seq<Box>, b: nat)
    requires b < |boxes|
    ensures Behind(side, boxes)[b] == [side] + boxes[b]
  {
    if b > 0 {
      BehindAt(side, boxes[1..], b - 1);
    }
  }

  lemma {:induction false} BoxesSized(s: Sampling, h: seq<nat>, xs: seq<nat>, i: nat, out: seq<nat>)
    requires i <= |xs|
    ensures Sized(Boxes(s, h, xs, i, out), |xs| - i + 1)
    decreases |xs| - i
  {
    hide Accepting, Drawing;
    if out != [] && i < |xs| && out[0] == xs[i] {
      BoxesSized(s, h, xs, i + 1, out[1..]);
      var rest, side := Boxes(s, h, xs, i + 1, out[1..]), Accepting(s, h, xs, i);
      forall b | 0 <= b < |rest|
        ensures |Behind(side, rest)[b]| == |xs| - i + 1
      {
        BehindAt(side, rest, b);
      }
    }
  }

  // ---- the volume is the chance ----

  lemma {:induction false} AnythingIs(n: nat)
    ensures Volume(Anything(n)) == 1.0
  {
    if n > 0 {
      AnythingIs(n - 1);
    }
  }

  lemma {:induction false} AnythingHolds(n: nat, us: seq<real>, vs: seq<real>, i: nat, m: nat)
    requires Draws(us, vs, m) && i + n == m + 1
    ensures Inside(Anything(n), us, vs, i)
    decreases n
  {
    if n > 0 {
      AnythingHolds(n - 1, us, vs, i + 1, m);
      assert Anything(n)[1..] == Anything(n - 1);
    }
  }

  lemma VolumeCons(side: Side, box: Box)
    ensures Volume([side] + box) == Area(side) * Volume(box)
  {
    assert ([side] + box)[1..] == box;
  }

  lemma {:induction false} BehindVolumes(side: Side, boxes: seq<Box>)
    ensures Volumes(Behind(side, boxes)) == Area(side) * Volumes(boxes)
  {
    if boxes != [] {
      hide Area, Volume;
      VolumeCons(side, boxes[0]);
      BehindVolumes(side, boxes[1..]);
      assert Behind(side, boxes)[1..] == Behind(side, boxes[1..]);
      Distribute1(Area(side), Volume(boxes[0]), Volumes(boxes[1..]));
    }
  }

  lemma Distribute1(a: real, b: real, c: real)
    ensures a * b + a * c == a * (b + c)
  {
  }

  lemma {:induction false} VolumesAppend(a: seq<Box>, b: seq<Box>)
    ensures Volumes(a + b) == Volumes(a) + Volumes(b)
  {
    if a == [] {
      assert a + b == b;
    } else {
      assert (a + b)[1..] == a[1..] + b;
      VolumesAppend(a[1..], b);
    }
  }

  lemma OneVolume(box: Box)
    ensures Volumes([box]) == Volume(box)
  {
    assert [box][1..] == [];
    assert Volumes([]) == 0.0;
  }

  /** The chance that the step outputs `out` from draft `i` on. */
  function Chance(s: Sampling, h: seq<nat>, xs: seq<nat>, i: nat, out: seq<nat>): real
    requires i <= |xs|
    decreases |xs| - i
  {
    if out == [] then 0.0
    else if i == |xs| then (if |out| == 1 then DrawLaw(s.target(h + xs), out[0]) else 0.0)
    else
      var p, q := s.target(h + xs[..i]), s.draft(h, xs[..i]);
      Acceptance(p, q, xs[i]) * AfterAccepting(s, h, xs, i, out)
      + if |out| == 1 then (1.0 - Acceptance(p, q, xs[i])) * DrawLaw(Correction(p, q), out[0]) else 0.0
  }

  /** The same, given that draft `i` is accepted. */
  function AfterAccepting(s: Sampling, h: seq<nat>, xs: seq<nat>, i: nat, out: seq<nat>): real
    requires i < |xs| && out != []
    decreases |xs| - i, 0
  {
    if out[0] != xs[i] then 0.0
    else if xs[i] != s.stop then Chance(s, h, xs, i + 1, out[1..])
    else if |out| == 1 then 1.0 else 0.0
  }

  lemma {:induction false} VolumeIsChance(s: Sampling, h: seq<nat>, xs: seq<nat>, i: nat, out: seq<nat>)
    requires i <= |xs|
    ensures Volumes(Boxes(s, h, xs, i, out)) == Chance(s, h, xs, i, out)
    decreases |xs| - i
  {
    hide Acceptance, DrawLaw, Correction, Low, Volumes, AcceptedBoxes, RejectedBoxes, AfterAccepting;
    if out == [] {
      NoVolume();
    } else if i == |xs| {
      NoVolume();
      DrawnVolume(s.target(h + xs), out[0]);
    } else {
      VolumesAppend(AcceptedBoxes(s, h, xs, i, out), RejectedBoxes(s, h, xs, i, out));
      RejectedVolume(s, h, xs, i, out);
      if out[0] == xs[i] && xs[i] != s.stop {
        VolumeIsChance(s, h, xs, i + 1, out[1..]);
      }
      AcceptedVolume(s, h, xs, i, out);
    }
  }

  lemma AcceptingArea(s: Sampling, h: seq<nat>, xs: seq<nat>, i: nat)
    requires i < |xs|
    ensures Area(Accepting(s, h, xs, i)) == Acceptance(s.target(h + xs[..i]), s.draft(h, xs[..i]), xs[i])
  {
    hide Acceptance;
  }

  lemma NoVolume()
    ensures Volumes([]) == 0.0
  {
  }

  lemma DrawnVolume(w: seq<real>, token: nat)
    ensures Volumes([[Drawing(w, token, 0.0)]]) == DrawLaw(w, token)
  {
    hide DrawLaw, Low;
    FirstVolume(Drawing(w, token, 0.0), 0);
    assert [Drawing(w, token, 0.0)] + [] == [Drawing(w, token, 0.0)];
  }

  lemma AcceptedVolume(s: Sampling, h: seq<nat>, xs: seq<nat>, i: nat, out: seq<nat>)
    requires i < |xs| && out != []
    requires out[0] == xs[i] && xs[i] != s.stop ==> Volumes(Boxes(s, h, xs, i + 1, out[1..])) == Chance(s, h, xs, i + 1, out[1..])
    ensures Volumes(AcceptedBoxes(s, h, xs, i, out)) ==
      Acceptance(s.target(h + xs[..i]), s.draft(h, xs[..i]), xs[i]) * AfterAccepting(s, h, xs, i, out)
  {
    hide Acceptance, Volumes, Volume, Boxes, Chance, Area, Accepting;
    var side := Accepting(s, h, xs, i);
    AcceptingArea(s, h, xs, i);
    if out[0] == xs[i] && xs[i] != s.stop {
      BehindVolumes(side, Boxes(s, h, xs, i + 1, out[1..]));
    } else if out[0] == xs[i] && |out| == 1 {
      FirstVolume(side, |xs| - i);
    } else {
      NoVolume();
    }
  }

  lemma FirstVolume(side: Side, n: nat)
    ensures Volumes([[side] + Anything(n)]) == Area(side)
  {
    OneVolume([side] + Anything(n));
    VolumeCons(side, Anything(n));
    AnythingIs(n);
  }

  lemma RejectedVolume(s: Sampling, h: seq<nat>, xs: seq<nat>, i: nat, out: seq<nat>)
    requires i < |xs| && out != []
    ensures var p, q := s.target(h + xs[..i]), s.draft(h, xs[..i]);
      Volumes(RejectedBoxes(s, h, xs, i, out)) ==
        if |out| == 1 then (1.0 - Acceptance(p, q, xs[i])) * DrawLaw(Correction(p, q), out[0]) else 0.0
  {
    hide Acceptance, DrawLaw, Correction, Low;
    if |out| == 1 {
      var p, q := s.target(h + xs[..i]), s.draft(h, xs[..i]);
      FirstVolume(Drawing(Correction(p, q), out[0], Acceptance(p, q, xs[i])), |xs| - i);
    }
  }

  // ---- the boxes are exactly the draws ----

  /** Models over one vocabulary, and drafts from it. */
  ghost predicate Drafted(s: Sampling, xs: seq<nat>) {
    Normalised(s) && forall k :: 0 <= k < |xs| ==> xs[k] < s.v
  }

  lemma NonNegative(d: seq<real>, v: nat)
    requires Distribution(d, v)
    ensures |d| == v && forall k :: 0 <= k < |d| ==> d[k] >= 0.0
  {
    forall k | 0 <= k < |d|
      ensures d[k] >= 0.0
    {
      assert At(d, k) >= 0.0;
    }
  }

  lemma InEither(a: seq<Box>, b: seq<Box>, us: seq<real>, vs: seq<real>, i: nat)
    ensures InSome(a + b, us, vs, i) <==> InSome(a, us, vs, i) || InSome(b, us, vs, i)
  {
    if InSome(a, us, vs, i) {
      var k :| 0 <= k < |a| && i + |a[k]| == |us| == |vs| && Inside(a[k], us, vs, i);
      assert (a + b)[k] == a[k];
    }
    if InSome(b, us, vs, i) {
      var k :| 0 <= k < |b| && i + |b[k]| == |us| == |vs| && Inside(b[k], us, vs, i);
      assert (a + b)[|a| + k] == b[k];
    }
  }

  lemma InBehind(side: Side, boxes: seq<Box>, us: seq<real>, vs: seq<real>, i: nat)
    requires i < |us| == |vs| && Sized(boxes, |us| - i - 1)
    ensures InSome(Behind(side, boxes), us, vs, i) <==> Within(side, us[i], vs[i]) && InSome(boxes, us, vs, i + 1)
  {
    hide Within;
    forall b: nat | b < |boxes|
      ensures Behind(side, boxes)[b] == [side] + boxes[b] && ([side] + boxes[b])[1..] == boxes[b]
    {
      BehindAt(side, boxes, b);
    }
    if InSome(boxes, us, vs, i + 1) && Within(side, us[i], vs[i]) {
      var b :| 0 <= b < |boxes| && i + 1 + |boxes[b]| == |us| == |vs| && Inside(boxes[b], us, vs, i + 1);
      assert Inside(Behind(side, boxes)[b], us, vs, i);
    }
    if InSome(Behind(side, boxes), us, vs, i) {
      var b :| 0 <= b < |boxes| && i + |Behind(side, boxes)[b]| == |us| == |vs| && Inside(Behind(side, boxes)[b], us, vs, i);
      assert Inside(boxes[b], us, vs, i + 1);
    }
  }

  lemma InFirst(side: Side, us: seq<real>, vs: seq<real>, i: nat, m: nat)
    requires Draws(us, vs, m) && i <= m
    ensures InSome([[side] + Anything(m - i)], us, vs, i) <==> Within(side, us[i], vs[i])
  {
    var box := [side] + Anything(m - i);
    assert box[1..] == Anything(m - i);
    AnythingHolds(m - i, us, vs, i + 1, m);
    if Within(side, us[i], vs[i]) {
      assert Inside([box][0], us, vs, i);
    }
  }

  lemma InNone(us: seq<real>, vs: seq<real>, i: nat)
    ensures !InSome([], us, vs, i)
  {
  }

  /** What verifying draft `i` replies, by its two draws. */
  lemma ReplySides(s: Sampling, h: seq<nat>, xs: seq<nat>, i: nat, us: seq<real>, vs: seq<real>, token: nat)
    requires Drafted(s, xs) && Draws(us, vs, |xs|) && i < |xs|
    ensures var p, q := s.target(h + xs[..i]), s.draft(h, xs[..i]);
      var a := Acceptance(p, q, xs[i]);
      && (Within(Accepting(s, h, xs, i), us[i], vs[i]) <==> us[i] <= a)
      && (Within(Drawing(Correction(p, q), token, a), us[i], vs[i]) <==> a < us[i] && Replies(p, q, xs[i], us[i], vs[i], token))
      && (us[i] <= a ==> (Replies(p, q, xs[i], us[i], vs[i], token) <==> xs[i] == token))
  {
    var p, q := s.target(h + xs[..i]), s.draft(h, xs[..i]);
    NonNegative(p, s.v);
    NonNegative(q, s.v);
    hide Acceptance, Correction, DrawLaw, Low, Replies, Distribution;
    ReplyIntervals(p, q, xs[i], token);
  }

  /** The draws that make the step output `out` are those in the boxes. */
  lemma {:induction false} StepsAreBoxes(s: Sampling, h: seq<nat>, xs: seq<nat>, i: nat, us: seq<real>, vs: seq<real>, out: seq<nat>)
    requires Drafted(s, xs) && Draws(us, vs, |xs|) && i <= |xs|
    ensures Steps(s, h, xs, i, us, vs, out) <==> InSome(Boxes(s, h, xs, i, out), us, vs, i)
    decreases |xs| - i
  {
    hide Acceptance, Correction, Low, Replies, InSome, Accepting, Drawing, Within, Drafted, Drawn;
    InNone(us, vs, i);
    if out != [] {
      if i == |xs| {
        if |out| == 1 {
          LastSide(s, h, xs, us, vs, out[0]);
        }
      } else {
        InEither(AcceptedBoxes(s, h, xs, i, out), RejectedBoxes(s, h, xs, i, out), us, vs, i);
        ReplySides(s, h, xs, i, us, vs, out[0]);
        RejectedInside(s, h, xs, i, us, vs, out);
        if out[0] == xs[i] && xs[i] != s.stop {
          StepsAreBoxes(s, h, xs, i + 1, us, vs, out[1..]);
        }
        AcceptedInside(s, h, xs, i, us, vs, out);
      }
    }
  }

  lemma LastSide(s: Sampling, h: seq<nat>, xs: seq<nat>, us: seq<real>, vs: seq<real>, token: nat)
    requires Drafted(s, xs) && Draws(us, vs, |xs|)
    ensures InSome([[Drawing(s.target(h + xs), token, 0.0)]], us, vs, |xs|) <==> Drawn(s.target(h + xs), vs[|xs|], token)
  {
    var w := s.target(h + xs);
    NonNegative(w, s.v);
    hide DrawLaw, Low, InSome, Drawn, Distribution;
    DrawIntervals(w, token);
    InFirst(Drawing(w, token, 0.0), us, vs, |xs|, |xs|);
    assert [Drawing(w, token, 0.0)] + [] == [Drawing(w, token, 0.0)];
  }

  lemma RejectedInside(s: Sampling, h: seq<nat>, xs: seq<nat>, i: nat, us: seq<real>, vs: seq<real>, out: seq<nat>)
    requires Draws(us, vs, |xs|) && i < |xs| && out != []
    ensures var p, q := s.target(h + xs[..i]), s.draft(h, xs[..i]);
      InSome(RejectedBoxes(s, h, xs, i, out), us, vs, i) <==>
        |out| == 1 && Within(Drawing(Correction(p, q), out[0], Acceptance(p, q, xs[i])), us[i], vs[i])
  {
    hide Acceptance, Correction, Drawing, Within, InSome;
    InNone(us, vs, i);
    if |out| == 1 {
      var p, q := s.target(h + xs[..i]), s.draft(h, xs[..i]);
      InFirst(Drawing(Correction(p, q), out[0], Acceptance(p, q, xs[i])), us, vs, i, |xs|);
    }
  }

  lemma AcceptedInside(s: Sampling, h: seq<nat>, xs: seq<nat>, i: nat, us: seq<real>, vs: seq<real>, out: seq<nat>)
    requires Draws(us, vs, |xs|) && i < |xs| && out != []
    ensures InSome(AcceptedBoxes(s, h, xs, i, out), us, vs, i) <==>
      out[0] == xs[i] && Within(Accepting(s, h, xs, i), us[i], vs[i])
      && if xs[i] != s.stop then InSome(Boxes(s, h, xs, i + 1, out[1..]), us, vs, i + 1) else |out| == 1
  {
    hide Accepting, Within, InSome, Boxes;
    InNone(us, vs, i);
    if out[0] == xs[i] && xs[i] != s.stop {
      BoxesSized(s, h, xs, i + 1, out[1..]);
      InBehind(Accepting(s, h, xs, i), Boxes(s, h, xs, i + 1, out[1..]), us, vs, i);
    } else if out[0] == xs[i] && |out| == 1 {
      InFirst(Accepting(s, h, xs, i), us, vs, i, |xs|);
    }
  }

  /** No draws lie in two of them, so their volumes add up. */
  lemma {:induction false} BoxesDisjoint(s: Sampling, h: seq<nat>, xs: seq<nat>, i: nat, us: seq<real>, vs: seq<real>,
                                        out: seq<nat>, b: nat, c: nat)
    requires Draws(us, vs, |xs|) && i <= |xs| && b < c < |Boxes(s, h, xs, i, out)|
    ensures var boxes := Boxes(s, h, xs, i, out);
      && |boxes[b]| == |boxes[c]| == |xs| + 1 - i && !(Inside(boxes[b], us, vs, i) && Inside(boxes[c], us, vs, i))
    decreases |xs| - i
  {
    BoxesSized(s, h, xs, i, out);
    hide Acceptance, Correction, DrawLaw, Low;
    var accepted := AcceptedBoxes(s, h, xs, i, out);
    if c < |accepted| {
      var rest, side := Boxes(s, h, xs, i + 1, out[1..]), Accepting(s, h, xs, i);
      BehindAt(side, rest, b);
      BehindAt(side, rest, c);
      assert ([side] + rest[b])[1..] == rest[b] && ([side] + rest[c])[1..] == rest[c];
      BoxesDisjoint(s, h, xs, i + 1, us, vs, out[1..], b, c);
    } else {
      AcceptedSides(s, h, xs, i, out, b);
      assert Boxes(s, h, xs, i, out)[b] == accepted[b];
      assert Boxes(s, h, xs, i, out)[c][0].ulo == Accepting(s, h, xs, i).uhi;
    }
  }

  lemma AcceptedSides(s: Sampling, h: seq<nat>, xs: seq<nat>, i: nat, out: seq<nat>, b: nat)
    requires i < |xs| && out != [] && b < |AcceptedBoxes(s, h, xs, i, out)|
    ensures var box := AcceptedBoxes(s, h, xs, i, out)[b]; box != [] && box[0] == Accepting(s, h, xs, i)
  {
    hide Accepting, Boxes;
    if xs[i] != s.stop {
      BehindAt(Accepting(s, h, xs, i), Boxes(s, h, xs, i + 1, out[1..]), b);
    }
  }

  predicate Proper(box: Box) {
    forall k :: 0 <= k < |box| ==>
      0.0 <= box[k].ulo <= box[k].uhi <= 1.0 && 0.0 <= box[k].vlo <= box[k].vhi <= 1.0
  }

  /** All of them lie in the unit cube. */
  lemma {:induction false} BoxesProper(s: Sampling, h: seq<nat>, xs: seq<nat>, i: nat, out: seq<nat>, b: nat)
    requires Drafted(s, xs) && i <= |xs| && b < |Boxes(s, h, xs, i, out)|
    ensures Proper(Boxes(s, h, xs, i, out)[b])
    decreases |xs| - i
  {
    hide Acceptance, Correction, DrawLaw, Low, Drafted, Proper;
    AnythingProper(|xs| - i);
    if i == |xs| {
      DrawingProper(s, h, xs, out[0]);
      assert [Drawing(s.target(h + xs), out[0], 0.0)] + [] == [Drawing(s.target(h + xs), out[0], 0.0)];
      ProperCons(Drawing(s.target(h + xs), out[0], 0.0), []);
    } else {
      SidesProper(s, h, xs, i, out[0]);
      var p, q := s.target(h + xs[..i]), s.draft(h, xs[..i]);
      ProperCons(Accepting(s, h, xs, i), Anything(|xs| - i));
      ProperCons(Drawing(Correction(p, q), out[0], Acceptance(p, q, xs[i])), Anything(|xs| - i));
      if b < |AcceptedBoxes(s, h, xs, i, out)| && xs[i] != s.stop {
        BoxesProper(s, h, xs, i + 1, out[1..], b);
        BehindAt(Accepting(s, h, xs, i), Boxes(s, h, xs, i + 1, out[1..]), b);
        ProperCons(Accepting(s, h, xs, i), Boxes(s, h, xs, i + 1, out[1..])[b]);
      }
    }
  }

  lemma {:induction false} AnythingProper(n: nat)
    ensures Proper(Anything(n)) && Proper([])
  {
    if n > 0 {
      AnythingProper(n - 1);
    }
  }

  lemma ProperCons(side: Side, box: Box)
    requires Proper(box)
    ensures Proper([side] + box) <==> 0.0 <= side.ulo <= side.uhi <= 1.0 && 0.0 <= side.vlo <= side.vhi <= 1.0
  {
    if Proper([side] + box) {
      assert ([side] + box)[0] == side;
    }
  }

  lemma DrawingProper(s: Sampling, h: seq<nat>, xs: seq<nat>, token: nat)
    requires Drafted(s, xs)
    ensures var w := s.target(h + xs); 0.0 <= Low(w, token) <= Low(w, token) + DrawLaw(w, token) <= 1.0
  {
    var w := s.target(h + xs);
    NonNegative(w, s.v);
    hide Distribution;
    DrawIntervals(w, token);
  }

  lemma SidesProper(s: Sampling, h: seq<nat>, xs: seq<nat>, i: nat, token: nat)
    requires Drafted(s, xs) && i < |xs|
    ensures var p, q := s.target(h + xs[..i]), s.draft(h, xs[..i]);
      && 0.0 <= Acceptance(p, q, xs[i]) <= 1.0
      && 0.0 <= Low(Correction(p, q), token) <= Low(Correction(p, q), token) + DrawLaw(Correction(p, q), token) <= 1.0
  {
    var p, q := s.target(h + xs[..i]), s.draft(h, xs[..i]);
    NonNegative(p, s.v);
    NonNegative(q, s.v);
    hide Acceptance, Correction, DrawLaw, Low, Distribution, ReplyLaw;
    ReplyIntervals(p, q, xs[i], token);
  }

  // ---- the law is that of the steps ----

  /** The draft itself is drawn with the chance that its distribution gives it. */
  lemma DraftIsDrawn(d: seq<real>, v: nat, x: nat)
    requires Distribution(d, v)
    ensures DrawLaw(d, x) == At(d, x)
    ensures forall u: real :: 0.0 < u <= 1.0 ==> (Drawn(d, u, x) <==> Low(d, x) < u <= Low(d, x) + At(d, x))
  {
    NonNegative(d, v);
    DrawIntervals(d, x);
  }

  /** What is still to come after the outputs w[..k]: nothing after the stop token,
      and further steps otherwise. */
  function Rest(s: Sampling, h: seq<nat>, xs: seq<nat>, i: nat, w: seq<nat>, k: nat): real
    requires i <= |xs| && 0 < k <= |w|
  {
    Onward(s, h + xs[..i] + w[..k - 1], w[k - 1], w[k..])
  }

  /** The step outputs the first `k + 1` tokens of `w`, and what follows is the rest. */
  function Output(s: Sampling, h: seq<nat>, xs: seq<nat>, i: nat, w: seq<nat>): nat -> real
    requires i <= |xs|
  {
    (k: nat) => if k < |w| then Chance(s, h, xs, i, w[..k + 1]) * Rest(s, h, xs, i, w, k + 1) else 0.0
  }

  /** The step outputs more than `w`: drafts, all accepted. */
  function Longer(s: Sampling, h: seq<nat>, xs: seq<nat>, i: nat, w: seq<nat>): real
    requires i <= |xs|
    decreases |w|
  {
    if w == [] then 1.0
    else if i == |xs| || w[0] != xs[i] || w[0] == s.stop then 0.0
    else Acceptance(s.target(h + xs[..i]), s.draft(h, xs[..i]), xs[i]) * Longer(s, h, xs, i + 1, w[1..])
  }

  /** All drafts that `w` takes are accepted by these draws. */
  predicate Beyond(s: Sampling, h: seq<nat>, xs: seq<nat>, i: nat, us: seq<real>, w: seq<nat>)
    requires i <= |xs| && |us| == |xs| + 1
    decreases |w|
  {
    w == [] ||
    (i < |xs| && w[0] == xs[i] && w[0] != s.stop
     && us[i] <= Acceptance(s.target(h + xs[..i]), s.draft(h, xs[..i]), xs[i]) && Beyond(s, h, xs, i + 1, us, w[1..]))
  }

  /** The draws with which a step outputs more than `w`: a box with the volume that
      `Longer` says. */
  lemma {:induction false} LongerExactly(s: Sampling, h: seq<nat>, xs: seq<nat>, i: nat, us: seq<real>, vs: seq<real>,
                                        out: seq<nat>, w: seq<nat>)
    requires Drafted(s, xs) && Draws(us, vs, |xs|) && i <= |xs| && Steps(s, h, xs, i, us, vs, out)
    ensures w < out <==> Beyond(s, h, xs, i, us, w)
    decreases |w|
  {
    if w != [] && i < |xs| {
      ReplySides(s, h, xs, i, us, vs, out[0]);
      hide Acceptance, Correction, Low, DrawLaw, Drawn, Drafted, Replies;
      if w[0] == xs[i] && out[0] == xs[i] && us[i] <= Acceptance(s.target(h + xs[..i]), s.draft(h, xs[..i]), xs[i]) && out[0] != s.stop {
        LongerExactly(s, h, xs, i + 1, us, vs, out[1..], w[1..]);
        assert w < out <==> w[1..] < out[1..];
      }
    }
  }

  lemma {:induction false} SumShift(n: nat, f: nat -> real, g: nat -> real)
    requires forall k: nat :: k < n ==> f(k + 1) == g(k)
    ensures Sum(n + 1, f) == f(0) + Sum(n, g)
  {
    if n > 0 {
      SumShift(n - 1, f, g);
    }
  }

  /** The law of verification is that of its steps: each way the step can go counts
      with its own chance, the volume of its draws, and with the chance of the rest. */
  lemma {:induction false} LawOfSteps(s: Sampling, h: seq<nat>, xs: seq<nat>, i: nat, w: seq<nat>)
    requires i <= |xs| && Normalised(s)
    ensures VerifyLaw(s, h, xs, i, w) == Sum(|w|, Output(s, h, xs, i, w)) + Longer(s, h, xs, i, w)
    decreases |xs| - i
  {
    hide *;
    if w == [] {
      NoOutput(s, h, xs, i);
    } else if i == |xs| {
      LastOutput(s, h, xs, w);
    } else {
      FirstOutput(s, h, xs, i, w);
      var c := Going(s, h, xs, i, w);
      var f, g := Output(s, h, xs, i, w), Output(s, h, xs, i + 1, w[1..]);
      LawOfSteps(s, h, xs, i + 1, w[1..]);
      forall k: nat | k < |w| - 1
        ensures f(k + 1) == c * g(k)
      {
        LaterOutput(s, h, xs, i, w, k);
      }
      SumScaled(|w| - 1, f, c, g);
      assert |w| - 1 + 1 == |w|;
      Together(f(0), c, VerifyLaw(s, h, xs, i + 1, w[1..]), Sum(|w| - 1, g), Longer(s, h, xs, i + 1, w[1..]),
               VerifyLaw(s, h, xs, i, w), Sum(|w|, f), Longer(s, h, xs, i, w));
    }
  }

  lemma Together(first: real, c: real, law: real, sum: real, longer: real, law0: real, sum0: real, longer0: real)
    requires law == sum + longer && law0 == first + c * law && sum0 == first + c * sum && longer0 == c * longer
    ensures law0 == sum0 + longer0
  {
    Distribute1(c, sum, longer);
  }

  lemma NoOutput(s: Sampling, h: seq<nat>, xs: seq<nat>, i: nat)
    requires i <= |xs|
    ensures VerifyLaw(s, h, xs, i, []) == Sum(0, Output(s, h, xs, i, [])) + Longer(s, h, xs, i, [])
  {
  }

  lemma SumScaled(n: nat, f: nat -> real, c: real, g: nat -> real)
    requires forall k: nat :: k < n ==> f(k + 1) == c * g(k)
    ensures Sum(n + 1, f) == f(0) + c * Sum(n, g)
  {
    var scaled := (k: nat) => c * g(k);
    SumShift(n, f, scaled);
    hide Sum;
    SumLinear(n, scaled, c, g, 0.0, g);
  }

  /** The chance of going on to the next draft when `w` is to come. */
  function Going(s: Sampling, h: seq<nat>, xs: seq<nat>, i: nat, w: seq<nat>): real
    requires i < |xs| && w != []
  {
    if w[0] == xs[i] && w[0] != s.stop then Acceptance(s.target(h + xs[..i]), s.draft(h, xs[..i]), xs[i]) else 0.0
  }

  lemma LastOutput(s: Sampling, h: seq<nat>, xs: seq<nat>, w: seq<nat>)
    requires Normalised(s) && w != []
    ensures VerifyLaw(s, h, xs, |xs|, w) == Sum(|w|, Output(s, h, xs, |xs|, w)) + Longer(s, h, xs, |xs|, w)
  {
    hide Onward, DrawLaw, Sum;
    var f, d := Output(s, h, xs, |xs|, w), s.target(h + xs);
    assert xs[..|xs|] == xs && h + xs + w[..0] == h + xs;
    assert Distribution(d, s.v);
    hide Normalised;
    DraftIsDrawn(d, s.v, w[0]);
    SumAt(|w|, f, 0);
    assert f(0) == At(d, w[0]) * Onward(s, h + xs, w[0], w[1..]);
  }

  lemma FirstOutput(s: Sampling, h: seq<nat>, xs: seq<nat>, i: nat, w: seq<nat>)
    requires i < |xs| && w != []
    ensures VerifyLaw(s, h, xs, i, w) == Output(s, h, xs, i, w)(0) + Going(s, h, xs, i, w) * VerifyLaw(s, h, xs, i + 1, w[1..])
    ensures Longer(s, h, xs, i, w) == Going(s, h, xs, i, w) * Longer(s, h, xs, i + 1, w[1..])
  {
    hide Acceptance, Correction, DrawLaw;
    var p, q := s.target(h + xs[..i]), s.draft(h, xs[..i]);
    var a, d, t := Acceptance(p, q, xs[i]), DrawLaw(Correction(p, q), w[0]), Onward(s, h + xs[..i], w[0], w[1..]);
    assert h + xs[..i] + w[..0] == h + xs[..i];
    assert w[..0 + 1] == [w[0]];
    var stops := if w[0] == xs[i] && w[0] == s.stop then 1.0 else 0.0;
    FirstChance(s, h, xs, i, w[0], stops);
    hide Chance;
    assert Output(s, h, xs, i, w)(0) == (a * stops + (1.0 - a) * d) * t;
    hide Onward, VerifyLaw, Output;
    Distributes(a * stops, (1.0 - a) * d, t);
    assert w[0] == s.stop ==> t == Ends(w[1..]) by {
      StopEnds(s, h + xs[..i], w[0], w[1..]);
    }
    VerifyUnfolds(s, h, xs, i, w);
  }

  lemma FirstChance(s: Sampling, h: seq<nat>, xs: seq<nat>, i: nat, token: nat, stops: real)
    requires i < |xs| && stops == if token == xs[i] && token == s.stop then 1.0 else 0.0
    ensures var p, q := s.target(h + xs[..i]), s.draft(h, xs[..i]);
      Chance(s, h, xs, i, [token]) == Acceptance(p, q, xs[i]) * stops + (1.0 - Acceptance(p, q, xs[i])) * DrawLaw(Correction(p, q), token)
  {
    hide Acceptance, Correction, DrawLaw;
    assert [token][1..] == [];
    assert AfterAccepting(s, h, xs, i, [token]) == stops;
  }

  lemma StopEnds(s: Sampling, h: seq<nat>, token: nat, rest: seq<nat>)
    ensures token == s.stop ==> Onward(s, h, token, rest) == Ends(rest)
  {
  }

  lemma Distributes(a: real, b: real, t: real)
    ensures (a + b) * t == a * t + b * t
  {
  }

  lemma VerifyUnfolds(s: Sampling, h: seq<nat>, xs: seq<nat>, i: nat, w: seq<nat>)
    requires i < |xs| && w != []
    ensures var p, q := s.target(h + xs[..i]), s.draft(h, xs[..i]);
      VerifyLaw(s, h, xs, i, w) ==
        (if w[0] != xs[i] then 0.0
         else Acceptance(p, q, xs[i]) * if w[0] == s.stop then Ends(w[1..]) else VerifyLaw(s, h, xs, i + 1, w[1..]))
        + (1.0 - Acceptance(p, q, xs[i])) * DrawLaw(Correction(p, q), w[0]) * Onward(s, h + xs[..i], w[0], w[1..])
  {
    hide Acceptance, Correction, DrawLaw, Onward;
  }

  lemma LaterOutput(s: Sampling, h: seq<nat>, xs: seq<nat>, i: nat, w: seq<nat>, k: nat)
    requires i < |xs| && k < |w| - 1
    ensures Output(s, h, xs, i, w)(k + 1) == Going(s, h, xs, i, w) * Output(s, h, xs, i + 1, w[1..])(k)
  {
    hide Acceptance, Correction, DrawLaw, Onward;
    var out, rest := w[..k + 2], w[1..];
    assert out[1..] == rest[..k + 1] && out[0] == w[0] && |out| > 1;
    var a := Acceptance(s.target(h + xs[..i]), s.draft(h, xs[..i]), xs[i]);
    if w[0] == xs[i] && w[0] != s.stop {
      assert Chance(s, h, xs, i, out) == a * Chance(s, h, xs, i + 1, rest[..k + 1]);
      assert h + xs[..i] + w[..k + 1] == h + xs[..i + 1] + rest[..k];
      assert w[k + 2..] == rest[k + 1..];
      Associates(a, Chance(s, h, xs, i + 1, rest[..k + 1]), Rest(s, h, xs, i, w, k + 2));
    } else {
      assert Chance(s, h, xs, i, out) == 0.0;
    }
  }

  lemma Associates(a: real, b: real, c: real)
    ensures a * b * c == a * (b * c)
  {
  }

  // ---- the loop ----

  /** What the verification loop of the engine is told to expect: every output but the
      last is the next draft and does not stop. */
  lemma {:induction false} StepsVerify(s: Sampling, h: seq<nat>, xs: seq<nat>, i: nat, us: seq<real>, vs: seq<real>, out: seq<nat>)
    requires i <= |xs| && |us| == |vs| == |xs| + 1 && Steps(s, h, xs, i, us, vs, out)
    ensures 1 <= |out| <= |xs| + 1 - i
    ensures forall k :: 0 <= k < |out| - 1 ==> out[k] == xs[i + k] && out[k] != s.stop
    decreases |xs| - i
  {
    hide Acceptance, Correction, Drawn;
    if i < |xs| && |out| > 1 {
      StepsVerify(s, h, xs, i + 1, us, vs, out[1..]);
      forall k | 0 <= k < |out| - 1
        ensures out[k] == xs[i + k] && out[k] != s.stop
      {
        assert k > 0 ==> out[k] == out[1..][k - 1];
      }
    }
  }

  /** Whatever the step goes on to output from draft `i`, it has output `done` first. */
  ghost predicate SoFar(s: Sampling, h: seq<nat>, xs: seq<nat>, i: nat, us: seq<real>, vs: seq<real>, done: seq<nat>)
    requires i <= |xs| && |us| == |vs| == |xs| + 1
  {
    forall more :: Steps(s, h, xs, i, us, vs, more) ==> Steps(s, h, xs, 0, us, vs, done + more)
  }

  lemma NothingSoFar(s: Sampling, h: seq<nat>, xs: seq<nat>, us: seq<real>, vs: seq<real>)
    requires |us| == |vs| == |xs| + 1
    ensures SoFar(s, h, xs, 0, us, vs, [])
  {
    hide Steps;
    forall more | Steps(s, h, xs, 0, us, vs, more)
      ensures Steps(s, h, xs, 0, us, vs, [] + more)
    {
      assert [] + more == more;
    }
  }

  /** A reply at place `i`: to a draft, or after all of them. */
  ghost predicate ReplyIs(s: Sampling, h: seq<nat>, xs: seq<nat>, i: nat, u: real, v: real, token: nat, accepted: bool)
    requires i <= |xs|
  {
    if i == |xs| then Drawn(s.target(h + xs), v, token) && !accepted
    else
      var p, q := s.target(h + xs[..i]), s.draft(h, xs[..i]);
      Replies(p, q, xs[i], u, v, token) && (accepted <==> u <= Acceptance(p, q, xs[i]))
  }

  /** A reply that accepts its draft goes on ... */
  lemma ReplyAccepted(s: Sampling, h: seq<nat>, xs: seq<nat>, i: nat, us: seq<real>, vs: seq<real>, done: seq<nat>, token: nat)
    requires i < |xs| && |us| == |vs| == |xs| + 1 && SoFar(s, h, xs, i, us, vs, done)
    requires ReplyIs(s, h, xs, i, us[i], vs[i], token, true) && token != s.stop
    ensures SoFar(s, h, xs, i + 1, us, vs, done + [token])
  {
    hide Acceptance, Correction, Drawn, Replies;
    forall more | Steps(s, h, xs, i + 1, us, vs, more)
      ensures Steps(s, h, xs, 0, us, vs, done + [token] + more)
    {
      assert ([token] + more)[1..] == more;
      assert Steps(s, h, xs, i, us, vs, [token] + more);
      assert done + [token] + more == done + ([token] + more);
    }
  }

  /** ... and any other ends the step. */
  lemma ReplyEnds(s: Sampling, h: seq<nat>, xs: seq<nat>, i: nat, us: seq<real>, vs: seq<real>, done: seq<nat>, token: nat, accepted: bool)
    requires i <= |xs| && |us| == |vs| == |xs| + 1 && SoFar(s, h, xs, i, us, vs, done)
    requires ReplyIs(s, h, xs, i, us[i], vs[i], token, accepted) && (accepted ==> token == s.stop)
    ensures Steps(s, h, xs, 0, us, vs, done + [token])
  {
    hide Acceptance, Correction, Drawn, Replies;
    assert Steps(s, h, xs, i, us, vs, [token]);
  }

  /** The models of one step: the target's logits at each place and the proposals
      drawn from, both after the same history. */
  ghost predicate Models(s: Sampling, p: Params, exp: real -> real, h: seq<nat>, xs: seq<nat>, logits: seq<seq<real>>, proposals: seq<seq<real>>)
    requires p.repeatPenalty > 0.0
  {
    && Drafted(s, xs) && |logits| == |xs| + 1 && |proposals| == |xs|
    && (forall i :: 0 <= i <= |xs| ==> IsLaw(p, exp, Penalised(p, logits[i], h + xs[..i]), s.target(h + xs[..i])))
    && (forall i :: 0 <= i < |xs| ==> proposals[i] == s.draft(h, xs[..i]))
  }

  /** The reply to input `kept` (1762-1776): to the draft that follows it, or after all
      drafts. */
  method Reply(sampler: Sampler, inputs: seq<nat>, logits: seq<seq<real>>, proposals: seq<seq<real>>, kept: nat,
               u: real, v: real, ghost s: Sampling, ghost h: seq<nat>) returns (sampled: nat, accepted: bool)
    requires sampler.Valid() && kept < |inputs| && 0.0 <= u <= 1.0 && 0.0 <= v <= 1.0
    requires Models(s, sampler.params, sampler.exp, h, inputs[1..], logits, proposals) && sampler.history == h + inputs[1..][..kept]
    ensures ReplyIs(s, h, inputs[1..], kept, u, v, sampled, accepted)
  {
    hide Replies, Drawn, Acceptance, Penalised, IsLaw, ExpLike, Normalised;
    var target := sampler.Probabilities(logits[kept], []);
    SameTarget(s, sampler.params, sampler.exp, h, inputs[1..], logits, proposals, kept, sampler.history, target);
    if kept + 1 < |inputs| {
      sampled, accepted := SpeculativeSample(target, proposals[kept], inputs[kept + 1], u, v);
    } else {
      assert inputs[1..][..kept] == inputs[1..];
      accepted := false;
      sampled := SampleProbabilities(target, v);
    }
  }

  /** The verification loop with sampling (1750-1787): the sampler accepts each input,
      then draws a reply to it. */
  method VerifyDrafts(sampler: Sampler, inputs: seq<nat>, logits: seq<seq<real>>, proposals: seq<seq<real>>, stop: int,
                      us: seq<real>, vs: seq<real>, ghost s: Sampling, ghost h: seq<nat>) returns (kept: nat, outputs: seq<nat>)
    requires sampler.Valid() && inputs != [] && h == sampler.history + [inputs[0]] && s.stop == stop
    requires Models(s, sampler.params, sampler.exp, h, inputs[1..], logits, proposals) && Draws(us, vs, |inputs| - 1)
    modifies sampler
    ensures sampler.Valid() && 1 <= kept == |outputs| <= |inputs| && sampler.history == old(sampler.history) + inputs[..kept]
    ensures forall i :: 0 <= i < kept - 1 ==> outputs[i] == inputs[i + 1] && outputs[i] != stop
    ensures Steps(s, h, inputs[1..], 0, us, vs, outputs)
  {
    hide ReplyIs, Steps, SoFar, Models, Penalised, ExpLike, IsLaw, Replies, Drawn, Acceptance;
    ghost var xs := inputs[1..];
    kept, outputs := 0, [];
    NothingSoFar(s, h, xs, us, vs);
    while kept < |inputs|
      invariant kept == |outputs| <= |inputs| && sampler.Valid() && sampler.history == old(sampler.history) + inputs[..kept]
      invariant if kept < |inputs| then SoFar(s, h, xs, kept, us, vs, outputs) else Steps(s, h, xs, 0, us, vs, outputs)
    {
      sampler.Accept(inputs[kept]);
      assert inputs[..kept + 1] == inputs[..kept] + [inputs[kept]] == [inputs[0]] + xs[..kept];
      var sampled, accepted := Reply(sampler, inputs, logits, proposals, kept, us[kept], vs[kept], s, h);
      ghost var i, before := kept, outputs;
      outputs, kept := outputs + [sampled], kept + 1;
      if accepted && sampled != stop {
        AcceptedIsDraft(s, h, xs, i, us, vs, sampled);
        ReplyAccepted(s, h, xs, i, us, vs, before, sampled);
      } else {
        ReplyEnds(s, h, xs, i, us, vs, before, sampled, accepted);
      }
      if sampled == stop || (kept < |inputs| && !accepted) {
        break;
      }
    }
    StepsVerify(s, h, xs, 0, us, vs, outputs);
  }

  lemma AcceptedIsDraft(s: Sampling, h: seq<nat>, xs: seq<nat>, i: nat, us: seq<real>, vs: seq<real>, token: nat)
    requires i <= |xs| && |us| == |vs| == |xs| + 1 && ReplyIs(s, h, xs, i, us[i], vs[i], token, true)
    ensures i < |xs|
  {
  }

  /** What the sampler computes is the target's distribution. */
  lemma SameTarget(s: Sampling, p: Params, exp: real -> real, h: seq<nat>, xs: seq<nat>, logits: seq<seq<real>>, proposals: seq<seq<real>>,
                   i: nat, history: seq<int>, target: seq<real>)
    requires p.repeatPenalty > 0.0 && Models(s, p, exp, h, xs, logits, proposals) && i <= |xs|
    requires history == h + xs[..i] && IsLaw(p, exp, Penalised(p, logits[i], history + []), target)
    ensures target == s.target(h + xs[..i]) && |target| == s.v && forall k :: 0 <= k < |target| ==> target[k] >= 0.0
    ensures i < |xs| ==> |proposals[i]| == s.v && xs[i] < s.v && forall k :: 0 <= k < |proposals[i]| ==> proposals[i][k] >= 0.0
  {
    assert history + [] == history;
    hide IsLaw, Penalised, Distribution;
    LawIsUnique(p, exp, Penalised(p, logits[i], history), target, s.target(h + xs[..i]));
    NonNegative(s.target(h + xs[..i]), s.v);
    if i < |xs| {
      NonNegative(s.draft(h, xs[..i]), s.v);
    }
  }
}
