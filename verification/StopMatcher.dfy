/** Streaming stop sequences, examples/cli_common.cpp:628-686: matching over a
    bounded tail of the decoded bytes against searching the whole text. */
module StopMatcher {
  import opened Wrappers
  import opened Graph

  predicate MatchesAt(text: Bytes, stop: Bytes, at: nat) {
    at + |stop| <= |text| && text[at..at + |stop|] == stop
  }

  /** Some stop sequence occurs at `at`. */
  ghost predicate StopAt(stops: seq<Bytes>, text: Bytes, at: nat) {
    exists k :: 0 <= k < |stops| && MatchesAt(text, stops[k], at)
  }

  ghost predicate NoStop(stops: seq<Bytes>, text: Bytes) {
    forall at: nat :: !StopAt(stops, text, at)
  }

  ghost predicate Earliest(stops: seq<Bytes>, text: Bytes, at: nat) {
    StopAt(stops, text, at) && forall b: nat :: b < at ==> !StopAt(stops, text, b)
  }

  /** std::string::find. */
  method Find(text: Bytes, stop: Bytes) returns (at: Option<nat>)
    ensures at.Some? ==> MatchesAt(text, stop, at.value) && forall b: nat :: b < at.value ==> !MatchesAt(text, stop, b)
    ensures at.None? ==> forall b: nat :: !MatchesAt(text, stop, b)
  {
    var i := 0;
    while i + |stop| <= |text|
      invariant forall b: nat :: b < i ==> !MatchesAt(text, stop, b)
    {
      if text[i..i + |stop|] == stop {
        return Some(i);
      }
      i := i + 1;
    }
    at := None;
  }

  /** The earliest occurrence of any stop (645-649). */
  method FindEarliest(stops: seq<Bytes>, text: Bytes) returns (at: Option<nat>)
    ensures at.Some? ==> Earliest(stops, text, at.value)
    ensures at.None? ==> NoStop(stops, text)
  {
    at := None;
    for k := 0 to |stops|
      invariant at.Some? ==> Earliest(stops[..k], text, at.value)
      invariant at.None? ==> NoStop(stops[..k], text)
    {
      var found := Find(text, stops[k]);
      ghost var before := at;
      if found.Some? && (at.None? || found.value < at.value) {
        at := found;
      }
      EarlierOfTwo(stops, text, k, before, found, at);
    }
    assert stops[..|stops|] == stops;
  }

  lemma EarlierOfTwo(stops: seq<Bytes>, text: Bytes, k: nat, before: Option<nat>, found: Option<nat>, at: Option<nat>)
    requires k < |stops|
    requires if before.Some? then Earliest(stops[..k], text, before.value) else NoStop(stops[..k], text)
    requires if found.Some? then MatchesAt(text, stops[k], found.value) && (forall b: nat :: b < found.value ==> !MatchesAt(text, stops[k], b))
             else forall b: nat :: !MatchesAt(text, stops[k], b)
    requires at == if found.Some? && (before.None? || found.value < before.value) then found else before
    ensures if at.Some? then Earliest(stops[..k + 1], text, at.value) else NoStop(stops[..k + 1], text)
  {
    forall b: nat {:trigger StopAt(stops[..k + 1], text, b)}
      ensures at.None? || b < at.value ==> !StopAt(stops[..k + 1], text, b)
    {
      OneMoreStop(stops, text, k, b);
      if at.None? || b < at.value {
        assert !MatchesAt(text, stops[k], b) && !StopAt(stops[..k], text, b);
      }
    }
    if at.Some? {
      OneMoreStop(stops, text, k, at.value);
    }
  }

  lemma OneMoreStop(stops: seq<Bytes>, text: Bytes, k: nat, b: nat)
    requires k < |stops|
    ensures StopAt(stops[..k + 1], text, b) <==> StopAt(stops[..k], text, b) || MatchesAt(text, stops[k], b)
  {
    assert stops[..k + 1][k] == stops[k];
    if StopAt(stops[..k], text, b) {
      var j :| 0 <= j < |stops[..k]| && MatchesAt(text, stops[..k][j], b);
      assert stops[..k + 1][j] == stops[..k][j];
    }
    if StopAt(stops[..k + 1], text, b) {
      var j :| 0 <= j < |stops[..k + 1]| && MatchesAt(text, stops[..k + 1][j], b);
      assert j < k ==> stops[..k][j] == stops[..k + 1][j];
    }
  }

  ghost predicate Bounded(stops: seq<Bytes>, longest: nat) {
    forall k :: 0 <= k < |stops| ==> |stops[k]| <= longest
  }

  ghost predicate IsLongest(stops: seq<Bytes>, longest: nat) {
    Bounded(stops, longest) && exists k :: 0 <= k < |stops| && |stops[k]| == longest
  }

  /** With the last `longest - 1` bytes kept back, no new occurrence can begin
      before them. */
  lemma NewStopsStartLate(stops: seq<Bytes>, longest: nat, text: Bytes, more: Bytes, emitted: nat, at: nat)
    requires Bounded(stops, longest) && NoStop(stops, text)
    requires emitted <= |text| && (emitted > 0 ==> |text| - emitted >= longest - 1)
    requires StopAt(stops, text + more, at)
    ensures at >= emitted
  {
    var k :| 0 <= k < |stops| && MatchesAt(text + more, stops[k], at);
    if at + |stops[k]| <= |text| {
      assert text[at..at + |stops[k]|] == (text + more)[at..at + |stops[k]|];
      assert MatchesAt(text, stops[k], at);
      assert StopAt(stops, text, at);
    }
  }

  lemma StopInTail(stops: seq<Bytes>, head: Bytes, tail: Bytes, at: nat)
    ensures StopAt(stops, tail, at) <==> StopAt(stops, head + tail, |head| + at)
  {
    if StopAt(stops, tail, at) {
      var k :| 0 <= k < |stops| && MatchesAt(tail, stops[k], at);
      assert (head + tail)[|head| + at..|head| + at + |stops[k]|] == tail[at..at + |stops[k]|];
    }
    if StopAt(stops, head + tail, |head| + at) {
      var k :| 0 <= k < |stops| && MatchesAt(head + tail, stops[k], |head| + at);
      assert (head + tail)[|head| + at..|head| + at + |stops[k]|] == tail[at..at + |stops[k]|];
      assert MatchesAt(tail, stops[k], at);
    }
  }

  lemma StopWithin(stops: seq<Bytes>, text: Bytes, at: nat)
    requires Earliest(stops, text, at)
    ensures at <= |text| && !NoStop(stops, text)
  {
  }

  lemma NoStopIsPositive(stops: seq<Bytes>, longest: nat, text: Bytes)
    requires Bounded(stops, longest) && stops != [] && NoStop(stops, text)
    ensures longest > 0
  {
    assert !StopAt(stops, text, 0);
    assert !MatchesAt(text, stops[0], 0);
  }

  lemma Regroup(a: Bytes, b: Bytes, c: Bytes)
    ensures a + (b + c) == a + b + c
  {
  }

  /** Giving out `n` of the kept bytes. */
  lemma Give(given: Bytes, tail: Bytes, n: nat)
    requires n <= |tail|
    ensures given <= given + tail[..n] <= given + tail
    ensures given + tail[..n] + tail[n..] == given + tail
  {
    assert tail == tail[..n] + tail[n..];
  }

  /** A stop in the kept bytes: they are given out up to it. */
  lemma StoppedText(stops: seq<Bytes>, given: Bytes, tail: Bytes, at: nat)
    requires Earliest(stops, tail, at) && Earliest(stops, given + tail, |given| + at)
    ensures at <= |tail| && given <= given + tail[..at] <= given + tail && |given + tail[..at]| == |given| + at
    ensures !NoStop(stops, given + tail)
  {
    StopWithin(stops, tail, at);
    StopWithin(stops, given + tail, |given| + at);
    Give(given, tail, at);
  }

  /** No stop: all but the last `longest - 1` of the kept bytes are given out. */
  lemma KeptTail(stops: seq<Bytes>, longest: nat, given: Bytes, tail: Bytes, n: int)
    requires IsLongest(stops, longest) && NoStop(stops, given + tail)
    requires given != [] ==> |tail| >= longest - 1
    requires n == if |tail| > longest - 1 then |tail| - (longest - 1) else 0
    ensures 0 <= n <= |tail| && given <= given + tail[..n] <= given + tail && given + tail[..n] + tail[n..] == given + tail
    ensures given + tail[..n] != [] ==> |tail[n..]| == longest - 1
    ensures |tail[n..]| <= longest - 1
  {
    NoStopIsPositive(stops, longest, given + tail);
    Give(given, tail, n);
  }

  class Matcher {
    const stops: seq<Bytes>
    const longest: nat
    /** What the caller has been given, and what is kept back. */
    var text: Bytes
    var pending: Bytes

    /** All decoded bytes so far. */
    ghost var decoded: Bytes

    /** Nothing is lost, and nothing that a later stop may need has been given
        out.  Before the first byte there is nothing to have searched. */
    ghost predicate Valid()
      reads this
    {
      && IsLongest(stops, longest) && text + pending == decoded
      && (decoded != [] ==> NoStop(stops, decoded))
      && (text != [] ==> |pending| == longest - 1) && (decoded != [] ==> |pending| <= longest - 1)
    }

    constructor (sequences: seq<Bytes>)
      requires sequences != []
      ensures Valid() && decoded == [] && text == [] && stops == sequences
    {
      var most: nat := 0;
      for k := 0 to |sequences|
        invariant Bounded(sequences[..k], most)
        invariant k > 0 ==> exists j :: 0 <= j < k && |sequences[j]| == most
        invariant k == 0 ==> most == 0
      {
        most := if |sequences[k]| > most then |sequences[k]| else most;
      }
      assert sequences[..|sequences|] == sequences;
      stops, longest, text, pending, decoded := sequences, most, [], [], [];
    }

    /** append_token: true exactly when a stop now occurs in the decoded bytes, and
        then the text ends at the earliest one. */
    method Append(piece: Bytes) returns (hit: bool)
      requires Valid()
      modifies this
      ensures decoded == old(decoded) + piece && old(text) <= text <= decoded
      ensures hit <==> !NoStop(stops, decoded)
      ensures hit ==> Earliest(stops, decoded, |text|) && pending == []
      ensures !hit ==> Valid()
    {
      hide NoStop, StopAt, Earliest, MatchesAt, IsLongest, Bounded;
      ghost var before, given := decoded, text;
      var tail := pending + piece;
      Regroup(given, pending, piece);
      TailSearch(before, piece, given, tail);
      var at := FindEarliest(stops, tail);
      decoded := before + piece;
      if at.Some? {
        StoppedText(stops, given, tail, at.value);
        text, pending := text + tail[..at.value], [];
        return true;
      }
      var n := if |tail| > longest - 1 then |tail| - (longest - 1) else 0;
      KeptTail(stops, longest, given, tail, n);
      text, pending := text + tail[..n], tail[n..];
      hit := false;
    }

    /** Searching the kept bytes finds what searching everything would. */
    lemma TailSearch(before: Bytes, piece: Bytes, head: Bytes, tail: Bytes)
      requires IsLongest(stops, longest) && head + tail == before + piece && |head| <= |before|
      requires (before != [] ==> NoStop(stops, before)) && (head != [] ==> |before| - |head| >= longest - 1)
      ensures NoStop(stops, tail) <==> NoStop(stops, head + tail)
      ensures forall at: nat :: Earliest(stops, tail, at) ==> Earliest(stops, head + tail, |head| + at)
    {
      forall at: nat | StopAt(stops, head + tail, at)
        ensures at >= |head| && StopAt(stops, tail, at - |head|)
      {
        if head != [] {
          NewStopsStartLate(stops, longest, before, piece, |head|, at);
        }
        StopInTail(stops, head, tail, at - |head|);
      }
      forall at: nat
        ensures StopAt(stops, tail, at) <==> StopAt(stops, head + tail, |head| + at)
      {
        StopInTail(stops, head, tail, at);
      }
    }
  }
}
