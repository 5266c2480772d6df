/** The RWKV world tokenizer, engine/tokenizer_rwkv.cpp: a trie filled from the
    vocabulary file, and greedy longest-match encoding over it. */
module Rwkv {
  import opened Wrappers
  import opened Graph

  datatype TrieNode = TrieNode(next: map<byte, nat>, token: int)

  type Trie = seq<TrieNode>

  /** `path` names every node by the bytes that lead to it, so the trie is a tree. */
  ghost predicate Shaped(t: Trie, path: seq<Bytes>) {
    && |t| == |path| > 0 && path[0] == []
    && (forall n: nat, c :: n < |t| && c in t[n].next ==> t[n].next[c] < |t| && path[t[n].next[c]] == path[n] + [c])
    && forall n :: 0 <= n < |t| ==> t[n].token >= -1
  }

  /** The node that `bytes` leads to from `n`. */
  function Walk(t: Trie, n: nat, bytes: Bytes): Option<nat>
    decreases |bytes|
  {
    if n >= |t| then None
    else if bytes == [] then Some(n)
    else if bytes[0] in t[n].next then Walk(t, t[n].next[bytes[0]], bytes[1..])
    else None
  }

  /** The token the trie stores for `bytes`. */
  function Lookup(t: Trie, bytes: Bytes): Option<nat> {
    match Walk(t, 0, bytes)
    case None => None
    case Some(n) => if n < |t| && t[n].token >= 0 then Some(t[n].token) else None
  }

  lemma {:induction false} WalkPath(t: Trie, path: seq<Bytes>, n: nat, bytes: Bytes)
    requires Shaped(t, path) && n < |t|
    ensures Walk(t, n, bytes).Some? ==> Walk(t, n, bytes).value < |t| && path[Walk(t, n, bytes).value] == path[n] + bytes
    decreases |bytes|
  {
    if bytes != [] && bytes[0] in t[n].next {
      var k := t[n].next[bytes[0]];
      WalkPath(t, path, k, bytes[1..]);
      assert path[k] + bytes[1..] == path[n] + ([bytes[0]] + bytes[1..]);
      assert bytes == [bytes[0]] + bytes[1..];
    } else {
      assert path[n] + [] == path[n];
    }
  }

  lemma {:induction false} WalkAppend(t: Trie, n: nat, a: Bytes, b: Bytes)
    ensures Walk(t, n, a + b) == if Walk(t, n, a).Some? then Walk(t, Walk(t, n, a).value, b) else None
    decreases |a|
  {
    if a == [] {
      assert a + b == b;
      assert n >= |t| ==> Walk(t, n, b) == None;
    } else if n < |t| && a[0] in t[n].next {
      assert (a + b)[1..] == a[1..] + b;
      WalkAppend(t, t[n].next[a[0]], a[1..], b);
    }
  }

  /** Hanging a fresh leaf under `n` adds one walk. */
  function Grown(t: Trie, n: nat, c: byte): Trie
    requires n < |t|
  {
    t[n := TrieNode(t[n].next[c := |t|], t[n].token)] + [TrieNode(map[], -1)]
  }

  lemma {:induction false} GrownWalk(t: Trie, path: seq<Bytes>, n: nat, c: byte, from: nat, bytes: Bytes)
    requires Shaped(t, path) && n < |t| && c !in t[n].next && from < |t|
    ensures Walk(t, from, bytes).Some? ==> Walk(Grown(t, n, c), from, bytes) == Walk(t, from, bytes)
    ensures Walk(t, from, bytes).None? ==> Walk(Grown(t, n, c), from, bytes) in {None, Some(|t|)}
    decreases |bytes|
  {
    var g := Grown(t, n, c);
    if bytes != [] {
      if bytes[0] in t[from].next {
        GrownWalk(t, path, n, c, t[from].next[bytes[0]], bytes[1..]);
      } else if from == n && bytes[0] == c {
        assert Walk(g, from, bytes) == Walk(g, |t|, bytes[1..]);
        assert Walk(g, |t|, bytes[1..]) == if bytes[1..] == [] then Some(|t|) else None;
      }
    }
  }

  lemma GrownShaped(t: Trie, path: seq<Bytes>, n: nat, c: byte)
    requires Shaped(t, path) && n < |t| && c !in t[n].next
    ensures Shaped(Grown(t, n, c), path + [path[n] + [c]])
    ensures forall bytes :: Lookup(Grown(t, n, c), bytes) == Lookup(t, bytes)
    ensures Walk(Grown(t, n, c), n, [c]) == Some(|t|)
  {
    forall bytes
      ensures Lookup(Grown(t, n, c), bytes) == Lookup(t, bytes)
    {
      GrownWalk(t, path, n, c, 0, bytes);
      WalkPath(t, path, 0, bytes);
    }
    assert Walk(Grown(t, n, c), |t|, [c][1..]) == Some(|t|);
  }

  /** Storing a token changes the lookup of that node's bytes alone. */
  lemma StoredToken(t: Trie, path: seq<Bytes>, bytes: Bytes, n: nat, id: nat)
    requires Shaped(t, path) && Walk(t, 0, bytes) == Some(n) && n < |t|
    ensures var s := t[n := TrieNode(t[n].next, id)];
      && Shaped(s, path)
      && forall b :: Lookup(s, b) == if b == bytes then Some(id) else Lookup(t, b)
  {
    var s := t[n := TrieNode(t[n].next, id)];
    WalkPath(t, path, 0, bytes);
    forall b
      ensures Lookup(s, b) == if b == bytes then Some(id) else Lookup(t, b)
    {
      SameWalk(t, s, 0, b);
      WalkPath(t, path, 0, b);
      assert [] + b == b && [] + bytes == bytes;
    }
  }

  lemma {:induction false} SameWalk(t: Trie, s: Trie, n: nat, b: Bytes)
    requires |s| == |t| && forall k :: 0 <= k < |t| ==> s[k].next == t[k].next
    ensures Walk(s, n, b) == Walk(t, n, b)
    decreases |b|
  {
    if n < |t| && b != [] && b[0] in t[n].next {
      SameWalk(t, s, t[n].next[b[0]], b[1..]);
    }
  }

  // ---- what the vocabulary file means ----

  /** A usable line: an id and its bytes. */
  datatype Line = Skipped | Malformed | Entry(id: nat, bytes: Bytes)

  datatype Vocabulary = Vocabulary(ids: map<Bytes, nat>, bytes: map<nat, Bytes>)

  /** Later lines override earlier ones; a malformed id ends the load. */
  function Load(lines: seq<Line>): Option<Vocabulary> {
    if lines == [] then Some(Vocabulary(map[], map[]))
    else
      match Load(lines[..|lines| - 1])
      case None => None
      case Some(v) =>
        match lines[|lines| - 1]
        case Skipped => Some(v)
        case Malformed => None
        case Entry(id, bytes) => Some(Vocabulary(v.ids[bytes := id], v.bytes[id := bytes]))
  }

  /** The vocabulary decodes what it encodes. */
  ghost predicate Consistent(v: Vocabulary) {
    forall b <- v.ids :: v.ids[b] in v.bytes && v.bytes[v.ids[b]] == b
  }

  /** Line `i` is the last for its bytes, but a later line gives its id to others. */
  ghost predicate Taken(lines: seq<Line>, i: nat, j: nat) {
    && i < j < |lines| && lines[i].Entry? && lines[j].Entry?
    && lines[i].id == lines[j].id && lines[i].bytes != lines[j].bytes && LastForBytes(lines, i)
  }

  ghost predicate LastForBytes(lines: seq<Line>, i: nat)
    requires i < |lines| && lines[i].Entry?
  {
    forall k :: i < k < |lines| && lines[k].Entry? ==> lines[k].bytes != lines[i].bytes
  }

  ghost predicate NoneTaken(lines: seq<Line>) {
    forall i: nat, j: nat :: !Taken(lines, i, j)
  }

  /** The line that an encoding comes from. */
  lemma {:induction false} LineOfBytes(lines: seq<Line>, b: Bytes) returns (i: nat)
    requires Load(lines).Some? && b in Load(lines).value.ids
    ensures i < |lines| && lines[i] == Entry(Load(lines).value.ids[b], b) && LastForBytes(lines, i)
  {
    var n := |lines| - 1;
    if lines[n].Entry? && lines[n].bytes == b {
      i := n;
    } else {
      i := LineOfBytes(lines[..n], b);
    }
  }

  /** The line that a decoding comes from: no earlier than any line with its id. */
  lemma {:induction false} LineOfId(lines: seq<Line>, i: nat) returns (j: nat)
    requires Load(lines).Some? && i < |lines| && lines[i].Entry?
    ensures i <= j < |lines| && lines[i].id in Load(lines).value.bytes
    ensures lines[j] == Entry(lines[i].id, Load(lines).value.bytes[lines[i].id])
  {
    var n := |lines| - 1;
    if lines[n].Entry? && lines[n].id == lines[i].id {
      j := n;
    } else {
      j := LineOfId(lines[..n], i);
    }
  }

  lemma {:induction false} EncodedByLast(lines: seq<Line>, i: nat)
    requires Load(lines).Some? && i < |lines| && lines[i].Entry? && LastForBytes(lines, i)
    ensures lines[i].bytes in Load(lines).value.ids && Load(lines).value.ids[lines[i].bytes] == lines[i].id
  {
    var n := |lines| - 1;
    if i < n {
      EncodedByLast(lines[..n], i);
    }
  }

  lemma {:induction false} DecodedOtherwise(lines: seq<Line>, i: nat, j: nat)
    requires Load(lines).Some? && Taken(lines, i, j)
    ensures lines[i].id in Load(lines).value.bytes && Load(lines).value.bytes[lines[i].id] != lines[i].bytes
  {
    var n := |lines| - 1;
    if j < n {
      DecodedOtherwise(lines[..n], i, j);
    }
  }

  /** Encoding and decoding agree if and only if no later line takes the id of a
      string's last line for another string. */
  lemma ConsistentExactly(lines: seq<Line>)
    requires Load(lines).Some?
    ensures Consistent(Load(lines).value) <==> NoneTaken(lines)
  {
    var v := Load(lines).value;
    if NoneTaken(lines) {
      forall b | b in v.ids
        ensures v.ids[b] in v.bytes && v.bytes[v.ids[b]] == b
      {
        var i := LineOfBytes(lines, b);
        var j := LineOfId(lines, i);
        assert !Taken(lines, i, j);
      }
    }
    if i: nat, j: nat :| Taken(lines, i, j) {
      EncodedByLast(lines, i);
      DecodedOtherwise(lines, i, j);
    }
  }

  /** Repeating an id loses the earlier string, unless a later line gives that
      string another id. */
  lemma RepeatedIds()
    ensures var lines := [Entry(1, "a"), Entry(1, "b")];
      && Load(lines).Some? && !Consistent(Load(lines).value)
      && Load(lines + [Entry(2, "a")]).Some? && Consistent(Load(lines + [Entry(2, "a")]).value)
  {
    var two, three := [Entry(1, "a"), Entry(1, "b")], [Entry(1, "a"), Entry(1, "b"), Entry(2, "a")];
    assert two + [Entry(2, "a")] == three;
    WellFormedLoads(two);
    WellFormedLoads(three);
    ConsistentExactly(two);
    ConsistentExactly(three);
    assert Taken(two, 0, 1);
    assert !LastForBytes(three, 0);
  }

  lemma {:induction false} WellFormedLoads(lines: seq<Line>)
    requires forall i :: 0 <= i < |lines| ==> !lines[i].Malformed?
    ensures Load(lines).Some?
  {
    if lines != [] {
      WellFormedLoads(lines[..|lines| - 1]);
    }
  }

  // ---- encoding ----

  /** The longest non-empty prefix of `text`, of at most `limit` bytes, in the
      vocabulary; 0 if there is none. */
  function Longest(v: map<Bytes, nat>, text: Bytes, limit: nat): (n: nat)
    requires limit <= |text|
    ensures n <= limit && (n > 0 ==> text[..n] in v)
    ensures forall k :: n < k <= limit ==> text[..k] !in v
  {
    if limit == 0 then 0 else if text[..limit] in v then limit else Longest(v, text, limit - 1)
  }

  /** The greedy parse, if it does not get stuck. */
  function Parse(v: map<Bytes, nat>, text: Bytes): Option<seq<nat>>
    decreases |text|
  {
    if text == [] then Some([])
    else
      var n := Longest(v, text, |text|);
      if n == 0 then None
      else
        match Parse(v, text[n..])
        case None => None
        case Some(rest) => Some([v[text[..n]]] + rest)
  }

  function Prepend(ids: seq<nat>, rest: Option<seq<nat>>): (r: Option<seq<nat>>)
    ensures ids == [] ==> r == rest
  {
    match rest
    case None => None
    case Some(more) =>
      assert [] + more == more;
      Some(ids + more)
  }

  lemma ParseEmpty(v: map<Bytes, nat>)
    ensures Parse(v, []) == Some([])
  {
  }

  lemma ParseStep(v: map<Bytes, nat>, text: Bytes, ids: seq<nat>)
    requires text != []
    ensures var n := Longest(v, text, |text|);
      Prepend(ids, Parse(v, text)) == if n == 0 then None else Prepend(ids + [v[text[..n]]], Parse(v, text[n..]))
  {
    var n := Longest(v, text, |text|);
    if n > 0 && Parse(v, text[n..]).Some? {
      var rest := Parse(v, text[n..]).value;
      assert ids + ([v[text[..n]]] + rest) == ids + [v[text[..n]]] + rest;
    }
  }

  function Decode(bytes: map<nat, Bytes>, ids: seq<nat>): Bytes {
    if ids == [] then [] else (if ids[0] in bytes then bytes[ids[0]] else []) + Decode(bytes, ids[1..])
  }

  /** A parse that does not get stuck decodes to its text, and is empty only for
      the empty text. */
  lemma {:induction false} ParseDecodes(v: Vocabulary, text: Bytes)
    requires Consistent(v) && Parse(v.ids, text).Some?
    ensures Decode(v.bytes, Parse(v.ids, text).value) == text
    ensures Parse(v.ids, text).value == [] <==> text == []
    decreases |text|
  {
    if text != [] {
      var n := Longest(v.ids, text, |text|);
      ParseDecodes(v, text[n..]);
      var rest := Parse(v.ids, text[n..]).value;
      assert ([v.ids[text[..n]]] + rest)[1..] == rest;
      assert text[..n] + text[n..] == text;
    }
  }

  class Tokenizer {
    var trie: Trie
    var idToBytes: seq<Bytes>

    ghost var path: seq<Bytes>
    ghost var vocabulary: Vocabulary

    /** The trie and the id table agree with the vocabulary. */
    ghost predicate Valid()
      reads this
    {
      && Shaped(trie, path) && [] !in vocabulary.ids
      && (forall b :: Lookup(trie, b) == if b in vocabulary.ids then Some(vocabulary.ids[b]) else None)
      && (forall id :: id in vocabulary.bytes <==> 0 <= id < |idToBytes| && idToBytes[id] != [])
      && (forall id <- vocabulary.bytes :: vocabulary.bytes[id] == idToBytes[id])
    }

    constructor ()
      ensures Valid() && vocabulary == Vocabulary(map[], map[])
    {
      trie, idToBytes, path, vocabulary := [TrieNode(map[], -1)], [], [[]], Vocabulary(map[], map[]);
      new;
      forall b
        ensures Lookup(trie, b) == None
      {
        assert b != [] ==> Walk(trie, 0, b) == None;
      }
    }

    /** The node for `bytes`, made if it is missing (load_rwkv_vocab, 119-130). */
    method Descend(bytes: Bytes) returns (node: nat)
      requires Valid()
      modifies this`trie, this`path
      ensures Valid() && node < |trie| && Walk(trie, 0, bytes) == Some(node)
    {
      node := 0;
      for i := 0 to |bytes|
        invariant Valid() && node < |trie| && Walk(trie, 0, bytes[..i]) == Some(node)
      {
        var c := bytes[i];
        assert bytes[..i + 1] == bytes[..i] + [c];
        if c in trie[node].next {
          WalkAppend(trie, 0, bytes[..i], [c]);
          node := trie[node].next[c];
          assert Walk(trie, node, [c][1..]) == Some(node);
        } else {
          GrownShaped(trie, path, node, c);
          GrownWalk(trie, path, node, c, 0, bytes[..i]);
          WalkAppend(Grown(trie, node, c), 0, bytes[..i], [c]);
          path := path + [path[node] + [c]];
          trie, node := Grown(trie, node, c), |trie|;
        }
      }
      assert bytes[..|bytes|] == bytes;
    }

    method Add(id: nat, bytes: Bytes)
      requires Valid() && bytes != []
      modifies this
      ensures Valid()
      ensures vocabulary == Vocabulary(old(vocabulary).ids[bytes := id], old(vocabulary).bytes[id := bytes])
      ensures |trie| > 1
    {
      if id >= |idToBytes| {
        idToBytes := idToBytes + seq(id + 1 - |idToBytes|, _ => []);
      }
      idToBytes := idToBytes[id := bytes];
      vocabulary := Vocabulary(vocabulary.ids, vocabulary.bytes[id := bytes]);
      var node := Descend(bytes);
      StoredToken(trie, path, bytes, node, id);
      WalkPath(trie, path, 0, bytes);
      assert node != 0;
      trie := trie[node := TrieNode(trie[node].next, id)];
      vocabulary := Vocabulary(vocabulary.ids[bytes := id], vocabulary.bytes);
    }

    /** load_rwkv_vocab, from the lines' ids and literals. */
    method LoadVocabulary(lines: seq<Line>) returns (ok: bool)
      requires forall i :: 0 <= i < |lines| && lines[i].Entry? ==> lines[i].bytes != []
      modifies this
      ensures Valid()
      ensures Load(lines).Some? ==> vocabulary == Load(lines).value
      ensures ok <==> Load(lines).Some? && exists i :: 0 <= i < |lines| && lines[i].Entry?
    {
      trie, idToBytes, path, vocabulary := [TrieNode(map[], -1)], [], [[]], Vocabulary(map[], map[]);
      for i := 0 to |lines|
        invariant Valid() && Load(lines[..i]) == Some(vocabulary)
        invariant |trie| > 1 <==> exists j :: 0 <= j < i && lines[j].Entry?
      {
        assert lines[..i + 1][..i] == lines[..i];
        match lines[i]
        case Skipped =>
        case Malformed => {
          StaysMalformed(lines, i + 1);
          return false;
        }
        case Entry(id, bytes) => {
          Add(id, bytes);
        }
      }
      assert lines[..|lines|] == lines;
      ok := |trie| > 1;
    }

    /** encode_rwkv. */
    method Encode(text: Bytes) returns (ids: seq<nat>)
      requires Valid()
      ensures ids == match Parse(vocabulary.ids, text) case Some(all) => all case None => []
    {
      hide Shaped, Lookup, Longest, Parse;
      ids := [];
      var pos := 0;
      ghost var v := vocabulary.ids;
      assert text[0..] == text;
      ParseEmpty(v);
      while pos < |text|
        invariant 0 <= pos <= |text|
        invariant Parse(v, text) == Prepend(ids, Parse(v, text[pos..]))
      {
        var token, length := LongestMatch(text[pos..]);
        ParseStep(v, text[pos..], ids);
        if token.None? {
          return [];
        }
        assert text[pos..][length..] == text[pos + length..];
        ids := ids + [token.value];
        pos := pos + length;
      }
      assert text[pos..] == [];
    }

    /** The inner loop of encode_rwkv, on the text from the current position. */
    method LongestMatch(text: Bytes) returns (token: Option<nat>, length: nat)
      requires Valid() && text != []
      ensures length == Longest(vocabulary.ids, text, |text|)
      ensures token == if length == 0 then None else Some(vocabulary.ids[text[..length]])
    {
      token, length := None, 0;
      var node, cursor := 0, 0;
      ghost var v := vocabulary.ids;
      var stuck := false;
      while cursor < |text| && !stuck
        invariant 0 <= cursor <= |text| && length <= cursor && node < |trie|
        invariant !stuck ==> Walk(trie, 0, text[..cursor]) == Some(node)
        invariant length == Longest(v, text, cursor)
        invariant token == if length == 0 then None else Some(v[text[..length]])
        invariant stuck ==> forall k :: cursor < k <= |text| ==> text[..k] !in v
        decreases |text| - cursor, !stuck
      {
        var c := text[cursor];
        if c !in trie[node].next {
          NoLongerMatch(text, cursor, node);
          stuck := true;
        } else {
          assert text[..cursor + 1] == text[..cursor] + [c];
          WalkAppend(trie, 0, text[..cursor], [c]);
          node := trie[node].next[c];
          assert Walk(trie, node, [c][1..]) == Some(node);
          cursor := cursor + 1;
          assert Lookup(trie, text[..cursor]) == if trie[node].token >= 0 then Some(trie[node].token) else None;
          if trie[node].token >= 0 {
            token, length := Some(trie[node].token), cursor;
          }
        }
      }
      SameLongest(v, text, cursor);
    }

    lemma NoLongerMatch(text: Bytes, cursor: nat, node: nat)
      requires Valid() && cursor < |text| && Walk(trie, 0, text[..cursor]) == Some(node) && node < |trie|
      requires text[cursor] !in trie[node].next
      ensures forall k :: cursor < k <= |text| ==> text[..k] !in vocabulary.ids
    {
      forall k | cursor < k <= |text|
        ensures text[..k] !in vocabulary.ids
      {
        assert text[..k] == text[..cursor] + text[cursor..k];
        WalkAppend(trie, 0, text[..cursor], text[cursor..k]);
        assert Lookup(trie, text[..k]) == None;
      }
    }
  }

  lemma {:induction false} StaysMalformed(lines: seq<Line>, n: nat)
    requires n <= |lines| && Load(lines[..n]).None?
    ensures Load(lines).None?
    decreases |lines|
  {
    if n < |lines| {
      assert lines[..|lines| - 1][..n] == lines[..n];
      StaysMalformed(lines[..|lines| - 1], n);
    } else {
      assert lines[..n] == lines;
    }
  }

  lemma {:induction false} SameLongest(v: map<Bytes, nat>, text: Bytes, n: nat)
    requires n <= |text| && forall k :: n < k <= |text| ==> text[..k] !in v
    ensures Longest(v, text, |text|) == Longest(v, text, n)
  {
    LongestCut(v, text, n, |text|);
  }

  lemma {:induction false} LongestCut(v: map<Bytes, nat>, text: Bytes, n: nat, m: nat)
    requires n <= m <= |text| && forall k :: n < k <= m ==> text[..k] !in v
    ensures Longest(v, text, m) == Longest(v, text, n)
    decreases m
  {
    if m > n {
      LongestCut(v, text, n, m - 1);
    }
  }

  function Ids(v: Vocabulary, text: Bytes): seq<nat> {
    match Parse(v.ids, text) case Some(all) => all case None => []
  }

  /** Over a whole vocabulary file: encoding gives nothing exactly for the empty text
      or when the greedy parse gets stuck; and every other text decodes back if and
      only if no string's id is taken by a later line. */
  lemma EncodingRoundTrips(lines: seq<Line>)
    requires Load(lines).Some? && forall i :: 0 <= i < |lines| && lines[i].Entry? ==> lines[i].bytes != []
    ensures var v := Load(lines).value;
      && (forall text :: Ids(v, text) == [] <==> text == [] || Parse(v.ids, text).None?)
      && ((forall text :: Parse(v.ids, text).Some? ==> Decode(v.bytes, Ids(v, text)) == text) <==> NoneTaken(lines))
  {
    var v := Load(lines).value;
    ConsistentExactly(lines);
    if Consistent(v) {
      forall text | Parse(v.ids, text).Some?
        ensures Decode(v.bytes, Ids(v, text)) == text
      {
        ParseDecodes(v, text);
      }
    } else {
      var b :| b in v.ids && !(v.ids[b] in v.bytes && v.bytes[v.ids[b]] == b);
      var i := LineOfBytes(lines, b);
      OneToken(v, b);
    }
  }

  /** A vocabulary string is parsed as itself. */
  lemma OneToken(v: Vocabulary, b: Bytes)
    requires b in v.ids && b != []
    ensures Parse(v.ids, b) == Some([v.ids[b]])
    ensures Decode(v.bytes, [v.ids[b]]) == if v.ids[b] in v.bytes then v.bytes[v.ids[b]] else []
  {
    assert b[..|b|] == b && b[|b|..] == [];
    assert Longest(v.ids, b, |b|) == |b|;
    ParseEmpty(v.ids);
    assert [v.ids[b]] + [] == [v.ids[b]];
  }
}
