/** The binary graph format of graph/io.cpp: what the writer produces, what the
    reader accepts, and when reading undoes writing. */
module GraphIo {
  import opened Wrappers
  import opened Graph

  const GRAPH_MAGIC: u32 := 0x4D4C4C47
  const GRAPH_VERSION: u32 := 3
  const MAX_GRAPH_NODES := 1_000_000
  const MAX_COLLECTION_ITEMS := 16_000_000
  const MAX_METADATA_ITEMS := 1_000_000
  const MAX_STRING_BYTES := 64 * 1024 * 1024
  const MIN_SERIALIZED_NODE_BYTES := 92
  const U32_LIMIT := 0x1_0000_0000

  // ---- numbers, little-endian ----

  function EncodeU32(x: u32): (r: Bytes)
    ensures |r| == 4
  {
    [(x % 256) as char, (x / 256 % 256) as char, (x / 65536 % 256) as char, (x / 16777216) as char]
  }

  function DecodeU32(s: Bytes): u32
    requires |s| == 4
  {
    s[0] as int + 256 * s[1] as int + 65536 * s[2] as int + 16777216 * s[3] as int
  }

  lemma U32RoundTrip(x: u32)
    ensures DecodeU32(EncodeU32(x)) == x
  {
    var a := x / 256;
    var b := a / 256;
    assert x == x % 256 + 256 * a && a == a % 256 + 256 * b;
    Quotients(x, a, b);
  }

  lemma Quotients(x: u32, a: int, b: int)
    requires a == x / 256 && b == a / 256
    ensures x / 65536 == b && x / 16777216 == b / 256
  {
  }

  function Unsigned(x: i32): u32 {
    if x < 0 then x + U32_LIMIT else x
  }

  function Signed(x: u32): (r: i32)
    ensures Unsigned(r) == x
  {
    if x < 0x8000_0000 then x else x - U32_LIMIT
  }

  function EncodeI64(x: i64): (r: Bytes)
    ensures |r| == 8
  {
    var u := if x < 0 then x + U32_LIMIT * U32_LIMIT else x;
    EncodeU32(u % U32_LIMIT) + EncodeU32(u / U32_LIMIT)
  }

  function DecodeI64(s: Bytes): i64
    requires |s| == 8
  {
    var u := DecodeU32(s[..4]) + U32_LIMIT * DecodeU32(s[4..]);
    if u < 0x8000_0000 * U32_LIMIT then u else u - U32_LIMIT * U32_LIMIT
  }

  lemma I64RoundTrip(x: i64)
    ensures DecodeI64(EncodeI64(x)) == x
  {
    var u := if x < 0 then x + U32_LIMIT * U32_LIMIT else x;
    U32RoundTrip(u % U32_LIMIT);
    U32RoundTrip(u / U32_LIMIT);
    hide EncodeU32, DecodeU32;
    assert EncodeI64(x)[..4] == EncodeU32(u % U32_LIMIT) && EncodeI64(x)[4..] == EncodeU32(u / U32_LIMIT);
  }

  // ---- what reading some bytes yields ----

  datatype Read<T> = Fail | Done(value: T, rest: Bytes)

  function Take(s: Bytes, n: nat): (r: Read<Bytes>)
    ensures r.Done? ==> |r.value| == n
  {
    if n > |s| then Fail else Done(s[..n], s[n..])
  }

  function TakeU32(s: Bytes): Read<u32> {
    if |s| < 4 then Fail else Done(DecodeU32(s[..4]), s[4..])
  }

  function TakeI64(s: Bytes): Read<i64> {
    if |s| < 8 then Fail else Done(DecodeI64(s[..8]), s[8..])
  }

  lemma TakeWritten(a: Bytes, rest: Bytes)
    ensures Take(a + rest, |a|) == Done(a, rest)
  {
    assert (a + rest)[..|a|] == a && (a + rest)[|a|..] == rest;
  }

  lemma TakeU32Written(x: u32, rest: Bytes)
    ensures TakeU32(EncodeU32(x) + rest) == Done(x, rest)
  {
    TakeWritten(EncodeU32(x), rest);
    U32RoundTrip(x);
  }

  lemma TakeI64Written(x: i64, rest: Bytes)
    ensures TakeI64(EncodeI64(x) + rest) == Done(x, rest)
  {
    TakeWritten(EncodeI64(x), rest);
    I64RoundTrip(x);
  }

  /** A count field and its bound (read_count). */
  function TakeCount(s: Bytes, maximum: int): Read<u32> {
    match TakeU32(s)
    case Fail => Fail
    case Done(n, rest) => if n <= maximum then Done(n, rest) else Fail
  }

  // ---- arrays of u32 (read_vector, write_vector) ----

  function EncodeU32s(v: seq<u32>): (r: Bytes)
    ensures |r| == 4 * |v|
  {
    if v == [] then [] else EncodeU32(v[0]) + EncodeU32s(v[1..])
  }

  function DecodeU32s(s: Bytes, n: nat): (r: seq<u32>)
    requires |s| == 4 * n
    ensures |r| == n
  {
    if n == 0 then [] else [DecodeU32(s[..4])] + DecodeU32s(s[4..], n - 1)
  }

  lemma {:induction false} U32sRoundTrip(v: seq<u32>)
    ensures DecodeU32s(EncodeU32s(v), |v|) == v
  {
    if v != [] {
      U32RoundTrip(v[0]);
      U32sRoundTrip(v[1..]);
      var s := EncodeU32s(v);
      assert s[..4] == EncodeU32(v[0]) && s[4..] == EncodeU32s(v[1..]);
    }
  }

  /** A counted array: both of the reader's size guards. */
  function TakeU32s(s: Bytes): Read<seq<u32>> {
    match TakeCount(s, MAX_COLLECTION_ITEMS)
    case Fail => Fail
    case Done(n, rest) =>
      if n > |rest| / 4 then Fail else Done(DecodeU32s(rest[..4 * n], n), rest[4 * n..])
  }

  function PutU32s(v: seq<u32>): Bytes
    requires |v| < 0x1_0000_0000
  {
    EncodeU32(|v|) + EncodeU32s(v)
  }

  lemma TakeU32sWritten(v: seq<u32>, rest: Bytes)
    requires |v| < 0x1_0000_0000
    ensures TakeU32s(PutU32s(v) + rest) == if |v| <= MAX_COLLECTION_ITEMS then Done(v, rest) else Fail
  {
    assert PutU32s(v) + rest == EncodeU32(|v|) + (EncodeU32s(v) + rest);
    TakeU32Written(|v|, EncodeU32s(v) + rest);
    TakeWritten(EncodeU32s(v), rest);
    U32sRoundTrip(v);
  }

  function ToUnsigned(v: seq<i32>): (r: seq<u32>)
    ensures |r| == |v|
  {
    seq(|v|, i requires 0 <= i < |v| => Unsigned(v[i]))
  }

  function ToSigned(v: seq<u32>): (r: seq<i32>)
    ensures |r| == |v| && ToUnsigned(r) == v
  {
    seq(|v|, i requires 0 <= i < |v| => Signed(v[i]))
  }

  lemma SignedUnique(v: seq<i32>)
    ensures ToSigned(ToUnsigned(v)) == v
  {
  }

  // ---- strings ----

  function TakeString(s: Bytes): Read<Bytes> {
    match TakeU32(s)
    case Fail => Fail
    case Done(n, rest) => if n > MAX_STRING_BYTES then Fail else Take(rest, n)
  }

  function PutString(v: Bytes): (r: Bytes)
    requires |v| < 0x1_0000_0000
    ensures |r| >= 4
  {
    EncodeU32(|v|) + v
  }

  lemma TakeStringWritten(v: Bytes, rest: Bytes)
    requires |v| < 0x1_0000_0000
    ensures TakeString(PutString(v) + rest) == if |v| <= MAX_STRING_BYTES then Done(v, rest) else Fail
  {
    assert PutString(v) + rest == EncodeU32(|v|) + (v + rest);
    TakeU32Written(|v|, v + rest);
    TakeWritten(v, rest);
  }

  predicate Writable(v: seq<Bytes>) {
    forall i :: 0 <= i < |v| ==> |v[i]| < U32_LIMIT
  }

  predicate Readable(v: seq<Bytes>) {
    forall i :: 0 <= i < |v| ==> |v[i]| <= MAX_STRING_BYTES
  }

  function PutStrings(v: seq<Bytes>): (r: Bytes)
    requires Writable(v)
    ensures |r| >= 4 * |v|
  {
    if v == [] then [] else PutString(v[0]) + PutStrings(v[1..])
  }

  function TakeStrings(s: Bytes, n: nat): Read<seq<Bytes>> {
    if n == 0 then Done([], s)
    else
      match TakeString(s)
      case Fail => Fail
      case Done(v, rest) =>
        match TakeStrings(rest, n - 1)
        case Fail => Fail
        case Done(more, after) => Done([v] + more, after)
  }

  lemma {:induction false} TakeStringsWritten(v: seq<Bytes>, rest: Bytes)
    requires Writable(v)
    ensures TakeStrings(PutStrings(v) + rest, |v|) == if Readable(v) then Done(v, rest) else Fail
  {
    hide TakeString, PutString;
    if v == [] {
      assert [] + rest == rest;
    } else {
      assert PutStrings(v) + rest == PutString(v[0]) + (PutStrings(v[1..]) + rest);
      TakeStringWritten(v[0], PutStrings(v[1..]) + rest);
      TakeStringsWritten(v[1..], rest);
      assert Readable(v) <==> |v[0]| <= MAX_STRING_BYTES && Readable(v[1..]);
      assert [v[0]] + v[1..] == v;
    }
  }

  // ---- metadata: key and value strings in turn ----

  function Flatten(entries: seq<(Bytes, Bytes)>): (r: seq<Bytes>)
    ensures |r| == 2 * |entries|
  {
    if entries == [] then [] else [entries[0].0, entries[0].1] + Flatten(entries[1..])
  }

  /** Later entries win. */
  function MapOf(strings: seq<Bytes>): map<Bytes, Bytes>
    decreases |strings|
  {
    if |strings| < 2 then map[]
    else MapOf(strings[..|strings| - 2])[strings[|strings| - 2] := strings[|strings| - 1]]
  }

  /** `entries` lists a map in some order. */
  ghost predicate Enumerates(entries: seq<(Bytes, Bytes)>, m: map<Bytes, Bytes>) {
    && |entries| == |m|
    && (forall i :: 0 <= i < |entries| ==> entries[i].0 in m && m[entries[i].0] == entries[i].1)
    && (forall k <- m :: (k, m[k]) in entries)
  }

  lemma {:induction false} FlattenSnoc(entries: seq<(Bytes, Bytes)>, e: (Bytes, Bytes))
    ensures Flatten(entries + [e]) == Flatten(entries) + [e.0, e.1]
  {
    if entries != [] {
      assert (entries + [e])[1..] == entries[1..] + [e];
      FlattenSnoc(entries[1..], e);
    } else {
      assert (entries + [e])[1..] == [];
    }
  }

  lemma {:induction false} MapOfFlat(entries: seq<(Bytes, Bytes)>, m: map<Bytes, Bytes>)
    requires forall i :: 0 <= i < |entries| ==> entries[i].0 in m && m[entries[i].0] == entries[i].1
    ensures var r := MapOf(Flatten(entries));
      && (forall k <- r :: k in m && r[k] == m[k])
      && forall i :: 0 <= i < |entries| ==> entries[i].0 in r
  {
    if entries != [] {
      var n := |entries| - 1;
      MapOfFlat(entries[..n], m);
      FlattenSnoc(entries[..n], entries[n]);
      assert entries == entries[..n] + [entries[n]];
      var flat := Flatten(entries);
      assert flat[..|flat| - 2] == Flatten(entries[..n]);
    }
  }

  /** Reading the entries back in any order of writing gives the map. */
  lemma MapRoundTrip(entries: seq<(Bytes, Bytes)>, m: map<Bytes, Bytes>)
    requires Enumerates(entries, m)
    ensures MapOf(Flatten(entries)) == m
  {
    MapOfFlat(entries, m);
    forall k | k in m
      ensures k in MapOf(Flatten(entries))
    {
      var i :| 0 <= i < |entries| && entries[i] == (k, m[k]);
    }
  }

  // ---- nodes ----

  function PutDim(d: DimExpr): (r: Bytes)
    ensures |r| == 8
  {
    var kind := if d.kind < 0 then d.kind + 256 else d.kind;
    [kind as char, 0 as char, 0 as char, 0 as char] + EncodeU32(Unsigned(d.coeff))
  }

  /** The three padding bytes are ignored. */
  function TakeDim(s: Bytes): Read<DimExpr> {
    match Take(s, 8)
    case Fail => Fail
    case Done(b, rest) =>
      var kind := b[0] as int;
      Done(DimExpr(if kind < 128 then kind else kind - 256, Signed(DecodeU32(b[4..]))), rest)
  }

  lemma TakeDimWritten(d: DimExpr, rest: Bytes)
    ensures TakeDim(PutDim(d) + rest) == Done(d, rest)
  {
    TakeWritten(PutDim(d), rest);
    U32RoundTrip(Unsigned(d.coeff));
    hide EncodeU32, DecodeU32;
    assert PutDim(d)[4..] == EncodeU32(Unsigned(d.coeff));
  }

  function PutDims(d: Four<DimExpr>): (r: Bytes)
    ensures |r| == 32
  {
    PutDim(d.x0) + (PutDim(d.x1) + (PutDim(d.x2) + PutDim(d.x3)))
  }

  function TakeDims(s: Bytes): Read<Four<DimExpr>> {
    match TakeDim(s)
    case Fail => Fail
    case Done(a, s1) =>
      match TakeDim(s1)
      case Fail => Fail
      case Done(b, s2) =>
        match TakeDim(s2)
        case Fail => Fail
        case Done(c, s3) =>
          match TakeDim(s3)
          case Fail => Fail
          case Done(d, s4) => Done(Four(a, b, c, d), s4)
  }

  lemma Regroup(a: Bytes, b: Bytes, c: Bytes, d: Bytes, rest: Bytes)
    ensures a + (b + (c + d)) + rest == a + (b + (c + (d + rest)))
  {
  }

  lemma TakeDimsWritten(d: Four<DimExpr>, rest: Bytes)
    ensures TakeDims(PutDims(d) + rest) == Done(d, rest)
  {
    hide TakeDim, PutDim;
    Regroup(PutDim(d.x0), PutDim(d.x1), PutDim(d.x2), PutDim(d.x3), rest);
    TakeDimWritten(d.x0, PutDim(d.x1) + (PutDim(d.x2) + (PutDim(d.x3) + rest)));
    TakeDimWritten(d.x1, PutDim(d.x2) + (PutDim(d.x3) + rest));
    TakeDimWritten(d.x2, PutDim(d.x3) + rest);
    TakeDimWritten(d.x3, rest);
  }

  function PutShape(d: Four<i64>): (r: Bytes)
    ensures |r| == 32
  {
    EncodeI64(d.x0) + (EncodeI64(d.x1) + (EncodeI64(d.x2) + EncodeI64(d.x3)))
  }

  function TakeShape(s: Bytes): Read<Four<i64>> {
    match TakeI64(s)
    case Fail => Fail
    case Done(a, s1) =>
      match TakeI64(s1)
      case Fail => Fail
      case Done(b, s2) =>
        match TakeI64(s2)
        case Fail => Fail
        case Done(c, s3) =>
          match TakeI64(s3)
          case Fail => Fail
          case Done(d, s4) => Done(Four(a, b, c, d), s4)
  }

  lemma TakeShapeWritten(d: Four<i64>, rest: Bytes)
    ensures TakeShape(PutShape(d) + rest) == Done(d, rest)
  {
    hide TakeI64, EncodeI64;
    Regroup(EncodeI64(d.x0), EncodeI64(d.x1), EncodeI64(d.x2), EncodeI64(d.x3), rest);
    TakeI64Written(d.x0, EncodeI64(d.x1) + (EncodeI64(d.x2) + (EncodeI64(d.x3) + rest)));
    TakeI64Written(d.x1, EncodeI64(d.x2) + (EncodeI64(d.x3) + rest));
    TakeI64Written(d.x2, EncodeI64(d.x3) + rest);
    TakeI64Written(d.x3, rest);
  }

  predicate WritableParams(p: Params) {
    |p.i32s| < U32_LIMIT && |p.f32s| < U32_LIMIT && |p.strs| < U32_LIMIT && Writable(p.strs)
  }

  predicate ReadableParams(p: Params) {
    && |p.i32s| <= MAX_COLLECTION_ITEMS && |p.f32s| <= MAX_COLLECTION_ITEMS && |p.strs| <= MAX_COLLECTION_ITEMS
    && Readable(p.strs)
  }

  function PutParams(p: Params): (r: Bytes)
    requires WritableParams(p)
    ensures |r| >= 12
  {
    PutU32s(ToUnsigned(p.i32s)) + (PutU32s(p.f32s) + (EncodeU32(|p.strs|) + PutStrings(p.strs)))
  }

  function TakeParams(s: Bytes): Read<Params> {
    match TakeU32s(s)
    case Fail => Fail
    case Done(ints, s1) =>
      match TakeU32s(s1)
      case Fail => Fail
      case Done(floats, s2) =>
        match TakeCount(s2, MAX_COLLECTION_ITEMS)
        case Fail => Fail
        case Done(n, s3) =>
          if n > |s3| / 4 then Fail
          else
            match TakeStrings(s3, n)
            case Fail => Fail
            case Done(strs, s4) => Done(Params(ToSigned(ints), floats, strs), s4)
  }

  lemma TakeParamsWritten(p: Params, rest: Bytes)
    requires WritableParams(p)
    ensures TakeParams(PutParams(p) + rest) == if ReadableParams(p) then Done(p, rest) else Fail
  {
    hide TakeU32s, PutU32s, TakeU32, EncodeU32, TakeStrings, PutStrings, Readable, ToSigned, ToUnsigned;
    var a, b, c, d := PutU32s(ToUnsigned(p.i32s)), PutU32s(p.f32s), EncodeU32(|p.strs|), PutStrings(p.strs);
    Regroup(a, b, c, d, rest);
    TakeU32sWritten(ToUnsigned(p.i32s), b + (c + (d + rest)));
    SignedUnique(p.i32s);
    TakeU32sWritten(p.f32s, c + (d + rest));
    TakeU32Written(|p.strs|, d + rest);
    TakeStringsWritten(p.strs, rest);
  }

  predicate WritableNode(n: Node) {
    |n.inputs| < U32_LIMIT && WritableParams(n.params)
  }

  predicate ReadableNode(n: Node) {
    |n.inputs| <= MAX_COLLECTION_ITEMS && ReadableParams(n.params)
  }

  function PutNode(n: Node): (r: Bytes)
    requires WritableNode(n)
    ensures |r| >= MIN_SERIALIZED_NODE_BYTES
  {
    PutNodeWith(n, n.prec)
  }

  /** A node with any word in its precision field. */
  function PutNodeWith(n: Node, prec: u32): (r: Bytes)
    requires WritableNode(n)
    ensures |r| >= MIN_SERIALIZED_NODE_BYTES
  {
    EncodeU32(n.id) + (EncodeU32(n.op) + (PutU32s(n.inputs) + (PutShape(n.shape) + (PutDims(n.dims) + (EncodeU32(prec) + PutParams(n.params))))))
  }

  /** The precision field is narrowed to one byte, whatever the file holds. */
  function TakeNode(s: Bytes): Read<Node> {
    hide TakeU32, TakeU32s, TakeShape, TakeDims, TakeParams;
    match TakeU32(s)
    case Fail => Fail
    case Done(id, s1) =>
      match TakeU32(s1)
      case Fail => Fail
      case Done(op, s2) =>
        match TakeU32s(s2)
        case Fail => Fail
        case Done(inputs, s3) =>
          match TakeShape(s3)
          case Fail => Fail
          case Done(shape, s4) =>
            match TakeDims(s4)
            case Fail => Fail
            case Done(dims, s5) =>
              match TakeU32(s5)
              case Fail => Fail
              case Done(prec, s6) =>
                match TakeParams(s6)
                case Fail => Fail
                case Done(params, s7) => Done(Node(id, op, inputs, params, shape, dims, prec % 256), s7)
  }

  lemma TakeNodeWritten(n: Node, rest: Bytes)
    requires WritableNode(n)
    ensures TakeNode(PutNode(n) + rest) == if ReadableNode(n) then Done(n, rest) else Fail
  {
    assert n.(prec := n.prec % 256) == n;
    hide TakeNode, PutNodeWith, ReadableNode;
    PrecisionIsNarrowed(n, n.prec, rest);
  }

  /** The precision is narrowed before it is validated: a word that is 256 too large
      reads as the valid one. */
  lemma PrecisionIsNarrowed(n: Node, word: u32, rest: Bytes)
    requires WritableNode(n)
    ensures TakeNode(PutNodeWith(n, word) + rest) == if ReadableNode(n) then Done(n.(prec := word % 256), rest) else Fail
  {
    hide TakeU32, EncodeU32, TakeU32s, PutU32s, TakeShape, PutShape, TakeDims, PutDims, TakeParams, PutParams, ReadableParams;
    var params := PutParams(n.params) + rest;
    var prec := EncodeU32(word) + params;
    var dims := PutDims(n.dims) + prec;
    var shape := PutShape(n.shape) + dims;
    var inputs := PutU32s(n.inputs) + shape;
    var op := EncodeU32(n.op) + inputs;
    assert PutNodeWith(n, word) + rest == EncodeU32(n.id) + op;
    TakeU32Written(n.id, op);
    TakeU32Written(n.op, inputs);
    TakeU32sWritten(n.inputs, shape);
    TakeShapeWritten(n.shape, dims);
    TakeDimsWritten(n.dims, prec);
    TakeU32Written(word, params);
    TakeParamsWritten(n.params, rest);
  }

  function PutNodes(v: seq<Node>): (r: Bytes)
    requires WritableNodes(v)
    ensures |r| >= MIN_SERIALIZED_NODE_BYTES * |v|
  {
    if v == [] then [] else PutNode(v[0]) + PutNodes(v[1..])
  }

  function TakeNodes(s: Bytes, n: nat): Read<seq<Node>>
    decreases n
  {
    hide TakeNode;
    if n == 0 then Done([], s)
    else
      match TakeNode(s)
      case Fail => Fail
      case Done(v, rest) =>
        match TakeNodes(rest, n - 1)
        case Fail => Fail
        case Done(more, after) => Done([v] + more, after)
  }

  predicate WritableNodes(v: seq<Node>) {
    forall i :: 0 <= i < |v| ==> WritableNode(v[i])
  }

  predicate ReadableNodes(v: seq<Node>) {
    forall i :: 0 <= i < |v| ==> ReadableNode(v[i])
  }

  lemma {:induction false} TakeNodesWritten(v: seq<Node>, rest: Bytes)
    requires WritableNodes(v)
    ensures TakeNodes(PutNodes(v) + rest, |v|) == if ReadableNodes(v) then Done(v, rest) else Fail
  {
    hide TakeNode, PutNode, ReadableNode;
    if v == [] {
      assert [] + rest == rest;
    } else {
      assert PutNodes(v) + rest == PutNode(v[0]) + (PutNodes(v[1..]) + rest);
      TakeNodeWritten(v[0], PutNodes(v[1..]) + rest);
      TakeNodesWritten(v[1..], rest);
      assert ReadableNodes(v) <==> ReadableNode(v[0]) && ReadableNodes(v[1..]);
      assert [v[0]] + v[1..] == v;
    }
  }

  /** Nodes with any words in their precision fields. */
  function PutNodesWith(v: seq<Node>, words: seq<u32>): (r: Bytes)
    requires WritableNodes(v) && |words| == |v|
    ensures |r| >= MIN_SERIALIZED_NODE_BYTES * |v|
  {
    if v == [] then [] else PutNodeWith(v[0], words[0]) + PutNodesWith(v[1..], words[1..])
  }

  function Narrowed(v: seq<Node>, words: seq<u32>): (r: seq<Node>)
    requires |words| == |v|
    ensures |r| == |v|
  {
    seq(|v|, i requires 0 <= i < |v| => v[i].(prec := words[i] % 256))
  }

  lemma {:induction false} TakeNodesNarrowed(v: seq<Node>, words: seq<u32>, rest: Bytes)
    requires WritableNodes(v) && |words| == |v|
    ensures TakeNodes(PutNodesWith(v, words) + rest, |v|) == if ReadableNodes(v) then Done(Narrowed(v, words), rest) else Fail
  {
    hide TakeNode, PutNodeWith, ReadableNode;
    if v == [] {
      assert [] + rest == rest;
    } else {
      var tail := PutNodesWith(v[1..], words[1..]);
      assert PutNodesWith(v, words) + rest == PutNodeWith(v[0], words[0]) + (tail + rest);
      PrecisionIsNarrowed(v[0], words[0], tail + rest);
      TakeNodesNarrowed(v[1..], words[1..], rest);
      assert ReadableNodes(v) <==> ReadableNode(v[0]) && ReadableNodes(v[1..]);
      assert [v[0].(prec := words[0] % 256)] + Narrowed(v[1..], words[1..]) == Narrowed(v, words);
    }
  }

  // ---- validation ----

  /** The codes that op_type_name knows (graph/graph.h:153-219). */
  predicate KnownOp(op: u32) {
    || op <= 1 || 10 <= op <= 11 || 20 <= op <= 25 || 30 <= op <= 32 || op == 40 || 50 <= op <= 54
    || 60 <= op <= 65 || 70 <= op <= 81 || 110 <= op <= 112 || op == 120 || 130 <= op <= 142
    || 150 <= op <= 153 || op == 157 || 160 <= op <= 163
  }

  const LAST_PRECISION := 16

  predicate ValidDim(d: DimExpr) {
    DIM_CONST <= d.kind <= DIM_DIV
  }

  predicate ValidNode(n: Node, index: nat) {
    && n.id == index && KnownOp(n.op) && n.prec <= LAST_PRECISION
    && ValidDim(n.dims.x0) && ValidDim(n.dims.x1) && ValidDim(n.dims.x2) && ValidDim(n.dims.x3)
    && forall k :: 0 <= k < |n.inputs| ==> n.inputs[k] < index
  }

  /** validate_graph: ids are indices and inputs come earlier. */
  predicate ValidGraph(g: Graph) {
    && |g.nodes| <= MAX_GRAPH_NODES
    && (forall i :: 0 <= i < |g.nodes| ==> ValidNode(g.nodes[i], i))
    && (forall k :: 0 <= k < |g.inputs| ==> g.inputs[k] < |g.nodes|)
    && (forall k :: 0 <= k < |g.outputs| ==> g.outputs[k] < |g.nodes|)
  }

  // ---- the legacy opcode ----

  predicate Legacy(g: Graph) {
    var key: Bytes := "model_type";
    key in g.metadata && g.metadata[key] == "hy-v4"
  }

  predicate NeedsMigration(g: Graph) {
    Legacy(g) && exists i :: 0 <= i < |g.nodes| && g.nodes[i].op == QSA_SDPA
  }

  predicate MigratableNode(n: Node) {
    n.op == QSA_SDPA ==> |n.inputs| >= 8 && |n.params.i32s| >= 10
  }

  function MigratedNode(n: Node): Node {
    if n.op == QSA_SDPA then n.(op := SDPA_MLA_ABSORB) else n
  }

  /** Only a graph that names itself hy-v4 has its opcode 52 reinterpreted. */
  function Migrated(g: Graph): Option<Graph> {
    if !Legacy(g) then Some(g)
    else if forall i :: 0 <= i < |g.nodes| ==> MigratableNode(g.nodes[i]) then
      Some(g.(nodes := seq(|g.nodes|, i requires 0 <= i < |g.nodes| => MigratedNode(g.nodes[i]))))
    else None
  }

  lemma MigrationStaysValid(g: Graph)
    requires Migrated(g).Some?
    ensures ValidGraph(Migrated(g).value) <==> ValidGraph(g)
  {
    var h := Migrated(g).value;
    forall i | 0 <= i < |g.nodes|
      ensures ValidNode(h.nodes[i], i) <==> ValidNode(g.nodes[i], i)
    {
    }
  }

  // ---- the whole file ----

  predicate EntriesWithin(m: map<Bytes, Bytes>, limit: int) {
    forall k <- m :: |k| <= limit && |m[k]| <= limit
  }

  predicate WritableGraph(g: Graph) {
    && |g.nodes| < U32_LIMIT && |g.metadata| < U32_LIMIT && |g.inputs| < U32_LIMIT && |g.outputs| < U32_LIMIT
    && EntriesWithin(g.metadata, U32_LIMIT - 1) && WritableNodes(g.nodes)
  }

  /** Within the reader's limits. */
  predicate ReadableGraph(g: Graph) {
    && |g.metadata| <= MAX_METADATA_ITEMS && |g.inputs| <= MAX_COLLECTION_ITEMS && |g.outputs| <= MAX_COLLECTION_ITEMS
    && EntriesWithin(g.metadata, MAX_STRING_BYTES) && ReadableNodes(g.nodes)
  }

  /** The reader's limits are the tighter ones. */
  lemma ReadableIsWritable(g: Graph)
    ensures ValidGraph(g) && ReadableGraph(g) ==> WritableGraph(g)
  {
    if ReadableGraph(g) {
      forall i | 0 <= i < |g.nodes|
        ensures WritableNode(g.nodes[i])
      {
        assert ReadableNode(g.nodes[i]);
      }
    }
  }

  lemma EntriesFit(entries: seq<(Bytes, Bytes)>, m: map<Bytes, Bytes>)
    requires Enumerates(entries, m)
    ensures EntriesWithin(m, MAX_STRING_BYTES) <==> Readable(Flatten(entries))
  {
    if Readable(Flatten(entries)) {
      forall k | k in m
        ensures |k| <= MAX_STRING_BYTES && |m[k]| <= MAX_STRING_BYTES
      {
        var i :| 0 <= i < |entries| && entries[i] == (k, m[k]);
        FlattenAt(entries, i);
      }
    }
    if EntriesWithin(m, MAX_STRING_BYTES) {
      FlattenWithin(entries, MAX_STRING_BYTES);
    }
  }

  lemma EntriesWritable(entries: seq<(Bytes, Bytes)>, m: map<Bytes, Bytes>)
    requires Enumerates(entries, m) && EntriesWithin(m, U32_LIMIT - 1)
    ensures Writable(Flatten(entries))
  {
    FlattenWithin(entries, U32_LIMIT - 1);
  }

  lemma {:induction false} FlattenAt(entries: seq<(Bytes, Bytes)>, i: nat)
    requires i < |entries|
    ensures Flatten(entries)[2 * i] == entries[i].0 && Flatten(entries)[2 * i + 1] == entries[i].1
  {
    if i > 0 {
      FlattenAt(entries[1..], i - 1);
    }
  }

  lemma {:induction false} FlattenWithin(entries: seq<(Bytes, Bytes)>, limit: int)
    requires forall i :: 0 <= i < |entries| ==> |entries[i].0| <= limit && |entries[i].1| <= limit
    ensures forall i :: 0 <= i < |Flatten(entries)| ==> |Flatten(entries)[i]| <= limit
  {
    if entries != [] {
      FlattenWithin(entries[1..], limit);
    }
  }

  /** write_graph with the metadata in the order `entries`. */
  function PutGraph(g: Graph, entries: seq<(Bytes, Bytes)>): Bytes
    requires WritableGraph(g) && Enumerates(entries, g.metadata)
  {
    PutFile(g, entries, PutNodes(g.nodes))
  }

  /** A file with any bytes for its nodes. */
  function PutFile(g: Graph, entries: seq<(Bytes, Bytes)>, nodes: Bytes): Bytes
    requires WritableGraph(g) && Enumerates(entries, g.metadata)
  {
    EntriesWritable(entries, g.metadata);
    EncodeU32(GRAPH_MAGIC) + (EncodeU32(GRAPH_VERSION) + (EncodeU32(|g.nodes|) + PutBody(g, entries, nodes)))
  }

  function PutBody(g: Graph, entries: seq<(Bytes, Bytes)>, nodes: Bytes): Bytes
    requires |entries| < 0x1_0000_0000 && Writable(Flatten(entries)) && |g.inputs| < 0x1_0000_0000 && |g.outputs| < 0x1_0000_0000
  {
    EncodeU32(|entries|) + (PutStrings(Flatten(entries)) + (PutU32s(g.inputs) + (PutU32s(g.outputs) + nodes)))
  }

  /** The three header words (read_graph, 219-229). */
  function TakeHeader(s: Bytes): Read<u32> {
    match TakeU32(s)
    case Fail => Fail
    case Done(magic, s1) =>
      if magic != GRAPH_MAGIC then Fail
      else
        match TakeU32(s1)
        case Fail => Fail
        case Done(version, s2) =>
          if version != GRAPH_VERSION then Fail
          else
            match TakeCount(s2, MAX_GRAPH_NODES)
            case Fail => Fail
            case Done(n, s3) => if n > |s3| / MIN_SERIALIZED_NODE_BYTES then Fail else Done(n, s3)
  }

  function TakeMetadata(s: Bytes): Read<map<Bytes, Bytes>> {
    match TakeCount(s, MAX_METADATA_ITEMS)
    case Fail => Fail
    case Done(n, s1) =>
      if n > |s1| / 8 then Fail
      else
        match TakeStrings(s1, 2 * n)
        case Fail => Fail
        case Done(strings, s2) => Done(MapOf(strings), s2)
  }

  /** read_graph before migration and validation; bytes after the last node are
      ignored. */
  function TakeGraph(s: Bytes): Option<Graph> {
    match TakeHeader(s)
    case Fail => None
    case Done(n, s1) => TakeBody(s1, n)
  }

  function TakeBody(s: Bytes, n: u32): Option<Graph> {
    hide TakeMetadata, TakeU32s, TakeNodes;
    match TakeMetadata(s)
    case Fail => None
    case Done(metadata, s2) =>
      match TakeU32s(s2)
      case Fail => None
      case Done(inputs, s3) =>
        match TakeU32s(s3)
        case Fail => None
        case Done(outputs, s4) =>
          match TakeNodes(s4, n)
          case Fail => None
          case Done(nodes, _) => Some(Graph(nodes, inputs, outputs, metadata))
  }

  /** read_graph: what a file loads as. */
  function Loaded(s: Bytes): Option<Graph> {
    match TakeGraph(s)
    case None => None
    case Some(g) =>
      match Migrated(g)
      case None => None
      case Some(h) => if ValidGraph(h) then Some(h) else None
  }

  lemma TakeHeaderWritten(n: u32, rest: Bytes)
    requires n <= MAX_GRAPH_NODES && |rest| >= MIN_SERIALIZED_NODE_BYTES * n
    ensures TakeHeader(EncodeU32(GRAPH_MAGIC) + (EncodeU32(GRAPH_VERSION) + (EncodeU32(n) + rest))) == Done(n, rest)
  {
    hide EncodeU32, TakeU32;
    TakeU32Written(GRAPH_MAGIC, EncodeU32(GRAPH_VERSION) + (EncodeU32(n) + rest));
    TakeU32Written(GRAPH_VERSION, EncodeU32(n) + rest);
    TakeU32Written(n, rest);
  }

  lemma TakeMetadataWritten(entries: seq<(Bytes, Bytes)>, m: map<Bytes, Bytes>, rest: Bytes)
    requires Enumerates(entries, m) && |entries| < 0x1_0000_0000 && Writable(Flatten(entries))
    ensures TakeMetadata(EncodeU32(|entries|) + (PutStrings(Flatten(entries)) + rest)) ==
      if |m| <= MAX_METADATA_ITEMS && Readable(Flatten(entries)) then Done(m, rest) else Fail
  {
    hide EncodeU32, TakeU32, TakeStrings, PutStrings, Readable, Flatten, MapOf;
    TakeU32Written(|entries|, PutStrings(Flatten(entries)) + rest);
    TakeStringsWritten(Flatten(entries), rest);
    MapRoundTrip(entries, m);
  }

  /** Reading undoes writing exactly within the reader's limits: none of the
      reader's early size checks refuses a written graph. */
  lemma TakeGraphWritten(g: Graph, entries: seq<(Bytes, Bytes)>)
    requires |g.nodes| <= MAX_GRAPH_NODES && WritableGraph(g) && Enumerates(entries, g.metadata)
    ensures TakeGraph(PutGraph(g, entries)) == if ReadableGraph(g) then Some(g) else None
  {
    hide TakeGraph, PutFile, PutNodes, TakeNodes, ReadableGraph;
    TakeNodesWritten(g.nodes, []);
    assert PutNodes(g.nodes) + [] == PutNodes(g.nodes);
    assert g.(nodes := g.nodes) == g;
    TakeFileWritten(g, entries, PutNodes(g.nodes), g.nodes);
  }

  /** The rest of the file reads back whatever the bytes of the nodes read as. */
  lemma TakeFileWritten(g: Graph, entries: seq<(Bytes, Bytes)>, nodes: Bytes, v: seq<Node>)
    requires |g.nodes| <= MAX_GRAPH_NODES && WritableGraph(g) && Enumerates(entries, g.metadata)
    requires |nodes| >= MIN_SERIALIZED_NODE_BYTES * |g.nodes|
    requires TakeNodes(nodes, |g.nodes|) == if ReadableNodes(g.nodes) then Done(v, []) else Fail
    ensures TakeGraph(PutFile(g, entries, nodes)) == if ReadableGraph(g) then Some(g.(nodes := v)) else None
  {
    EntriesWritable(entries, g.metadata);
    hide TakeHeader, TakeBody, EncodeU32, PutU32s, PutStrings, Flatten, ReadableGraph, ReadableNodes, TakeNodes;
    TakeHeaderWritten(|g.nodes|, PutBody(g, entries, nodes));
    TakeBodyWritten(g, entries, nodes, v);
  }

  lemma TakeBodyWritten(g: Graph, entries: seq<(Bytes, Bytes)>, nodes: Bytes, v: seq<Node>)
    requires |g.nodes| < 0x1_0000_0000 && |g.inputs| < 0x1_0000_0000 && |g.outputs| < 0x1_0000_0000
    requires Enumerates(entries, g.metadata) && |entries| < 0x1_0000_0000 && Writable(Flatten(entries))
    requires TakeNodes(nodes, |g.nodes|) == if ReadableNodes(g.nodes) then Done(v, []) else Fail
    ensures TakeBody(PutBody(g, entries, nodes), |g.nodes|) == if ReadableGraph(g) then Some(g.(nodes := v)) else None
  {
    var outputs := PutU32s(g.outputs) + nodes;
    var inputs := PutU32s(g.inputs) + outputs;
    assert PutBody(g, entries, nodes) == EncodeU32(|entries|) + (PutStrings(Flatten(entries)) + inputs);
    hide *;
    EntriesFit(entries, g.metadata);
    TakeMetadataWritten(entries, g.metadata, inputs);
    TakeU32sWritten(g.inputs, outputs);
    TakeU32sWritten(g.outputs, nodes);
    BodyOf(PutBody(g, entries, nodes), inputs, outputs, nodes, g, v);
  }

  lemma BodyOf(s: Bytes, inputs: Bytes, outputs: Bytes, nodes: Bytes, g: Graph, v: seq<Node>)
    requires |g.nodes| < 0x1_0000_0000
    requires TakeMetadata(s) ==
      if |g.metadata| <= MAX_METADATA_ITEMS && EntriesWithin(g.metadata, MAX_STRING_BYTES) then Done(g.metadata, inputs) else Fail
    requires TakeU32s(inputs) == if |g.inputs| <= MAX_COLLECTION_ITEMS then Done(g.inputs, outputs) else Fail
    requires TakeU32s(outputs) == if |g.outputs| <= MAX_COLLECTION_ITEMS then Done(g.outputs, nodes) else Fail
    requires TakeNodes(nodes, |g.nodes|) == if ReadableNodes(g.nodes) then Done(v, []) else Fail
    ensures TakeBody(s, |g.nodes|) == if ReadableGraph(g) then Some(g.(nodes := v)) else None
  {
    hide TakeMetadata, TakeU32s, TakeNodes, ReadableNodes, EntriesWithin;
  }

  /** Loading a saved graph returns it, apart from the hy-v4 opcode migration,
      exactly when it is within the reader's limits. */
  lemma RoundTrip(g: Graph, entries: seq<(Bytes, Bytes)>)
    requires ValidGraph(g) && WritableGraph(g) && Enumerates(entries, g.metadata)
    ensures Loaded(PutGraph(g, entries)) == if ReadableGraph(g) then Migrated(g) else None
    ensures Loaded(PutGraph(g, entries)) == Some(g) <==> ReadableGraph(g) && !NeedsMigration(g)
  {
    assert |g.nodes| <= MAX_GRAPH_NODES;
    hide *;
    TakeGraphWritten(g, entries);
    MigrationFixes(g);
    if Migrated(g).Some? {
      MigrationStaysValid(g);
      MigrationIsIdentityExactly(g);
    }
    LoadedFrom(PutGraph(g, entries), g);
  }

  lemma LoadedFrom(s: Bytes, g: Graph)
    requires TakeGraph(s).Some? ==> TakeGraph(s).value == g
    requires Migrated(g).Some? ==> (ValidGraph(Migrated(g).value) <==> ValidGraph(g))
    ensures Loaded(s) == if TakeGraph(s).Some? && ValidGraph(g) then Migrated(g) else None
  {
    hide TakeGraph, Migrated, ValidGraph;
  }

  predicate ValidPrecisions(words: seq<u32>) {
    forall i :: 0 <= i < |words| ==> words[i] % 256 <= LAST_PRECISION
  }

  /** The precision words of a file matter only modulo 256: it is accepted exactly
      if the low byte of each is a precision, and loads with those. A word of 256
      loads as FP32. */
  lemma PrecisionsAreNarrowed(g: Graph, entries: seq<(Bytes, Bytes)>, words: seq<u32>)
    requires ValidGraph(g) && WritableGraph(g) && Enumerates(entries, g.metadata) && |words| == |g.nodes|
    ensures Loaded(PutFile(g, entries, PutNodesWith(g.nodes, words))) ==
      if ReadableGraph(g) && ValidPrecisions(words) then Migrated(g.(nodes := Narrowed(g.nodes, words))) else None
  {
    assert |g.nodes| <= MAX_GRAPH_NODES && WritableNodes(g.nodes);
    hide *;
    NarrowedIsValid(g, words);
    TakeNarrowedFile(g, entries, words);
    var h := g.(nodes := Narrowed(g.nodes, words));
    if Migrated(h).Some? {
      MigrationStaysValid(h);
    }
    LoadedFrom(PutFile(g, entries, PutNodesWith(g.nodes, words)), h);
  }

  lemma TakeNarrowedFile(g: Graph, entries: seq<(Bytes, Bytes)>, words: seq<u32>)
    requires |g.nodes| <= MAX_GRAPH_NODES && WritableGraph(g) && Enumerates(entries, g.metadata) && |words| == |g.nodes|
    ensures TakeGraph(PutFile(g, entries, PutNodesWith(g.nodes, words))) ==
      if ReadableGraph(g) then Some(g.(nodes := Narrowed(g.nodes, words))) else None
  {
    hide TakeGraph, PutFile, PutNodesWith, Narrowed, TakeNodes, ReadableGraph;
    var nodes := PutNodesWith(g.nodes, words);
    TakeNodesNarrowed(g.nodes, words, []);
    assert nodes + [] == nodes;
    TakeFileWritten(g, entries, nodes, Narrowed(g.nodes, words));
  }

  lemma NarrowedIsValid(g: Graph, words: seq<u32>)
    requires ValidGraph(g) && |words| == |g.nodes|
    ensures ValidGraph(g.(nodes := Narrowed(g.nodes, words))) <==> ValidPrecisions(words)
  {
    var h := g.(nodes := Narrowed(g.nodes, words));
    forall i | 0 <= i < |words|
      ensures ValidNode(h.nodes[i], i) <==> words[i] % 256 <= LAST_PRECISION
    {
      assert ValidNode(g.nodes[i], i);
    }
  }

  /** The migration, exactly: it fails if some opcode 52 of an hy-v4 graph has fewer
      than 8 inputs or 10 integers, and otherwise renames 52 to 54 in hy-v4 graphs and
      changes nothing else. */
  lemma MigrationExactly(g: Graph)
    ensures var key: Bytes := "model_type";
      var legacy := key in g.metadata && g.metadata[key] == "hy-v4";
      && (Migrated(g).None? <==>
            legacy && exists i :: 0 <= i < |g.nodes| && g.nodes[i].op == 52 && (|g.nodes[i].inputs| < 8 || |g.nodes[i].params.i32s| < 10))
      && (Migrated(g).Some? ==>
            var h := Migrated(g).value;
            && h == g.(nodes := h.nodes) && |h.nodes| == |g.nodes|
            && forall i :: 0 <= i < |g.nodes| ==>
                 h.nodes[i] == if legacy && g.nodes[i].op == 52 then g.nodes[i].(op := 54) else g.nodes[i])
  {
    if exists i :: 0 <= i < |g.nodes| && !MigratableNode(g.nodes[i]) {
      assert Migrated(g).Some? ==> !Legacy(g);
    }
  }

  lemma MigrationIsIdentityExactly(g: Graph)
    requires Migrated(g).Some?
    ensures Migrated(g).value == g <==> !NeedsMigration(g)
  {
  }

  lemma MigrationFixes(g: Graph)
    ensures !NeedsMigration(g) ==> Migrated(g).Some?
  {
  }

  /** Every accepted file is valid. */
  lemma LoadedIsValid(s: Bytes)
    requires Loaded(s).Some?
    ensures ValidGraph(Loaded(s).value)
    ensures !NeedsMigration(Loaded(s).value)
  {
  }
}
