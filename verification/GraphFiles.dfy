/** The reader and writer objects of graph/io.cpp, and graph_load and graph_save
    on top of them. */
module GraphFiles {
  import opened Wrappers
  import opened Graph
  import opened GraphIo

  /** A read that returned `v` and left `rest`. */
  function Outcome<T>(v: Option<T>, rest: Bytes): Read<T> {
    match v case Some(x) => Done(x, rest) case None => Fail
  }

  /** Items already read in front of those still to come. */
  function After<T>(items: seq<T>, more: Read<seq<T>>): Read<seq<T>> {
    match more case Done(v, rest) => Done(items + v, rest) case Fail => Fail
  }

  class BinaryReader {
    /** The bytes still to be read: `remaining()` is their number. */
    var rest: Bytes

    constructor (file: Bytes)
      ensures rest == file
    {
      rest := file;
    }

    method ReadBytes(size: nat) returns (v: Option<Bytes>)
      modifies this
      ensures Take(old(rest), size) == Outcome(v, rest)
    {
      if size > |rest| {
        return None;
      }
      v := Some(rest[..size]);
      rest := rest[size..];
    }

    method ReadU32() returns (v: Option<u32>)
      modifies this
      ensures TakeU32(old(rest)) == Outcome(v, rest)
    {
      var b := ReadBytes(4);
      v := match b case Some(x) => Some(DecodeU32(x)) case None => None;
    }

    method ReadI64() returns (v: Option<i64>)
      modifies this
      ensures TakeI64(old(rest)) == Outcome(v, rest)
    {
      var b := ReadBytes(8);
      v := match b case Some(x) => Some(DecodeI64(x)) case None => None;
    }

    method ReadCount(maximum: int) returns (v: Option<u32>)
      modifies this
      ensures TakeCount(old(rest), maximum) == Outcome(v, rest)
    {
      v := ReadU32();
      if v.Some? && v.value > maximum {
        v := None;
      }
    }

    /** A count and its vector. */
    method ReadU32s() returns (v: Option<seq<u32>>)
      modifies this
      ensures TakeU32s(old(rest)) == Outcome(v, rest)
    {
      var n := ReadCount(MAX_COLLECTION_ITEMS);
      if n.None? || n.value > |rest| / 4 {
        return None;
      }
      var b := ReadBytes(4 * n.value);
      v := Some(DecodeU32s(b.value, n.value));
    }

    method ReadString() returns (v: Option<Bytes>)
      modifies this
      ensures TakeString(old(rest)) == Outcome(v, rest)
    {
      var n := ReadU32();
      if n.None? || n.value > MAX_STRING_BYTES {
        return None;
      }
      v := ReadBytes(n.value);
    }

    method ReadStrings(n: nat) returns (v: Option<seq<Bytes>>)
      modifies this
      ensures TakeStrings(old(rest), n) == Outcome(v, rest)
    {
      hide TakeString;
      var items: seq<Bytes> := [];
      AfterNone(TakeStrings(rest, n));
      for i := 0 to n
        invariant TakeStrings(old(rest), n) == After(items, TakeStrings(rest, n - i))
      {
        ghost var before := rest;
        var s := ReadString();
        if s.None? {
          return None;
        }
        AfterOneString(items, before, n - i);
        items := items + [s.value];
      }
      assert items + [] == items;
      v := Some(items);
    }

    lemma AfterOneString(items: seq<Bytes>, s: Bytes, n: nat)
      requires n > 0
      ensures After(items, TakeStrings(s, n)) ==
        match TakeString(s) case Fail => Fail case Done(x, rest) => After(items + [x], TakeStrings(rest, n - 1))
    {
      hide TakeString;
      match TakeString(s)
      case Fail =>
      case Done(x, rest) =>
        match TakeStrings(rest, n - 1)
        case Fail =>
        case Done(more, _) => assert items + ([x] + more) == items + [x] + more;
    }

    method ReadDim() returns (v: Option<DimExpr>)
      modifies this
      ensures TakeDim(old(rest)) == Outcome(v, rest)
    {
      var b := ReadBytes(8);
      if b.None? {
        return None;
      }
      var kind := b.value[0] as int;
      v := Some(DimExpr(if kind < 128 then kind else kind - 256, Signed(DecodeU32(b.value[4..]))));
    }

    method ReadShape() returns (v: Option<Four<i64>>)
      modifies this
      ensures TakeShape(old(rest)) == Outcome(v, rest)
    {
      hide TakeI64;
      var a := ReadI64();
      if a.None? { return None; }
      var b := ReadI64();
      if b.None? { return None; }
      var c := ReadI64();
      if c.None? { return None; }
      var d := ReadI64();
      if d.None? { return None; }
      v := Some(Four(a.value, b.value, c.value, d.value));
    }

    method ReadDims() returns (v: Option<Four<DimExpr>>)
      modifies this
      ensures TakeDims(old(rest)) == Outcome(v, rest)
    {
      hide TakeDim;
      var a := ReadDim();
      if a.None? { return None; }
      var b := ReadDim();
      if b.None? { return None; }
      var c := ReadDim();
      if c.None? { return None; }
      var d := ReadDim();
      if d.None? { return None; }
      v := Some(Four(a.value, b.value, c.value, d.value));
    }

    method ReadParams() returns (v: Option<Params>)
      modifies this
      ensures TakeParams(old(rest)) == Outcome(v, rest)
    {
      hide TakeU32s, TakeCount, TakeStrings, ToSigned;
      var ints := ReadU32s();
      if ints.None? { return None; }
      var floats := ReadU32s();
      if floats.None? { return None; }
      var n := ReadCount(MAX_COLLECTION_ITEMS);
      if n.None? || n.value > |rest| / 4 { return None; }
      var strs := ReadStrings(n.value);
      if strs.None? { return None; }
      v := Some(Params(ToSigned(ints.value), floats.value, strs.value));
    }

    method ReadNode() returns (v: Option<Node>)
      modifies this
      ensures TakeNode(old(rest)) == Outcome(v, rest)
    {
      hide TakeU32, TakeU32s, TakeShape, TakeDims, TakeParams;
      var id := ReadU32();
      if id.None? { return None; }
      var op := ReadU32();
      if op.None? { return None; }
      var inputs := ReadU32s();
      if inputs.None? { return None; }
      var shape := ReadShape();
      if shape.None? { return None; }
      var dims := ReadDims();
      if dims.None? { return None; }
      var prec := ReadU32();
      if prec.None? { return None; }
      var params := ReadParams();
      if params.None? { return None; }
      v := Some(Node(id.value, op.value, inputs.value, params.value, shape.value, dims.value, prec.value % 256));
    }

    method ReadNodes(n: nat) returns (v: Option<seq<Node>>)
      modifies this
      ensures TakeNodes(old(rest), n) == Outcome(v, rest)
    {
      hide TakeNode;
      var items: seq<Node> := [];
      AfterNone(TakeNodes(rest, n));
      for i := 0 to n
        invariant TakeNodes(old(rest), n) == After(items, TakeNodes(rest, n - i))
      {
        ghost var before := rest;
        var node := ReadNode();
        if node.None? {
          return None;
        }
        AfterOneNode(items, before, n - i);
        items := items + [node.value];
      }
      assert items + [] == items;
      v := Some(items);
    }

    lemma AfterOneNode(items: seq<Node>, s: Bytes, n: nat)
      requires n > 0
      ensures After(items, TakeNodes(s, n)) ==
        match TakeNode(s) case Fail => Fail case Done(x, rest) => After(items + [x], TakeNodes(rest, n - 1))
    {
      hide TakeNode;
      match TakeNode(s)
      case Fail =>
      case Done(x, rest) =>
        match TakeNodes(rest, n - 1)
        case Fail =>
        case Done(more, _) => assert items + ([x] + more) == items + [x] + more;
    }

    method ReadMetadata() returns (v: Option<map<Bytes, Bytes>>)
      modifies this
      ensures TakeMetadata(old(rest)) == Outcome(v, rest)
    {
      hide TakeCount, TakeStrings, TakeString;
      var n := ReadCount(MAX_METADATA_ITEMS);
      if n.None? || n.value > |rest| / 8 {
        return None;
      }
      ghost var start := rest;
      ghost var strings: seq<Bytes> := [];
      var metadata: map<Bytes, Bytes> := map[];
      AfterNone(TakeStrings(start, 2 * n.value));
      for i := 0 to n.value
        invariant |strings| == 2 * i && metadata == MapOf(strings)
        invariant TakeStrings(start, 2 * n.value) == After(strings, TakeStrings(rest, 2 * (n.value - i)))
      {
        ghost var s0 := rest;
        AfterOneString(strings, s0, 2 * (n.value - i));
        var key := ReadString();
        if key.None? { return None; }
        ghost var s1 := rest;
        AfterOneString(strings + [key.value], s1, 2 * (n.value - i) - 1);
        var value := ReadString();
        if value.None? { return None; }
        ghost var both := strings + [key.value] + [value.value];
        assert both[..|both| - 2] == strings;
        metadata, strings := metadata[key.value := value.value], both;
      }
      NoMoreStrings(strings, rest);
      v := Some(metadata);
    }

    lemma AfterNone<T>(r: Read<seq<T>>)
      ensures After([], r) == r
    {
      if r.Done? {
        assert [] + r.value == r.value;
      }
    }

    lemma NoMoreStrings(items: seq<Bytes>, s: Bytes)
      ensures After(items, TakeStrings(s, 0)) == Done(items, s)
    {
      assert items + [] == items;
    }

    method ReadHeader() returns (v: Option<u32>)
      modifies this
      ensures TakeHeader(old(rest)) == Outcome(v, rest)
    {
      hide TakeU32;
      var magic := ReadU32();
      if magic.None? || magic.value != GRAPH_MAGIC { return None; }
      var version := ReadU32();
      if version.None? || version.value != GRAPH_VERSION { return None; }
      v := ReadCount(MAX_GRAPH_NODES);
      if v.Some? && v.value > |rest| / MIN_SERIALIZED_NODE_BYTES {
        v := None;
      }
    }

    method ReadBody(n: u32) returns (v: Option<Graph>)
      modifies this
      ensures TakeBody(old(rest), n) == v
    {
      hide TakeMetadata, TakeU32s, TakeNodes;
      var metadata := ReadMetadata();
      if metadata.None? { return None; }
      var inputs := ReadU32s();
      if inputs.None? { return None; }
      var outputs := ReadU32s();
      if outputs.None? { return None; }
      var nodes := ReadNodes(n);
      if nodes.None? { return None; }
      v := Some(Graph(nodes.value, inputs.value, outputs.value, metadata.value));
    }

    /** read_graph. */
    method ReadGraph() returns (v: Option<Graph>)
      modifies this
      ensures v == Loaded(old(rest))
    {
      hide TakeHeader, TakeBody, Migrated, ValidGraph;
      var n := ReadHeader();
      if n.None? { return None; }
      v := ReadBody(n.value);
      if v.None? { return None; }
      var migrated := Migrate(v.value);
      if migrated.None? { return None; }
      var valid := Validate(migrated.value);
      v := if valid then migrated else None;
    }
  }

  /** The hy-v4 migration loop (305-315). */
  method Migrate(g: Graph) returns (r: Option<Graph>)
    ensures r == Migrated(g)
  {
    var key: Bytes := "model_type";
    if !(key in g.metadata && g.metadata[key] == "hy-v4") {
      return Some(g);
    }
    var nodes := g.nodes;
    for i := 0 to |g.nodes|
      invariant |nodes| == |g.nodes|
      invariant forall j :: 0 <= j < i ==> MigratableNode(g.nodes[j]) && nodes[j] == MigratedNode(g.nodes[j])
      invariant forall j :: i <= j < |nodes| ==> nodes[j] == g.nodes[j]
    {
      if nodes[i].op == QSA_SDPA {
        if |nodes[i].inputs| < 8 || |nodes[i].params.i32s| < 10 {
          assert !MigratableNode(g.nodes[i]);
          return None;
        }
        nodes := nodes[i := nodes[i].(op := SDPA_MLA_ABSORB)];
      }
    }
    assert Migrated(g).Some? && Migrated(g).value.nodes == nodes;
    r := Some(g.(nodes := nodes));
  }

  /** validate_graph. */
  method Validate(g: Graph) returns (ok: bool)
    ensures ok <==> ValidGraph(g)
  {
    if |g.nodes| > MAX_GRAPH_NODES {
      return false;
    }
    for i := 0 to |g.nodes|
      invariant forall j :: 0 <= j < i ==> ValidNode(g.nodes[j], j)
    {
      var n := g.nodes[i];
      if n.id != i || !KnownOp(n.op) || n.prec > LAST_PRECISION {
        return false;
      }
      if !ValidDim(n.dims.x0) || !ValidDim(n.dims.x1) || !ValidDim(n.dims.x2) || !ValidDim(n.dims.x3) {
        return false;
      }
      var below := AllBelow(n.inputs, i);
      if !below {
        return false;
      }
    }
    ok := AllBelow(g.inputs, |g.nodes|);
    if ok {
      ok := AllBelow(g.outputs, |g.nodes|);
    }
  }

  method AllBelow(ids: seq<u32>, bound: int) returns (ok: bool)
    ensures ok <==> forall k :: 0 <= k < |ids| ==> ids[k] < bound
  {
    for k := 0 to |ids|
      invariant forall j :: 0 <= j < k ==> ids[j] < bound
    {
      if ids[k] >= bound {
        return false;
      }
    }
    ok := true;
  }

  class BinaryWriter {
    var out: Bytes
    var ok: bool

    constructor ()
      ensures out == [] && ok
    {
      out, ok := [], true;
    }

    method Write(data: Bytes)
      modifies this
      ensures ok == old(ok) && out == if ok then old(out) + data else old(out)
    {
      if !ok {
        return;
      }
      out := out + data;
    }

    method WriteString(v: Bytes)
      modifies this
      ensures ok <==> old(ok) && |v| < U32_LIMIT
      ensures ok ==> out == old(out) + PutString(v)
    {
      if |v| >= U32_LIMIT {
        ok := false;
        return;
      }
      Write(EncodeU32(|v|));
      Write(v);
    }

    method WriteStrings(v: seq<Bytes>)
      modifies this
      ensures ok <==> old(ok) && Writable(v)
      ensures ok ==> out == old(out) + PutStrings(v)
    {
      hide PutString;
      for i := 0 to |v|
        invariant ok <==> old(ok) && Writable(v[..i])
        invariant ok ==> out == old(out) + PutStrings(v[..i])
      {
        if Writable(v[..i + 1]) {
          PutStringsSnoc(v[..i], v[i]);
        }
        assert v[..i + 1] == v[..i] + [v[i]];
        WriteString(v[i]);
        assert Writable(v[..i + 1]) <==> Writable(v[..i]) && |v[i]| < U32_LIMIT;
      }
      assert v[..|v|] == v;
    }

    lemma {:induction false} PutStringsSnoc(v: seq<Bytes>, x: Bytes)
      requires Writable(v) && |x| < 0x1_0000_0000
      ensures Writable(v + [x]) && PutStrings(v + [x]) == PutStrings(v) + PutString(x)
    {
      hide PutString;
      if v != [] {
        assert (v + [x])[1..] == v[1..] + [x];
        PutStringsSnoc(v[1..], x);
      } else {
        assert (v + [x])[1..] == [];
        assert PutString(x) + [] == PutString(x);
      }
    }

    method WriteParams(p: Params)
      modifies this
      ensures ok <==> old(ok) && Writable(p.strs)
      requires |p.i32s| < U32_LIMIT && |p.f32s| < U32_LIMIT && |p.strs| < U32_LIMIT
      ensures ok ==> out == old(out) + PutParams(p)
    {
      hide PutU32s, PutStrings, ToUnsigned, EncodeU32, Writable;
      ghost var start := out;
      Write(PutU32s(ToUnsigned(p.i32s)));
      Write(PutU32s(p.f32s));
      Write(EncodeU32(|p.strs|));
      WriteStrings(p.strs);
      if ok {
        Regrouped5(start, PutU32s(ToUnsigned(p.i32s)), PutU32s(p.f32s), EncodeU32(|p.strs|), PutStrings(p.strs));
      }
    }

    lemma Regrouped5(s: Bytes, a: Bytes, b: Bytes, c: Bytes, d: Bytes)
      ensures s + a + b + c + d == s + (a + (b + (c + d)))
    {
      assert s + a + b + c + d == s + a + b + (c + d);
      assert s + a + b + (c + d) == s + a + (b + (c + d));
    }

    /** One node; its sizes are checked first (353-357). */
    method WriteNode(n: Node)
      modifies this
      ensures ok <==> old(ok) && WritableNode(n)
      ensures ok ==> out == old(out) + PutNode(n)
    {
      if |n.inputs| >= U32_LIMIT || |n.params.i32s| >= U32_LIMIT || |n.params.f32s| >= U32_LIMIT || |n.params.strs| >= U32_LIMIT {
        ok := false;
        return;
      }
      NodeBytes(out, n);
      hide *;
      Write(NodeHead(n));
      WriteParams(n.params);
    }

    /** Everything before the parameters. */
    function NodeHead(n: Node): Bytes
      requires |n.inputs| < 0x1_0000_0000
    {
      EncodeU32(n.id) + (EncodeU32(n.op) + (PutU32s(n.inputs) + (PutShape(n.shape) + (PutDims(n.dims) + EncodeU32(n.prec)))))
    }

    lemma NodeBytes(start: Bytes, n: Node)
      requires |n.inputs| < U32_LIMIT && |n.params.i32s| < U32_LIMIT && |n.params.f32s| < U32_LIMIT && |n.params.strs| < U32_LIMIT
      ensures Writable(n.params.strs) <==> WritableNode(n)
      ensures WritableNode(n) ==> start + NodeHead(n) + PutParams(n.params) == start + PutNode(n)
    {
      hide PutU32s, PutShape, PutDims, PutParams, EncodeU32, Writable;
      if WritableNode(n) {
        var tail := PutParams(n.params);
        Regrouped(EncodeU32(n.id), EncodeU32(n.op), PutU32s(n.inputs), PutShape(n.shape), PutDims(n.dims), EncodeU32(n.prec), tail);
        assert start + NodeHead(n) + tail == start + (NodeHead(n) + tail);
      }
    }

    lemma Regrouped(a: Bytes, b: Bytes, c: Bytes, d: Bytes, e: Bytes, f: Bytes, g: Bytes)
      ensures a + (b + (c + (d + (e + f)))) + g == a + (b + (c + (d + (e + (f + g)))))
    {
    }

    method WriteNodes(v: seq<Node>)
      modifies this
      ensures ok <==> old(ok) && WritableNodes(v)
      ensures ok ==> out == old(out) + PutNodes(v)
    {
      hide PutNode, WritableNode;
      for i := 0 to |v|
        invariant ok <==> old(ok) && WritableNodes(v[..i])
        invariant ok ==> out == old(out) + PutNodes(v[..i])
      {
        if WritableNodes(v[..i + 1]) {
          assert WritableNode(v[..i + 1][i]);
          PutNodesSnoc(v[..i], v[i]);
        }
        assert v[..i + 1] == v[..i] + [v[i]];
        WriteNode(v[i]);
        assert WritableNodes(v[..i + 1]) <==> WritableNodes(v[..i]) && WritableNode(v[i]);
      }
      assert v[..|v|] == v;
    }

    lemma {:induction false} PutNodesSnoc(v: seq<Node>, x: Node)
      requires WritableNodes(v) && WritableNode(x)
      ensures WritableNodes(v + [x]) && PutNodes(v + [x]) == PutNodes(v) + PutNode(x)
    {
      hide PutNode, WritableNode;
      if v != [] {
        assert (v + [x])[1..] == v[1..] + [x];
        PutNodesSnoc(v[1..], x);
      } else {
        assert (v + [x])[1..] == [];
        assert PutNode(x) + [] == PutNode(x);
      }
    }

    /** The metadata pairs, in whatever order the map yields them. */
    method WriteMetadata(m: map<Bytes, Bytes>) returns (ghost entries: seq<(Bytes, Bytes)>)
      modifies this
      ensures Enumerates(entries, m)
      ensures ok <==> old(ok) && EntriesWithin(m, U32_LIMIT - 1)
      ensures ok ==> Writable(Flatten(entries)) && out == old(out) + PutStrings(Flatten(entries))
    {
      hide PutStrings, PutString, EntriesWithin, Writable, Flatten, Lists, Enumerates;
      entries := [];
      FlattenNone();
      NothingListed(m);
      var rest := m.Keys;
      while rest != {}
        invariant rest <= m.Keys && Lists(entries, m, rest)
        invariant ok <==> old(ok) && Writable(Flatten(entries))
        invariant ok ==> out == old(out) + PutStrings(Flatten(entries))
      {
        assert (forall k: Bytes :: k !in rest) ==> rest == {};
        var k :| k in rest;
        WriteString(k);
        WriteString(m[k]);
        OneMoreEntry(entries, (k, m[k]), m, rest);
        entries := entries + [(k, m[k])];
        rest := rest - {k};
      }
      AllListed(entries, m);
    }

    lemma NothingListed(m: map<Bytes, Bytes>)
      ensures Lists([], m, m.Keys)
    {
    }

    lemma FlattenNone()
      ensures Writable(Flatten([])) && PutStrings(Flatten([])) == []
    {
    }

    lemma AllListed(entries: seq<(Bytes, Bytes)>, m: map<Bytes, Bytes>)
      requires Lists(entries, m, {})
      ensures Enumerates(entries, m) && (Writable(Flatten(entries)) <==> EntriesWithin(m, U32_LIMIT - 1))
    {
      FlatWithinIsWritable(entries, m);
    }

    lemma FlatWithinIsWritable(entries: seq<(Bytes, Bytes)>, m: map<Bytes, Bytes>)
      requires Enumerates(entries, m)
      ensures Writable(Flatten(entries)) <==> EntriesWithin(m, U32_LIMIT - 1)
    {
      if EntriesWithin(m, U32_LIMIT - 1) {
        EntriesWritable(entries, m);
      }
      if Writable(Flatten(entries)) {
        forall k | k in m
          ensures |k| <= U32_LIMIT - 1 && |m[k]| <= U32_LIMIT - 1
        {
          var i :| 0 <= i < |entries| && entries[i] == (k, m[k]);
          FlattenAt(entries, i);
        }
      }
    }

    /** `entries` lists the part of the map outside `rest`. */
    ghost predicate Lists(entries: seq<(Bytes, Bytes)>, m: map<Bytes, Bytes>, rest: set<Bytes>) {
      && |entries| + |rest| == |m|
      && (forall i :: 0 <= i < |entries| ==> entries[i].0 in m && m[entries[i].0] == entries[i].1)
      && (forall k <- m :: k !in rest ==> (k, m[k]) in entries)
    }

    lemma OneMoreEntry(entries: seq<(Bytes, Bytes)>, e: (Bytes, Bytes), m: map<Bytes, Bytes>, rest: set<Bytes>)
      requires Lists(entries, m, rest) && e.0 in rest && rest <= m.Keys && m[e.0] == e.1
      ensures Lists(entries + [e], m, rest - {e.0})
      ensures Writable(Flatten(entries + [e])) <==> Writable(Flatten(entries)) && |e.0| < U32_LIMIT && |e.1| < U32_LIMIT
      ensures Writable(Flatten(entries + [e])) ==>
        PutStrings(Flatten(entries + [e])) == PutStrings(Flatten(entries)) + PutString(e.0) + PutString(e.1)
    {
      var flat := Flatten(entries);
      FlattenSnoc(entries, e);
      assert flat + [e.0, e.1] == flat + [e.0] + [e.1];
      WritableSnoc(flat, e.0);
      WritableSnoc(flat + [e.0], e.1);
      if Writable(flat + [e.0, e.1]) {
        PutStringsSnoc(flat, e.0);
        PutStringsSnoc(flat + [e.0], e.1);
      }
    }

    lemma WritableSnoc(v: seq<Bytes>, x: Bytes)
      ensures Writable(v + [x]) <==> Writable(v) && |x| < U32_LIMIT
    {
      if Writable(v + [x]) {
        assert (v + [x])[|v|] == x;
        forall i | 0 <= i < |v|
          ensures |v[i]| < U32_LIMIT
        {
          assert (v + [x])[i] == v[i];
        }
      }
    }

    /** write_graph. */
    method WriteGraph(g: Graph) returns (done: bool, ghost entries: seq<(Bytes, Bytes)>)
      requires ok && out == []
      modifies this
      ensures done && ok <==> WritableGraph(g)
      ensures done && ok ==> Enumerates(entries, g.metadata) && out == PutGraph(g, entries)
    {
      hide PutU32s, PutStrings, PutNodes, EncodeU32, Flatten, Enumerates, EntriesWithin, WritableNodes, Writable;
      if |g.nodes| >= U32_LIMIT || |g.metadata| >= U32_LIMIT || |g.inputs| >= U32_LIMIT || |g.outputs| >= U32_LIMIT {
        return false, [];
      }
      Write(EncodeU32(GRAPH_MAGIC) + (EncodeU32(GRAPH_VERSION) + (EncodeU32(|g.nodes|) + EncodeU32(|g.metadata|))));
      entries := WriteMetadata(g.metadata);
      Write(PutU32s(g.inputs));
      Write(PutU32s(g.outputs));
      WriteNodes(g.nodes);
      done := true;
      if ok {
        SameCount(entries, g.metadata);
        Regrouped8(EncodeU32(GRAPH_MAGIC), EncodeU32(GRAPH_VERSION), EncodeU32(|g.nodes|), EncodeU32(|g.metadata|),
                   PutStrings(Flatten(entries)), PutU32s(g.inputs), PutU32s(g.outputs), PutNodes(g.nodes));
      }
    }

    lemma SameCount(entries: seq<(Bytes, Bytes)>, m: map<Bytes, Bytes>)
      requires Enumerates(entries, m)
      ensures |entries| == |m|
    {
    }

    lemma Regrouped8(a: Bytes, b: Bytes, c: Bytes, d: Bytes, e: Bytes, f: Bytes, g: Bytes, h: Bytes)
      ensures [] + (a + (b + (c + d))) + e + f + g + h == a + (b + (c + (d + (e + (f + (g + h))))))
    {
      assert [] + (a + (b + (c + d))) == a + (b + (c + d));
      assert a + (b + (c + d)) + e == a + (b + (c + (d + e)));
      assert a + (b + (c + (d + e))) + f == a + (b + (c + (d + (e + f))));
      assert a + (b + (c + (d + (e + f)))) + g == a + (b + (c + (d + (e + (f + g)))));
      assert a + (b + (c + (d + (e + (f + g))))) + h == a + (b + (c + (d + (e + (f + (g + h))))));
    }
  }

  /** graph_save: nothing is written for an invalid graph, and no file remains
      after a failed write. */
  method GraphSave(g: Graph) returns (file: Option<Bytes>, ghost entries: seq<(Bytes, Bytes)>)
    ensures file.Some? <==> ValidGraph(g) && WritableGraph(g)
    ensures file.Some? ==> Enumerates(entries, g.metadata) && file.value == PutGraph(g, entries)
  {
    hide ValidGraph, WritableGraph, PutGraph, Enumerates;
    var valid := Validate(g);
    if !valid {
      return None, [];
    }
    var writer := new BinaryWriter();
    var done;
    done, entries := writer.WriteGraph(g);
    file := if done && writer.ok then Some(writer.out) else None;
  }

  /** graph_load: a refused file leaves the graph as it was. */
  method GraphLoad(graph0: Graph, file: Bytes) returns (ok: bool, graph: Graph)
    ensures ok <==> Loaded(file).Some?
    ensures graph == if ok then Loaded(file).value else graph0
  {
    hide Loaded;
    var reader := new BinaryReader(file);
    var loaded := reader.ReadGraph();
    if loaded.None? {
      return false, graph0;
    }
    ok, graph := true, loaded.value;
  }

  /** Saving and loading again gives the graph back exactly if it is valid, within
      the reader's limits, and not a legacy hy-v4 graph with opcode 52. */
  method SaveThenLoad(g: Graph, graph0: Graph) returns (ok: bool, graph: Graph)
    ensures ok && graph == g <==> ValidGraph(g) && ReadableGraph(g) && !NeedsMigration(g)
  {
    hide ValidGraph, WritableGraph, ReadableGraph, PutGraph, Enumerates, Loaded, NeedsMigration, Migrated;
    ok, graph := false, graph0;
    ReadableIsWritable(g);
    var file, entries := GraphSave(g);
    if file.Some? {
      RoundTrip(g, entries);
      ok, graph := GraphLoad(graph0, file.value);
    }
  }
}
