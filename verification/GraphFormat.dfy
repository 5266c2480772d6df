/** The graph format byte by byte: little-endian numbers, and every field in its place
    (graph/io.cpp:329-385). */
module GraphFormat {
  import opened Graph
  import opened GraphIo

  function Raw(numbers: seq<nat>): (r: Bytes)
    requires forall i :: 0 <= i < |numbers| ==> numbers[i] < 256
    ensures |r| == |numbers|
  {
    seq(|numbers|, i requires 0 <= i < |numbers| => numbers[i] as char)
  }

  /** Byte `k` of a number, from the least significant one. */
  lemma LittleEndian(x: u32)
    ensures EncodeU32(x) == Raw([x % 256, x / 256 % 256, x / 65536 % 256, x / 16777216])
    ensures x == x % 256 + 256 * (x / 256 % 256) + 65536 * (x / 65536 % 256) + 16777216 * (x / 16777216)
  {
    var a := x / 256;
    var b := a / 256;
    Quotients(x, a, b);
  }

  lemma Word(x: u32, b0: nat, b1: nat, b2: nat, b3: nat)
    requires b0 < 256 && b1 < 256 && b2 < 256 && b3 < 256 && x == b0 + 256 * b1 + 65536 * b2 + 16777216 * b3
    ensures EncodeU32(x) == Raw([b0, b1, b2, b3])
  {
    assert x / 256 == b1 + 256 * b2 + 65536 * b3;
    assert x / 65536 == b2 + 256 * b3;
    assert x / 16777216 == b3;
  }

  /** Two's complement in eight bytes. */
  lemma Long(x: i64, low: u32, high: u32)
    requires (if x < 0 then x + 0x1_0000_0000 * 0x1_0000_0000 else x) == low + 0x1_0000_0000 * high
    ensures EncodeI64(x) == EncodeU32(low) + EncodeU32(high)
  {
    hide EncodeU32;
    var u := low + 0x1_0000_0000 * high;
    assert u % 0x1_0000_0000 == low && u / 0x1_0000_0000 == high;
  }

  lemma Dim(kind: i8, coeff: i32, word: u32)
    requires 0 <= kind && word == (if coeff < 0 then coeff + 0x1_0000_0000 else coeff)
    ensures PutDim(DimExpr(kind, coeff)) == Raw([kind, 0, 0, 0]) + EncodeU32(word)
  {
  }

  lemma Counted(v: seq<u32>)
    requires |v| == 1 || |v| == 2
    ensures PutU32s(v) == EncodeU32(|v|) + if |v| == 1 then EncodeU32(v[0]) else EncodeU32(v[0]) + EncodeU32(v[1])
  {
    hide EncodeU32;
    if |v| == 1 {
      assert v[1..] == [];
      assert EncodeU32s(v) == EncodeU32(v[0]) + [];
    } else {
      assert v[1..] == [v[1]] && [v[1]][1..] == [];
      assert EncodeU32s([v[1]]) == EncodeU32(v[1]) + [];
    }
  }

  const SAMPLE: Node :=
    Node(0x04030201, 10, [0x22, 0x33], Params([-2], [0x3F800000], ["ab"]), Four(5, -1, 0x100, 7),
         Four(DimExpr(1, 2), DimExpr(0, -3), DimExpr(5, 4), DimExpr(3, 9)), 1)

  /** A node with every kind of field. */
  lemma SampleNode()
    ensures WritableNode(SAMPLE)
    ensures PutNode(SAMPLE) ==
      Raw([1, 2, 3, 4]) + (Raw([10, 0, 0, 0]) + (
      (Raw([2, 0, 0, 0]) + (Raw([0x22, 0, 0, 0]) + Raw([0x33, 0, 0, 0]))) + (
      SampleShape() + (SampleDims() + (Raw([1, 0, 0, 0]) + SampleParams())))))
  {
    hide EncodeU32, PutU32s, PutShape, PutDims, PutParams;
    assert Writable(SAMPLE.params.strs);
    Word(0x04030201, 1, 2, 3, 4);
    Word(10, 10, 0, 0, 0);
    Word(2, 2, 0, 0, 0);
    Word(0x22, 0x22, 0, 0, 0);
    Word(0x33, 0x33, 0, 0, 0);
    Word(1, 1, 0, 0, 0);
    Counted(SAMPLE.inputs);
    ShapeIs();
    DimsAre();
    ParamsAre();
  }

  function SampleShape(): Bytes {
    (Raw([5, 0, 0, 0]) + Raw([0, 0, 0, 0])) + ((Raw([255, 255, 255, 255]) + Raw([255, 255, 255, 255])) + (
    (Raw([0, 1, 0, 0]) + Raw([0, 0, 0, 0])) + (Raw([7, 0, 0, 0]) + Raw([0, 0, 0, 0]))))
  }

  lemma ShapeIs()
    ensures PutShape(SAMPLE.shape) == SampleShape()
  {
    hide EncodeU32, EncodeI64;
    Long(5, 5, 0);
    Long(-1, 0xFFFF_FFFF, 0xFFFF_FFFF);
    Long(0x100, 0x100, 0);
    Long(7, 7, 0);
    Word(5, 5, 0, 0, 0);
    Word(0, 0, 0, 0, 0);
    Word(0xFFFF_FFFF, 255, 255, 255, 255);
    Word(0x100, 0, 1, 0, 0);
    Word(7, 7, 0, 0, 0);
  }

  function SampleDims(): Bytes {
    (Raw([1, 0, 0, 0]) + Raw([2, 0, 0, 0])) + ((Raw([0, 0, 0, 0]) + Raw([253, 255, 255, 255])) + (
    (Raw([5, 0, 0, 0]) + Raw([4, 0, 0, 0])) + (Raw([3, 0, 0, 0]) + Raw([9, 0, 0, 0]))))
  }

  lemma DimsAre()
    ensures PutDims(SAMPLE.dims) == SampleDims()
  {
    hide EncodeU32, PutDim;
    Dim(1, 2, 2);
    Dim(0, -3, 0xFFFF_FFFD);
    Dim(5, 4, 4);
    Dim(3, 9, 9);
    Word(2, 2, 0, 0, 0);
    Word(0xFFFF_FFFD, 253, 255, 255, 255);
    Word(4, 4, 0, 0, 0);
    Word(9, 9, 0, 0, 0);
  }

  function SampleParams(): Bytes {
    (Raw([1, 0, 0, 0]) + Raw([254, 255, 255, 255])) + ((Raw([1, 0, 0, 0]) + Raw([0, 0, 128, 63])) + (
    Raw([1, 0, 0, 0]) + (Raw([2, 0, 0, 0]) + Raw([97, 98]))))
  }

  lemma ParamsAre()
    ensures PutParams(SAMPLE.params) == SampleParams()
  {
    hide EncodeU32, PutU32s;
    var text: Bytes := "ab";
    assert Writable(SAMPLE.params.strs);
    assert ToUnsigned(SAMPLE.params.i32s) == [0xFFFF_FFFE];
    Counted([0xFFFF_FFFE]);
    Counted([0x3F800000]);
    Word(1, 1, 0, 0, 0);
    Word(2, 2, 0, 0, 0);
    Word(0xFFFF_FFFE, 254, 255, 255, 255);
    Word(0x3F800000, 0, 0, 128, 63);
    assert text == Raw([97, 98]);
    assert SAMPLE.params.strs[1..] == [];
    assert PutStrings(SAMPLE.params.strs) == PutString(text) + PutStrings([]);
    assert PutString(text) + [] == EncodeU32(2) + text;
  }

  ghost function SampleGraph(): Graph {
    var key: Bytes, value: Bytes := "k", "vw";
    Graph([SAMPLE], [7], [8, 9], map[key := value])
  }

  lemma SampleIsWritable(key: Bytes, value: Bytes)
    requires key == "k" && value == "vw"
    ensures WritableGraph(SampleGraph()) && Enumerates([(key, value)], SampleGraph().metadata)
    ensures SampleGraph().metadata == map[key := value]
  {
    SampleNode();
    hide EncodeU32, PutU32s, PutNode;
    assert [(key, value)][0] == (key, value);
  }

  /** A file: magic, version, counts, metadata, graph inputs, graph outputs, nodes. */
  lemma SampleFile(key: Bytes, value: Bytes)
    requires key == "k" && value == "vw"
    ensures WritableGraph(SampleGraph()) && Enumerates([(key, value)], SampleGraph().metadata) && WritableNode(SAMPLE)
    ensures PutGraph(SampleGraph(), [(key, value)]) ==
      Raw([71, 76, 76, 77]) + (Raw([3, 0, 0, 0]) + (Raw([1, 0, 0, 0]) + (
      Raw([1, 0, 0, 0]) + ((Raw([1, 0, 0, 0]) + Raw([107])) + (Raw([2, 0, 0, 0]) + Raw([118, 119])) + (
      (Raw([1, 0, 0, 0]) + Raw([7, 0, 0, 0])) + ((Raw([2, 0, 0, 0]) + (Raw([8, 0, 0, 0]) + Raw([9, 0, 0, 0]))) + PutNode(SAMPLE)))))))
  {
    SampleIsWritable(key, value);
    SampleNode();
    OneNode();
    StringsAre(key, value);
    hide EncodeU32, PutU32s, PutNode, PutNodes, WritableNode, WritableGraph, Enumerates, Writable, Flatten, PutStrings, SAMPLE;
    Word(GRAPH_MAGIC, 71, 76, 76, 77);
    Word(3, 3, 0, 0, 0);
    Word(1, 1, 0, 0, 0);
    Word(2, 2, 0, 0, 0);
    Word(7, 7, 0, 0, 0);
    Word(8, 8, 0, 0, 0);
    Word(9, 9, 0, 0, 0);
    Counted([7]);
    Counted([8, 9]);
  }

  lemma OneNode()
    ensures WritableNode(SAMPLE) && WritableNodes([SAMPLE]) && PutNodes([SAMPLE]) == PutNode(SAMPLE)
  {
    SampleNode();
    hide PutNode;
    assert [SAMPLE][1..] == [];
    assert PutNodes([SAMPLE]) == PutNode(SAMPLE) + [];
  }

  lemma StringsAre(key: Bytes, value: Bytes)
    requires key == "k" && value == "vw"
    ensures Writable(Flatten([(key, value)]))
    ensures PutStrings(Flatten([(key, value)])) == (Raw([1, 0, 0, 0]) + Raw([107])) + (Raw([2, 0, 0, 0]) + Raw([118, 119]))
  {
    hide EncodeU32;
    assert [(key, value)][1..] == [];
    assert Flatten([(key, value)]) == [key, value];
    assert [key, value][1..] == [value] && [value][1..] == [];
    Word(1, 1, 0, 0, 0);
    Word(2, 2, 0, 0, 0);
    assert key == Raw([107]) && value == Raw([118, 119]);
    assert PutStrings([value]) == PutString(value) + PutStrings([]);
    assert PutStrings([key, value]) == PutString(key) + PutStrings([value]);
  }

  /** The opcodes that validation knows, those of graph/graph.h:153-219. */
  lemma KnownOpsAre(op: u32)
    ensures KnownOp(op) <==>
      || op in {0, 1, 10, 11, 20, 21, 22, 23, 24, 25} || op in {30, 31, 32, 40, 50, 51, 52, 53, 54}
      || op in {60, 61, 62, 63, 64, 65} || op in {70, 71, 72, 73, 74, 75, 76, 77, 78, 79, 80, 81}
      || op in {110, 111, 112, 120} || op in {130, 131, 132, 133, 134, 135, 136, 137, 138, 139, 140, 141, 142}
      || op in {150, 151, 152, 153, 157, 160, 161, 162, 163}
  {
  }

  /** What validation asks of the node at an index, in numbers. */
  lemma ValidNodesAre(n: Node, index: nat)
    ensures ValidNode(n, index) <==>
      && n.id == index && KnownOp(n.op) && 0 <= n.prec <= 16 && (forall k :: 0 <= k < |n.inputs| ==> n.inputs[k] < index)
      && 0 <= n.dims.x0.kind <= 5 && 0 <= n.dims.x1.kind <= 5 && 0 <= n.dims.x2.kind <= 5 && 0 <= n.dims.x3.kind <= 5
  {
  }

  /** The reader's limits in numbers: nodes, metadata, lists and strings. */
  lemma LimitsAre(g: Graph)
    requires ValidGraph(g)
    ensures ReadableGraph(g) <==>
      && |g.metadata| <= 1_000_000 && |g.inputs| <= 16_000_000 && |g.outputs| <= 16_000_000
      && (forall k <- g.metadata :: |k| <= 67_108_864 && |g.metadata[k]| <= 67_108_864)
      && forall i :: 0 <= i < |g.nodes| ==> NodeFits(g.nodes[i])
    ensures |g.nodes| <= 1_000_000
  {
  }

  predicate NodeFits(n: Node) {
    && |n.inputs| <= 16_000_000 && |n.params.i32s| <= 16_000_000 && |n.params.f32s| <= 16_000_000 && |n.params.strs| <= 16_000_000
    && forall k :: 0 <= k < |n.params.strs| ==> |n.params.strs[k]| <= 67_108_864
  }
}
