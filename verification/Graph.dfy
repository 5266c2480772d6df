/** The serialised graph of graph/graph.h: a linear list of nodes that name
    their inputs by id, shared by every other module of the project. */
module Graph {

  /** One C++ `char`; a std::string is a `Bytes`. */
  type byte = c: char | c as int < 256
  type Bytes = seq<byte>
  type u8 = x: int | 0 <= x < 0x100
  type u32 = x: int | 0 <= x < 0x1_0000_0000
  type i32 = x: int | -0x8000_0000 <= x < 0x8000_0000
  type i64 = x: int | -0x8000_0000_0000_0000 <= x < 0x8000_0000_0000_0000

  /** A C array of four elements. */
  datatype Four<T> = Four(x0: T, x1: T, x2: T, x3: T)

  type i8 = x: int | -0x80 <= x < 0x80

  /** `kind` is one of DIM_CONST .. DIM_DIV in a valid graph. */
  datatype DimExpr = DimExpr(kind: i8, coeff: i32)

  const DIM_CONST := 0
  const DIM_DIV := 5

  /** Float parameters are kept as their bit patterns. */
  datatype Params = Params(i32s: seq<i32>, f32s: seq<u32>, strs: seq<Bytes>)

  datatype Node = Node(id: u32, op: u32, inputs: seq<u32>, params: Params,
                       shape: Four<i64>, dims: Four<DimExpr>, prec: u8)

  datatype Graph = Graph(nodes: seq<Node>, inputs: seq<u32>, outputs: seq<u32>,
                         metadata: map<Bytes, Bytes>)

  // ---- op codes (graph/graph.h:62-151), those the project refers to by name ----
  const INPUT: u32 := 0
  const CONSTANT: u32 := 1
  const MATMUL: u32 := 10
  const ADD_RMS_NORM: u32 := 22
  const RMS_NORM_ROPE: u32 := 23
  const QK_RMS_NORM_ROPE: u32 := 24
  const GROUP_RMS_NORM: u32 := 25
  const SDPA: u32 := 50
  const SDPA_MLA: u32 := 51
  const QSA_SDPA: u32 := 52
  const QSA_INDEXER: u32 := 53
  const SDPA_MLA_ABSORB: u32 := 54
  const RESHAPE: u32 := 60
  const PERMUTE: u32 := 61
  const SLICE: u32 := 63
  const CONTIGUOUS: u32 := 65
  const SIGMOID: u32 := 72
  const GATED_DELTANET_DECODE: u32 := 110
  const GATED_DELTANET_PREFILL: u32 := 111
  const GATED_DELTANET_CONV_DECODE: u32 := 112
  const MOE: u32 := 120
  const GR_REDUCE: u32 := 133
  const GR_INJECT: u32 := 134
  const PLE_LOOKUP: u32 := 135
  const PLE_DILATED_CONV: u32 := 137
  const SHORTCONV: u32 := 140
  const HY4_INDEXER: u32 := 142
  const DSV4_COMPRESSOR: u32 := 160
  const DSV4_INDEXER: u32 := 161
  const DSV4_SPARSE_ATTN: u32 := 162

  const FP32: u8 := 0
  const FP16: u8 := 1

  predicate IsSource(n: Node) {
    n.op == INPUT || n.op == CONSTANT
  }

  /** The host kernels that can return a view of their first input. */
  predicate IsView(n: Node) {
    n.op == RESHAPE || n.op == PERMUTE || n.op == SLICE
  }

  function GetI32(p: Params, index: nat, default: int): int {
    if index < |p.i32s| then p.i32s[index] else default
  }
}
