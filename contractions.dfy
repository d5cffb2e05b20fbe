/** The parts of a contraction problem description that the client writer reads.
    Contractions.py and SolutionStructs.py, where these come from, are not part of this model;
    each record keeps only the fields that problemSizeParams reads. */
module Contractions {

  /** The kind of one index of a contraction. A free index belongs to A (isA) or to B and
      has position `i` in that tensor; batch and bound (summation) indices have positions
      `a` in A and `b` in B. */
  datatype Index =
    | FreeIndex(isA: bool, i: int)
    | BatchIndex(a: int, b: int)
    | BoundIndex(a: int, b: int)

  /** A problem type: its indices, the number of dimensions of A, B, C and D, the pinned
      ("const") strides as (index number, stride) pairs, and the flags read here. */
  datatype ProblemType = ProblemType(
    indices: seq<Index>,
    aDims: nat,
    bDims: nat,
    cDims: nat,
    dDims: nat,
    setConstStrideA: seq<(int, int)>,
    setConstStrideB: seq<(int, int)>,
    setConstStrideBias: seq<(int, int)>,
    useE: bool,
    useBias: bool,
    sparse: bool)

  /** One benchmark problem: its sizes and the strides it supplies for each tensor.
      An empty stride list stands for both `None` and an empty tuple, which the source treats alike. */
  datatype Problem = Problem(
    sizes: seq<int>,
    stridesA: seq<int>,
    stridesB: seq<int>,
    stridesC: seq<int>,
    stridesD: seq<int>)
}
