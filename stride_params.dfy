/** The stride and size arguments of one benchmark problem (problemSizeParams) and the
    last-match lookup of pinned strides (checkConstStride). */
module StrideParams {
  import opened Wrappers
  import opened Lists
  import opened Contractions

  /** The tensor whose stride list a const-stride pin applies to. */
  datatype Tensor = A | B

  /** The exceptions problemSizeParams can raise. */
  datatype Error =
    | IndexError                                  // a list subscript out of range
    | FreeIndexWrongTensor                        // the assertion that a pinned free index belongs to the pinned tensor
    | LdaConflict(lda: int, size: int)            // "problem-specified lda conflicts with setConstStrideA"
    | LdbConflict(ldb: int, size: int)            // "problem-specified ldb conflicts with setConstStrideB"
    | InvalidSizeCount(count: nat, numIndices: nat) // "Invalid number of problem type indices"
    | BiasStrideTooSmall(stride: int, length: int)  // "problem-specified bias stride must >= ..."

  /** One `key=value` line of the client configuration; the value is a comma-separated list of integers. */
  datatype Param = Param(key: string, value: seq<int>)

  // ---------------------------------------------------------------------------
  // checkConstStride

  /** Pair `j` is the last pair of `m` whose index is `key`. */
  ghost predicate IsLastMatch<K, V>(m: seq<(K, V)>, key: K, j: int) {
    0 <= j < |m| && m[j].0 == key && forall j' :: j < j' < |m| ==> m[j'].0 != key
  }

  /** The value of the last pair whose index is `keyIdx`, or None when no pair has that index. */
  method CheckConstStride<K(==), V>(constStrideMap: seq<(K, V)>, keyIdx: K) returns (finalVal: Option<V>)
    ensures finalVal.None? <==> forall j :: 0 <= j < |constStrideMap| ==> constStrideMap[j].0 != keyIdx
    ensures finalVal.Some? ==>
      exists j :: IsLastMatch(constStrideMap, keyIdx, j) && constStrideMap[j].1 == finalVal.value
  {
    finalVal := None;
    for n := 0 to |constStrideMap|
      invariant finalVal.None? <==> forall j :: 0 <= j < n ==> constStrideMap[j].0 != keyIdx
      invariant finalVal.Some? ==>
        exists j :: IsLastMatch(constStrideMap[..n], keyIdx, j) && constStrideMap[j].1 == finalVal.value
    {
      var (mapIdx, val) := constStrideMap[n];
      if keyIdx == mapIdx {
        finalVal := Some(val);
        assert IsLastMatch(constStrideMap[..n + 1], keyIdx, n);
      } else if finalVal.Some? {
        ghost var j :| IsLastMatch(constStrideMap[..n], keyIdx, j) && constStrideMap[j].1 == finalVal.value;
        assert IsLastMatch(constStrideMap[..n + 1], keyIdx, j);
      }
    }
    assert constStrideMap[..|constStrideMap|] == constStrideMap;
  }

  // ---------------------------------------------------------------------------
  // Initial stride lists and the setConstStrideA/B pins

  /** `[-1] * n`: a stride list of `n` unset entries. */
  function Unset(n: nat): (r: seq<int>)
    ensures |r| == n && forall k :: 0 <= k < n ==> r[k] == -1
  {
    seq(n, _ => -1)
  }

  /** The problem's own strides when it supplies some, otherwise `dims` unset entries. */
  function InitialStrides(given: seq<int>, dims: nat): seq<int> {
    if |given| > 0 then given else Unset(dims)
  }

  /** The stride subscript that pin `sc` names for tensor `t`, before Python's negative-subscript
      rule is applied: `.i` of a free index (which must belong to `t`), `.a` or `.b` otherwise. */
  function PinTarget(indices: seq<Index>, sc: (int, int), t: Tensor): Result<int, Error> {
    match Resolve(|indices|, sc.0)
    case None => Failure(IndexError)
    case Some(k) =>
      match indices[k]
      case FreeIndex(isA, i) => if isA == (t == A) then Success(i) else Failure(FreeIndexWrongTensor)
      case BatchIndex(a, b) => Success(if t == A then a else b)
      case BoundIndex(a, b) => Success(if t == A then a else b)
  }

  /** The slot of a stride list of length `n` that pin `sc` assigns. */
  function PinSlot(indices: seq<Index>, n: nat, sc: (int, int), t: Tensor): (r: Result<nat, Error>)
    ensures r.Success? ==> r.value < n
  {
    match PinTarget(indices, sc, t)
    case Failure(e) => Failure(e)
    case Success(target) =>
      match Resolve(n, target)
      case None => Failure(IndexError)
      case Some(slot) => Success(slot)
  }

  /** The stride list after the pins are applied one after the other; the first pin that names
      no slot aborts with its error. */
  function ApplyPins(strides: seq<int>, indices: seq<Index>, pins: seq<(int, int)>, t: Tensor): (r: Result<seq<int>, Error>)
    ensures r.Success? ==> |r.value| == |strides|
    decreases |pins|
  {
    if pins == [] then Success(strides)
    else
      match ApplyPins(strides, indices, pins[..|pins| - 1], t)
      case Failure(e) => Failure(e)
      case Success(prev) =>
        match PinSlot(indices, |strides|, pins[|pins| - 1], t)
        case Failure(e) => Failure(e)
        case Success(slot) => Success(prev[slot := pins[|pins| - 1].1])
  }

  /** Every pin names a slot. */
  ghost predicate AllPinsResolve(indices: seq<Index>, n: nat, pins: seq<(int, int)>, t: Tensor) {
    forall j :: 0 <= j < |pins| ==> PinSlot(indices, n, pins[j], t).Success?
  }

  /** `r` is `base` with each slot that some pin names set to the value of the last pin naming
      it, and every other slot unchanged. */
  ghost predicate Pinned(base: seq<int>, r: seq<int>, indices: seq<Index>, pins: seq<(int, int)>, t: Tensor) {
    && |r| == |base|
    && (forall k :: 0 <= k < |base| && (forall j :: 0 <= j < |pins| ==> PinSlot(indices, |base|, pins[j], t) != Success(k))
          ==> r[k] == base[k])
    && (forall j, k :: 0 <= j < |pins| && PinSlot(indices, |base|, pins[j], t) == Success(k)
          && (forall j' :: j < j' < |pins| ==> PinSlot(indices, |base|, pins[j'], t) != Success(k))
          ==> r[k] == pins[j].1)
  }

  /** Applying the pins succeeds exactly when every pin names a slot. */
  lemma {:induction false} ApplyPinsSucceeds(strides: seq<int>, indices: seq<Index>, pins: seq<(int, int)>, t: Tensor)
    ensures ApplyPins(strides, indices, pins, t).Success? <==> AllPinsResolve(indices, |strides|, pins, t)
    decreases |pins|
  {
    if pins != [] {
      var init := pins[..|pins| - 1];
      assert forall j :: 0 <= j < |init| ==> init[j] == pins[j];
      ApplyPinsSucceeds(strides, indices, init, t);
    }
  }

  /** A failure is the error of the first pin that names no slot. */
  lemma {:induction false} ApplyPinsFirstError(strides: seq<int>, indices: seq<Index>, pins: seq<(int, int)>, t: Tensor)
    requires ApplyPins(strides, indices, pins, t).Failure?
    ensures exists j :: && 0 <= j < |pins|
                        && PinSlot(indices, |strides|, pins[j], t) == Failure(ApplyPins(strides, indices, pins, t).error)
                        && forall j' :: 0 <= j' < j ==> PinSlot(indices, |strides|, pins[j'], t).Success?
    decreases |pins|
  {
    var init, last := pins[..|pins| - 1], pins[|pins| - 1];
    assert forall j :: 0 <= j < |init| ==> init[j] == pins[j];
    if ApplyPins(strides, indices, init, t).Failure? {
      ApplyPinsFirstError(strides, indices, init, t);
    } else {
      ApplyPinsSucceeds(strides, indices, init, t);
      assert PinSlot(indices, |strides|, pins[|pins| - 1], t) == Failure(ApplyPins(strides, indices, pins, t).error);
    }
  }

  /** A successful application pins exactly the slots the pins name, each to its last pin's value. */
  lemma {:induction false} ApplyPinsPinned(strides: seq<int>, indices: seq<Index>, pins: seq<(int, int)>, t: Tensor)
    requires ApplyPins(strides, indices, pins, t).Success?
    ensures Pinned(strides, ApplyPins(strides, indices, pins, t).value, indices, pins, t)
    decreases |pins|
  {
    if pins != [] {
      var init, last := pins[..|pins| - 1], pins[|pins| - 1];
      assert pins == init + [last];
      ApplyPinsPinned(strides, indices, init, t);
      PinnedSnoc(strides, ApplyPins(strides, indices, init, t).value, indices, init, last,
                 PinSlot(indices, |strides|, last, t).value, t);
    }
  }

  /** One more pin, naming `slot`, keeps the list pinned once its value is written there. */
  lemma PinnedSnoc(base: seq<int>, prev: seq<int>, indices: seq<Index>, pins: seq<(int, int)>, last: (int, int), slot: nat, t: Tensor)
    requires Pinned(base, prev, indices, pins, t)
    requires PinSlot(indices, |base|, last, t) == Success(slot)
    ensures Pinned(base, prev[slot := last.1], indices, pins + [last], t)
  {
    var n, all, r := |base|, pins + [last], prev[slot := last.1];
    assert forall j :: 0 <= j < |pins| ==> all[j] == pins[j];
    assert all[|pins|] == last;
    forall k | 0 <= k < n && (forall j :: 0 <= j < |all| ==> PinSlot(indices, n, all[j], t) != Success(k))
      ensures r[k] == base[k]
    {
      assert PinSlot(indices, n, all[|pins|], t) == Success(slot);
    }
    forall j, k | 0 <= j < |all| && PinSlot(indices, n, all[j], t) == Success(k)
      && (forall j' :: j < j' < |all| ==> PinSlot(indices, n, all[j'], t) != Success(k))
      ensures r[k] == all[j].1
    {
      if j < |pins| {
        assert PinSlot(indices, n, all[|pins|], t) == Success(slot);
        assert k != slot;
        assert PinSlot(indices, n, pins[j], t) == Success(k);
      }
    }
  }

  /** One of the setConstStrideA/B loops: applies the pins to `strides` in order, each to the slot
      its index kind selects. */
  method ApplyConstStrides(strides: seq<int>, indices: seq<Index>, pins: seq<(int, int)>, t: Tensor) returns (r: Result<seq<int>, Error>)
    ensures r == ApplyPins(strides, indices, pins, t)
  {
    var cur := strides;
    for j := 0 to |pins|
      invariant ApplyPins(strides, indices, pins[..j], t) == Success(cur)
    {
      assert pins[..j + 1][..j] == pins[..j];
      var sc := pins[j];
      var k := Resolve(|indices|, sc.0);
      if k.None? {
        ApplyPinsAborts(strides, indices, pins, j + 1, t);
        return Failure(IndexError);
      }
      var target: int;
      match indices[k.value] {
        case FreeIndex(isA, i) =>
          if isA != (t == A) {
            ApplyPinsAborts(strides, indices, pins, j + 1, t);
            return Failure(FreeIndexWrongTensor);
          }
          target := i;
        case BatchIndex(a, b) =>
          target := if t == A then a else b;
        case BoundIndex(a, b) =>
          target := if t == A then a else b;
      }
      var slot := Resolve(|cur|, target);
      if slot.None? {
        ApplyPinsAborts(strides, indices, pins, j + 1, t);
        return Failure(IndexError);
      }
      cur := cur[slot.value := sc.1];
    }
    assert pins[..|pins|] == pins;
    r := Success(cur);
  }

  /** Once a prefix of the pins fails, applying all of them fails with the same error. */
  lemma {:induction false} ApplyPinsAborts(strides: seq<int>, indices: seq<Index>, pins: seq<(int, int)>, n: nat, t: Tensor)
    requires n <= |pins| && ApplyPins(strides, indices, pins[..n], t).Failure?
    ensures ApplyPins(strides, indices, pins, t) == ApplyPins(strides, indices, pins[..n], t)
    decreases |pins| - n
  {
    if n < |pins| {
      assert pins[..n + 1][..n] == pins[..n];
      ApplyPinsAborts(strides, indices, pins, n + 1, t);
    } else {
      assert pins[..n] == pins;
    }
  }

  // ---------------------------------------------------------------------------
  // The "Exact" size format

  /** The four tensors' stride lists. */
  datatype Strides = Strides(a: seq<int>, b: seq<int>, c: seq<int>, d: seq<int>)

  /** Sets the leading dimension (slot 1) to `ld` if it is unset. */
  function FillUnset(strides: seq<int>, ld: int): seq<int>
    requires |strides| >= 2
  {
    if strides[1] == -1 then strides[1 := ld] else strides
  }

  /** The "Exact" format carries the leading dimensions of D, C, A and B after the `n` sizes.
      A set lda or ldb must agree with the one carried; C's and D's are taken only when unset. */
  function ExactFormat(s: Strides, sizes: seq<int>, n: nat): (r: Result<Strides, Error>)
    requires |sizes| == n + 4
    ensures r.Success? ==> |r.value.a| == |s.a| && |r.value.b| == |s.b| && |r.value.c| == |s.c| && |r.value.d| == |s.d|
    ensures r.Success? ==> |s.a| >= 2 && |s.b| >= 2 && r.value.a[1] == sizes[n + 2] && r.value.b[1] == sizes[n + 3]
  {
    if |s.a| < 2 then Failure(IndexError)
    else if s.a[1] != -1 && s.a[1] != sizes[n + 2] then Failure(LdaConflict(s.a[1], sizes[n + 2]))
    else if |s.b| < 2 then Failure(IndexError)
    else if s.b[1] != -1 && s.b[1] != sizes[n + 3] then Failure(LdbConflict(s.b[1], sizes[n + 3]))
    else if |s.c| < 2 || |s.d| < 2 then Failure(IndexError)
    else Success(Strides(FillUnset(s.a, sizes[n + 2]), FillUnset(s.b, sizes[n + 3]),
                         FillUnset(s.c, sizes[n + 1]), FillUnset(s.d, sizes[n])))
  }

  /** The stride lists before the size format is looked at: the problem's own or unset ones,
      with the setConstStrideA/B pins applied. */
  function PinnedStrides(pt: ProblemType, p: Problem): Result<Strides, Error> {
    var a :- ApplyPins(InitialStrides(p.stridesA, pt.aDims), pt.indices, pt.setConstStrideA, A);
    var b :- ApplyPins(InitialStrides(p.stridesB, pt.bDims), pt.indices, pt.setConstStrideB, B);
    Success(Strides(a, b, InitialStrides(p.stridesC, pt.cDims), InitialStrides(p.stridesD, pt.dDims)))
  }

  /** The stride lists written out: the plain format takes the pinned ones as they are, the
      Exact format fills in the leading dimensions, and any other size count is rejected. */
  function FinalStrides(pt: ProblemType, p: Problem): Result<Strides, Error> {
    var s :- PinnedStrides(pt, p);
    var n := |pt.indices|;
    if |p.sizes| == n then Success(s)
    else if |p.sizes| == n + 4 then ExactFormat(s, p.sizes, n)
    else Failure(InvalidSizeCount(|p.sizes|, n))
  }

  // ---------------------------------------------------------------------------
  // Bias strides

  /** The bias length: M, or for sparse problems max(M, N) when there is more than one factor
      dimension and N when the factor dimension is 1. */
  function BiasLength(pt: ProblemType, sizes: seq<int>, factorDim: seq<int>): Result<int, Error> {
    if |sizes| == 0 then Failure(IndexError)
    else if pt.sparse && |factorDim| > 1 then
      if |sizes| < 2 then Failure(IndexError) else Success(Max(sizes[0], sizes[1]))
    else if pt.sparse && 1 in factorDim then
      if |sizes| < 2 then Failure(IndexError) else Success(sizes[1])
    else Success(sizes[0])
  }

  /** Pin `sc` names a batch index. */
  ghost predicate NamesBatch(indices: seq<Index>, sc: (int, int)) {
    match Resolve(|indices|, sc.0)
    case None => false
    case Some(k) => indices[k].BatchIndex?
  }

  /** The third bias stride after the setConstStrideBias loop, which starts from 0. */
  function BiasPin(indices: seq<Index>, pins: seq<(int, int)>): Result<int, Error>
    decreases |pins|
  {
    if pins == [] then Success(0)
    else
      var prev :- BiasPin(indices, pins[..|pins| - 1]);
      match Resolve(|indices|, pins[|pins| - 1].0)
      case None => Failure(IndexError)
      case Some(k) => Success(if indices[k].BatchIndex? then pins[|pins| - 1].1 else prev)
  }

  /** The bias pin loop fails exactly when some pin's index number is out of range; otherwise
      the stride is the value of the last pin naming a batch index, or 0 if no pin does. */
  lemma {:induction false} BiasPinMeaning(indices: seq<Index>, pins: seq<(int, int)>)
    ensures BiasPin(indices, pins).Success? <==> forall j :: 0 <= j < |pins| ==> Resolve(|indices|, pins[j].0).Some?
    ensures BiasPin(indices, pins).Failure? ==> BiasPin(indices, pins).error == IndexError
    ensures BiasPin(indices, pins).Success? && (forall j :: 0 <= j < |pins| ==> !NamesBatch(indices, pins[j])) ==>
      BiasPin(indices, pins).value == 0
    ensures BiasPin(indices, pins).Success? ==>
      forall j :: (0 <= j < |pins| && NamesBatch(indices, pins[j])
                   && (forall j' :: j < j' < |pins| ==> !NamesBatch(indices, pins[j']))) ==>
        BiasPin(indices, pins).value == pins[j].1
    decreases |pins|
  {
    if pins != [] {
      var init := pins[..|pins| - 1];
      assert forall j :: 0 <= j < |init| ==> init[j] == pins[j];
      BiasPinMeaning(indices, init);
    }
  }

  /** The bias strides `[1, length, s]`: `s` is the pinned batch stride, `-1` stands for `length`,
      and any other non-zero value below `length` is rejected. */
  function BiasStrides(pt: ProblemType, sizes: seq<int>, factorDim: seq<int>): Result<seq<int>, Error> {
    var length :- BiasLength(pt, sizes, factorDim);
    var s :- BiasPin(pt.indices, pt.setConstStrideBias);
    if s == -1 then Success([1, length, length])
    else if s != 0 && s < length then Failure(BiasStrideTooSmall(s, length))
    else Success([1, length, s])
  }

  // ---------------------------------------------------------------------------
  // problemSizeParams

  /** The arguments in the order they are written. */
  function StrideArgs(pt: ProblemType, problemSize: seq<int>, s: Strides, bias: seq<int>): seq<Param> {
    [Param("problem-size", problemSize), Param("a-strides", s.a), Param("b-strides", s.b)]
    + OutputArgs(pt, s) + (if pt.useBias then [Param("bias-strides", bias)] else [])
  }

  /** The output-tensor arguments: c-strides and d-strides when non-empty, e-strides (D's strides) with useE. */
  function OutputArgs(pt: ProblemType, s: Strides): seq<Param> {
    (if |s.c| > 0 then [Param("c-strides", s.c)] else [])
    + (if |s.d| > 0 then [Param("d-strides", s.d)] + (if pt.useE then [Param("e-strides", s.d)] else []) else [])
  }

  /** The (key, value) pairs problemSizeParams returns for one problem, or the error it raises. */
  function SizeParams(pt: ProblemType, p: Problem, factorDim: seq<int>): Result<seq<Param>, Error> {
    var s :- FinalStrides(pt, p);
    var bias :- if pt.useBias then BiasStrides(pt, p.sizes, factorDim) else Success([]);
    Success(StrideArgs(pt, Prefix(p.sizes, |pt.indices|), s, bias))
  }

  /** problemSizeParams, step by step as the source does it. */
  method ProblemSizeParams(problemType: ProblemType, problem: Problem, factorDim: seq<int>) returns (r: Result<seq<Param>, Error>)
    ensures r == SizeParams(problemType, problem, factorDim)
  {
    var numIndices := |problemType.indices|;
    var sizes := problem.sizes;
    var rv: seq<Param> := [];

    var strides := ComputeStrides(problemType, problem);
    if strides.Failure? {
      return Failure(strides.error);
    }
    var s := strides.value;

    rv := [Param("problem-size", sizes[..numIndices])] + rv;
    rv := rv + [Param("a-strides", s.a)];
    rv := rv + [Param("b-strides", s.b)];
    ghost var head := rv;
    assert head == [Param("problem-size", sizes[..numIndices]), Param("a-strides", s.a), Param("b-strides", s.b)];
    if |s.c| > 0 {
      rv := rv + [Param("c-strides", s.c)];
    }
    if |s.d| > 0 {
      rv := rv + [Param("d-strides", s.d)];
      if problemType.useE {
        rv := rv + [Param("e-strides", s.d)];
      }
    }
    assert rv == head + OutputArgs(problemType, s);
    ghost var body := rv;
    var bias: seq<int> := [];
    if problemType.useBias {
      var biasstrides := ComputeBiasStrides(problemType, sizes, factorDim);
      if biasstrides.Failure? {
        SizeParamsSplit(problemType, problem, factorDim);
        return Failure(biasstrides.error);
      }
      bias := biasstrides.value;
      rv := rv + [Param("bias-strides", bias)];
    }
    assert rv == body + (if problemType.useBias then [Param("bias-strides", bias)] else []);
    assert Prefix(sizes, numIndices) == sizes[..numIndices];
    SizeParamsSplit(problemType, problem, factorDim);
    return Success(rv);
  }

  /** SizeParams in terms of its stages; an unfolding of its definition that the lemmas below use as a proof step. */
  lemma SizeParamsSplit(pt: ProblemType, p: Problem, factorDim: seq<int>)
    ensures FinalStrides(pt, p).Failure? ==> SizeParams(pt, p, factorDim) == Failure(FinalStrides(pt, p).error)
    ensures FinalStrides(pt, p).Success? && pt.useBias && BiasStrides(pt, p.sizes, factorDim).Failure? ==>
      SizeParams(pt, p, factorDim) == Failure(BiasStrides(pt, p.sizes, factorDim).error)
    ensures FinalStrides(pt, p).Success? && (pt.useBias ==> BiasStrides(pt, p.sizes, factorDim).Success?) ==>
      SizeParams(pt, p, factorDim) == Success(StrideArgs(pt, Prefix(p.sizes, |pt.indices|), FinalStrides(pt, p).value,
                                                         if pt.useBias then BiasStrides(pt, p.sizes, factorDim).value else []))
  {
  }

  /** The stride part of problemSizeParams: the initial lists, the setConstStrideA/B loops and
      the check of the size count, with the Exact-format branch. */
  method ComputeStrides(problemType: ProblemType, problem: Problem) returns (r: Result<Strides, Error>)
    ensures r == FinalStrides(problemType, problem)
    ensures r.Success? ==> |problem.sizes| >= |problemType.indices|
  {
    var numIndices := |problemType.indices|;
    var sizes := problem.sizes;

    var astrides := if |problem.stridesA| > 0 then problem.stridesA else Unset(problemType.aDims);
    var pinnedA := ApplyConstStrides(astrides, problemType.indices, problemType.setConstStrideA, A);
    if pinnedA.Failure? {
      return Failure(pinnedA.error);
    }
    astrides := pinnedA.value;

    var bstrides := if |problem.stridesB| > 0 then problem.stridesB else Unset(problemType.bDims);
    var pinnedB := ApplyConstStrides(bstrides, problemType.indices, problemType.setConstStrideB, B);
    if pinnedB.Failure? {
      return Failure(pinnedB.error);
    }
    bstrides := pinnedB.value;

    var cstrides := if |problem.stridesC| > 0 then problem.stridesC else Unset(problemType.cDims);
    var dstrides := if |problem.stridesD| > 0 then problem.stridesD else Unset(problemType.dDims);
    var s := Strides(astrides, bstrides, cstrides, dstrides);
    assert PinnedStrides(problemType, problem) == Success(s);

    if |sizes| == numIndices {
      r := Success(s);
    } else if |sizes| == numIndices + 4 {
      r := ApplyExactFormat(s, sizes, numIndices);
    } else {
      r := Failure(InvalidSizeCount(|sizes|, numIndices));
    }
  }

  /** The Exact-format branch of problemSizeParams: fills or cross-checks the leading dimensions. */
  method ApplyExactFormat(s: Strides, sizes: seq<int>, numIndices: nat) returns (r: Result<Strides, Error>)
    requires |sizes| == numIndices + 4
    ensures r == ExactFormat(s, sizes, numIndices)
  {
    var astrides, bstrides, cstrides, dstrides := s.a, s.b, s.c, s.d;
    if |astrides| < 2 {
      return Failure(IndexError);
    }
    if astrides[1] == -1 {
      astrides := astrides[1 := sizes[numIndices + 2]];
    } else if astrides[1] != sizes[numIndices + 2] {
      return Failure(LdaConflict(astrides[1], sizes[numIndices + 2]));
    }
    if |bstrides| < 2 {
      return Failure(IndexError);
    }
    if bstrides[1] == -1 {
      bstrides := bstrides[1 := sizes[numIndices + 3]];
    } else if bstrides[1] != sizes[numIndices + 3] {
      return Failure(LdbConflict(bstrides[1], sizes[numIndices + 3]));
    }
    if |cstrides| < 2 {
      return Failure(IndexError);
    }
    if cstrides[1] == -1 {
      cstrides := cstrides[1 := sizes[numIndices + 1]];
    }
    if |dstrides| < 2 {
      return Failure(IndexError);
    }
    if dstrides[1] == -1 {
      dstrides := dstrides[1 := sizes[numIndices + 0]];
    }
    return Success(Strides(astrides, bstrides, cstrides, dstrides));
  }

  /** The useBias branch of problemSizeParams: the bias length, the setConstStrideBias loop and
      the final check of the third stride. */
  method ComputeBiasStrides(problemType: ProblemType, sizes: seq<int>, factorDim: seq<int>) returns (r: Result<seq<int>, Error>)
    ensures r == BiasStrides(problemType, sizes, factorDim)
  {
    if |sizes| == 0 {
      return Failure(IndexError);
    }
    var length := sizes[0];
    if problemType.sparse {
      if |factorDim| > 1 {
        if |sizes| < 2 {
          return Failure(IndexError);
        }
        length := Max(sizes[0], sizes[1]);
      } else if 1 in factorDim {
        if |sizes| < 2 {
          return Failure(IndexError);
        }
        length := sizes[1];
      }
    }
    assert BiasLength(problemType, sizes, factorDim) == Success(length);
    var biasstrides := [1, length, 0];
    var pins := problemType.setConstStrideBias;
    for j := 0 to |pins|
      invariant |biasstrides| == 3 && biasstrides[0] == 1 && biasstrides[1] == length
      invariant BiasPin(problemType.indices, pins[..j]) == Success(biasstrides[2])
    {
      assert pins[..j + 1][..j] == pins[..j];
      var index := Resolve(|problemType.indices|, pins[j].0);
      if index.None? {
        BiasPinAborts(problemType.indices, pins, j + 1);
        return Failure(IndexError);
      }
      if problemType.indices[index.value].BatchIndex? {
        biasstrides := biasstrides[2 := pins[j].1];
      }
    }
    assert pins[..|pins|] == pins;
    assert biasstrides == [1, length, biasstrides[2]];
    if biasstrides[2] == -1 {
      biasstrides := biasstrides[2 := length];
      assert biasstrides == [1, length, length];
    } else if biasstrides[2] != 0 && biasstrides[2] < length {
      return Failure(BiasStrideTooSmall(biasstrides[2], length));
    }
    return Success(biasstrides);
  }

  /** Once a prefix of the bias pins fails, the whole loop fails with the same error. */
  lemma {:induction false} BiasPinAborts(indices: seq<Index>, pins: seq<(int, int)>, n: nat)
    requires n <= |pins| && BiasPin(indices, pins[..n]).Failure?
    ensures BiasPin(indices, pins) == BiasPin(indices, pins[..n])
    decreases |pins| - n
  {
    if n < |pins| {
      assert pins[..n + 1][..n] == pins[..n];
      BiasPinAborts(indices, pins, n + 1);
    } else {
      assert pins[..n] == pins;
    }
  }

  // ---------------------------------------------------------------------------
  // What problemSizeParams promises

  /** The keys of an argument list, in order. */
  function Keys(args: seq<Param>): (r: seq<string>)
    ensures |r| == |args| && forall i :: 0 <= i < |args| ==> r[i] == args[i].key
  {
    seq(|args|, i requires 0 <= i < |args| => args[i].key)
  }

  /** The size count is checked only after the pins: once they resolve, a count that is neither
      the number of indices nor that number plus 4 is rejected, and on success the first argument
      holds exactly the first `numIndices` sizes. */
  lemma SizeCount(pt: ProblemType, p: Problem, factorDim: seq<int>)
    ensures SizeParams(pt, p, factorDim).Success? ==>
      |p.sizes| == |pt.indices| || |p.sizes| == |pt.indices| + 4
    ensures SizeParams(pt, p, factorDim).Success? ==>
      |p.sizes| >= |pt.indices| && SizeParams(pt, p, factorDim).value[0] == Param("problem-size", p.sizes[..|pt.indices|])
    ensures PinnedStrides(pt, p).Success? && |p.sizes| != |pt.indices| && |p.sizes| != |pt.indices| + 4 ==>
      SizeParams(pt, p, factorDim) == Failure(InvalidSizeCount(|p.sizes|, |pt.indices|))
  {
    SizeParamsSplit(pt, p, factorDim);
  }

  /** The pins of A and B resolve together or the call fails; when they do, A's and B's lists are
      the initial ones with their pinned slots set, and C's and D's are the initial ones. */
  lemma PinnedStridesMeaning(pt: ProblemType, p: Problem)
    ensures PinnedStrides(pt, p).Success? <==>
      && AllPinsResolve(pt.indices, |InitialStrides(p.stridesA, pt.aDims)|, pt.setConstStrideA, A)
      && AllPinsResolve(pt.indices, |InitialStrides(p.stridesB, pt.bDims)|, pt.setConstStrideB, B)
    ensures PinnedStrides(pt, p).Success? ==>
      && Pinned(InitialStrides(p.stridesA, pt.aDims), PinnedStrides(pt, p).value.a, pt.indices, pt.setConstStrideA, A)
      && Pinned(InitialStrides(p.stridesB, pt.bDims), PinnedStrides(pt, p).value.b, pt.indices, pt.setConstStrideB, B)
      && PinnedStrides(pt, p).value.c == InitialStrides(p.stridesC, pt.cDims)
      && PinnedStrides(pt, p).value.d == InitialStrides(p.stridesD, pt.dDims)
  {
    var a0, b0 := InitialStrides(p.stridesA, pt.aDims), InitialStrides(p.stridesB, pt.bDims);
    ApplyPinsSucceeds(a0, pt.indices, pt.setConstStrideA, A);
    ApplyPinsSucceeds(b0, pt.indices, pt.setConstStrideB, B);
    if PinnedStrides(pt, p).Success? {
      ApplyPinsPinned(a0, pt.indices, pt.setConstStrideA, A);
      ApplyPinsPinned(b0, pt.indices, pt.setConstStrideB, B);
    }
  }

  /** Without problem-supplied strides, the lists have aDims, bDims, cDims and dDims entries, all
      -1 except the A and B slots that setConstStrideA/B pin. */
  lemma DefaultStrides(pt: ProblemType, p: Problem)
    requires p.stridesA == [] && p.stridesB == [] && p.stridesC == [] && p.stridesD == []
    requires PinnedStrides(pt, p).Success?
    ensures Pinned(Unset(pt.aDims), PinnedStrides(pt, p).value.a, pt.indices, pt.setConstStrideA, A)
    ensures Pinned(Unset(pt.bDims), PinnedStrides(pt, p).value.b, pt.indices, pt.setConstStrideB, B)
    ensures |PinnedStrides(pt, p).value.c| == pt.cDims && forall k :: 0 <= k < pt.cDims ==> PinnedStrides(pt, p).value.c[k] == -1
    ensures |PinnedStrides(pt, p).value.d| == pt.dDims && forall k :: 0 <= k < pt.dDims ==> PinnedStrides(pt, p).value.d[k] == -1
  {
    PinnedStridesMeaning(pt, p);
  }

  /** In the plain format the pinned lists are written as they are (an unfolding of FinalStrides). */
  lemma PlainFormat(pt: ProblemType, p: Problem)
    requires |p.sizes| == |pt.indices|
    ensures FinalStrides(pt, p) == PinnedStrides(pt, p)
  {
  }

  /** In the Exact format, an unset lda becomes sizes[n+2] and a set one that differs is an lda
      conflict; B does the same with sizes[n+3] and ldb. C and D take sizes[n+1] and sizes[n] only
      when unset and never raise a conflict. */
  lemma ExactLeadingDims(pt: ProblemType, p: Problem, factorDim: seq<int>)
    requires PinnedStrides(pt, p).Success? && |p.sizes| == |pt.indices| + 4
    ensures var s0, n := PinnedStrides(pt, p).value, |pt.indices|;
      |s0.a| >= 2 && s0.a[1] != -1 && s0.a[1] != p.sizes[n + 2] ==>
        SizeParams(pt, p, factorDim) == Failure(LdaConflict(s0.a[1], p.sizes[n + 2]))
    ensures var s0, n := PinnedStrides(pt, p).value, |pt.indices|;
      |s0.a| >= 2 && (s0.a[1] == -1 || s0.a[1] == p.sizes[n + 2]) &&
      |s0.b| >= 2 && s0.b[1] != -1 && s0.b[1] != p.sizes[n + 3] ==>
        SizeParams(pt, p, factorDim) == Failure(LdbConflict(s0.b[1], p.sizes[n + 3]))
    ensures var s0, n := PinnedStrides(pt, p).value, |pt.indices|;
      |s0.a| >= 2 && (s0.a[1] == -1 || s0.a[1] == p.sizes[n + 2]) &&
      |s0.b| >= 2 && (s0.b[1] == -1 || s0.b[1] == p.sizes[n + 3]) &&
      |s0.c| >= 2 && |s0.d| >= 2 ==>
        FinalStrides(pt, p) == Success(Strides(
          s0.a[1 := p.sizes[n + 2]],
          s0.b[1 := p.sizes[n + 3]],
          if s0.c[1] == -1 then s0.c[1 := p.sizes[n + 1]] else s0.c,
          if s0.d[1] == -1 then s0.d[1 := p.sizes[n]] else s0.d))
    ensures FinalStrides(pt, p).Failure? ==>
      FinalStrides(pt, p).error.IndexError? || FinalStrides(pt, p).error.LdaConflict? || FinalStrides(pt, p).error.LdbConflict?
  {
    SizeParamsSplit(pt, p, factorDim);
    var s0, n := PinnedStrides(pt, p).value, |pt.indices|;
    if |s0.a| >= 2 {
      assert s0.a[1] == -1 || s0.a[1] == p.sizes[n + 2] ==> FillUnset(s0.a, p.sizes[n + 2]) == s0.a[1 := p.sizes[n + 2]];
    }
    if |s0.b| >= 2 {
      assert s0.b[1] == -1 || s0.b[1] == p.sizes[n + 3] ==> FillUnset(s0.b, p.sizes[n + 3]) == s0.b[1 := p.sizes[n + 3]];
    }
  }

  /** The keys of a concatenation are the concatenated keys (a proof step for the key-order lemmas). */
  lemma KeysConcat(x: seq<Param>, y: seq<Param>)
    ensures Keys(x + y) == Keys(x) + Keys(y)
  {
  }

  /** The keys of the output-tensor arguments (an unfolding of OutputArgs, a step towards OutputOrder). */
  lemma OutputKeys(pt: ProblemType, s: Strides)
    ensures Keys(OutputArgs(pt, s)) ==
      (if |s.c| > 0 then ["c-strides"] else [])
      + (if |s.d| > 0 then ["d-strides"] + (if pt.useE then ["e-strides"] else []) else [])
  {
    var c := if |s.c| > 0 then [Param("c-strides", s.c)] else [];
    var e := if pt.useE then [Param("e-strides", s.d)] else [];
    var d := if |s.d| > 0 then [Param("d-strides", s.d)] + e else [];
    KeysConcat(c, d);
    KeysConcat([Param("d-strides", s.d)], e);
  }

  /** The keys StrideArgs writes (an unfolding of StrideArgs, the step OutputOrder builds on). */
  lemma StrideArgsKeys(pt: ProblemType, problemSize: seq<int>, s: Strides, bias: seq<int>)
    ensures Keys(StrideArgs(pt, problemSize, s, bias)) ==
      ["problem-size", "a-strides", "b-strides"]
      + (if |s.c| > 0 then ["c-strides"] else [])
      + (if |s.d| > 0 then ["d-strides"] + (if pt.useE then ["e-strides"] else []) else [])
      + (if pt.useBias then ["bias-strides"] else [])
  {
    var head := [Param("problem-size", problemSize), Param("a-strides", s.a), Param("b-strides", s.b)];
    var tail := if pt.useBias then [Param("bias-strides", bias)] else [];
    KeysConcat(head + OutputArgs(pt, s), tail);
    KeysConcat(head, OutputArgs(pt, s));
    OutputKeys(pt, s);
    var kc: seq<string> := if |s.c| > 0 then ["c-strides"] else [];
    var kd: seq<string> := if |s.d| > 0 then ["d-strides"] + (if pt.useE then ["e-strides"] else []) else [];
    assert Keys(head) == ["problem-size", "a-strides", "b-strides"];
    assert ["problem-size", "a-strides", "b-strides"] + (kc + kd) == ["problem-size", "a-strides", "b-strides"] + kc + kd;
  }

  /** The arguments come in a fixed order: problem-size, a-strides and b-strides always; c-strides
      and d-strides when those lists are non-empty; e-strides with useE, right after d-strides;
      bias-strides last, with useBias. */
  lemma OutputOrder(pt: ProblemType, p: Problem, factorDim: seq<int>)
    requires SizeParams(pt, p, factorDim).Success?
    ensures Keys(SizeParams(pt, p, factorDim).value) ==
      ["problem-size", "a-strides", "b-strides"]
      + (if |p.stridesC| > 0 || pt.cDims > 0 then ["c-strides"] else [])
      + (if |p.stridesD| > 0 || pt.dDims > 0 then ["d-strides"] + (if pt.useE then ["e-strides"] else []) else [])
      + (if pt.useBias then ["bias-strides"] else [])
  {
    SizeParamsSplit(pt, p, factorDim);
    var s := FinalStrides(pt, p).value;
    assert |s.c| == |PinnedStrides(pt, p).value.c| && |s.d| == |PinnedStrides(pt, p).value.d|;
    StrideArgsKeys(pt, Prefix(p.sizes, |pt.indices|), s, if pt.useBias then BiasStrides(pt, p.sizes, factorDim).value else []);
  }

  /** a-strides and b-strides carry the final A and B stride lists (an unfolding of SizeParams). */
  lemma ArgsCarryStrides(pt: ProblemType, p: Problem, factorDim: seq<int>)
    requires SizeParams(pt, p, factorDim).Success?
    ensures SizeParams(pt, p, factorDim).value[1] == Param("a-strides", FinalStrides(pt, p).value.a)
    ensures SizeParams(pt, p, factorDim).value[2] == Param("b-strides", FinalStrides(pt, p).value.b)
  {
    SizeParamsSplit(pt, p, factorDim);
  }

  /** e-strides, when written, repeats D's strides and directly follows d-strides. */
  lemma EStridesCopyD(pt: ProblemType, p: Problem, factorDim: seq<int>)
    requires SizeParams(pt, p, factorDim).Success?
    ensures forall i :: 0 < i < |SizeParams(pt, p, factorDim).value| && SizeParams(pt, p, factorDim).value[i].key == "e-strides" ==>
      SizeParams(pt, p, factorDim).value[i - 1] == Param("d-strides", SizeParams(pt, p, factorDim).value[i].value)
  {
    SizeParamsSplit(pt, p, factorDim);
    var s := FinalStrides(pt, p).value;
    var bias := if pt.useBias then BiasStrides(pt, p.sizes, factorDim).value else [];
    StrideArgsECopy(pt, Prefix(p.sizes, |pt.indices|), s, bias);
  }

  /** In the argument list StrideArgs builds, e-strides follows d-strides and repeats its value. */
  lemma StrideArgsECopy(pt: ProblemType, problemSize: seq<int>, s: Strides, bias: seq<int>)
    ensures forall i :: 0 < i < |StrideArgs(pt, problemSize, s, bias)| && StrideArgs(pt, problemSize, s, bias)[i].key == "e-strides" ==>
      StrideArgs(pt, problemSize, s, bias)[i - 1] == Param("d-strides", StrideArgs(pt, problemSize, s, bias)[i].value)
  {
    var r := StrideArgs(pt, problemSize, s, bias);
    var head := [Param("problem-size", problemSize), Param("a-strides", s.a), Param("b-strides", s.b)];
    var tail := if pt.useBias then [Param("bias-strides", bias)] else [];
    assert r == head + OutputArgs(pt, s) + tail;
    forall i | 0 < i < |r| && r[i].key == "e-strides"
      ensures r[i - 1] == Param("d-strides", r[i].value)
    {
      assert "e-strides" != "problem-size" && "e-strides" != "a-strides" && "e-strides" != "b-strides";
      assert "e-strides" != "c-strides" && "e-strides" != "d-strides" && "e-strides" != "bias-strides";
    }
  }

  /** With useBias the last argument is bias-strides = [1, length, s]: length is M, or for sparse
      problems max(M, N) with more than one factor dimension and N with factor dimension 1; s is the
      last batch-index pin (0 without one), -1 meaning length, and a non-zero s below length is rejected. */
  lemma BiasRule(pt: ProblemType, p: Problem, factorDim: seq<int>)
    requires pt.useBias && FinalStrides(pt, p).Success?
    ensures BiasLength(pt, p.sizes, factorDim).Success? ==>
      BiasLength(pt, p.sizes, factorDim).value ==
        if pt.sparse && |factorDim| > 1 then Max(p.sizes[0], p.sizes[1])
        else if pt.sparse && 1 in factorDim then p.sizes[1]
        else p.sizes[0]
    ensures var length, s := BiasLength(pt, p.sizes, factorDim), BiasPin(pt.indices, pt.setConstStrideBias);
      length.Success? && s.Success? && s.value != 0 && s.value != -1 && s.value < length.value ==>
        SizeParams(pt, p, factorDim) == Failure(BiasStrideTooSmall(s.value, length.value))
    ensures var length, s := BiasLength(pt, p.sizes, factorDim), BiasPin(pt.indices, pt.setConstStrideBias);
      SizeParams(pt, p, factorDim).Success? ==>
        && length.Success? && s.Success?
        && SizeParams(pt, p, factorDim).value[|SizeParams(pt, p, factorDim).value| - 1] ==
             Param("bias-strides", [1, length.value, if s.value == -1 then length.value else s.value])
        && ((forall j :: 0 <= j < |pt.setConstStrideBias| ==> !NamesBatch(pt.indices, pt.setConstStrideBias[j])) ==> s.value == 0)
  {
    SizeParamsSplit(pt, p, factorDim);
    BiasPinMeaning(pt.indices, pt.setConstStrideBias);
  }
}
