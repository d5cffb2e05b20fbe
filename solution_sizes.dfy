/** getMaxSolutionSizes: the largest macro tile in each free dimension over a set of solutions,
    and the largest summation size. */
module SolutionSizes {
  import opened Wrappers

  /** The two fields of a solution that getMaxSolutionSizes reads. */
  datatype Solution = Solution(workGroup: seq<int>, threadTile: seq<int>)

  /** The exceptions getMaxSolutionSizes can raise. */
  datatype SizeError =
    | EmptySummationSizes   // `max()` of an empty list (ValueError)
    | IndexError            // a WorkGroup or ThreadTile list with fewer than two entries

  /** The macro tile of a solution in free dimension `d` (0 or 1): WorkGroup[d] * ThreadTile[d]. */
  function MacroTile(s: Solution, d: nat): int
    requires d < 2 && |s.workGroup| >= 2 && |s.threadTile| >= 2
  {
    s.workGroup[d] * s.threadTile[d]
  }

  /** Python's `max(xs)` on a non-empty list. */
  function SeqMax(xs: seq<int>): (r: int)
    requires xs != []
    ensures r in xs
    ensures forall x :: x in xs ==> x <= r
  {
    if |xs| == 1 then xs[0]
    else
      var m := SeqMax(xs[1..]);
      assert xs == [xs[0]] + xs[1..];
      if xs[0] >= m then xs[0] else m
  }

  /** Every solution carries at least two WorkGroup and two ThreadTile entries. */
  predicate WellFormed(solutions: seq<Solution>) {
    forall j :: 0 <= j < |solutions| ==> |solutions[j].workGroup| >= 2 && |solutions[j].threadTile| >= 2
  }

  /** `m` is the running maximum of MacroTile(_, d) over `solutions`, starting from 0:
      at least 0 and every macro tile, and either 0 or one of them. */
  ghost predicate IsMaxTile(solutions: seq<Solution>, d: nat, m: int)
    requires d < 2 && WellFormed(solutions)
  {
    && m >= 0
    && (forall j :: 0 <= j < |solutions| ==> MacroTile(solutions[j], d) <= m)
    && (m == 0 || exists j :: 0 <= j < |solutions| && MacroTile(solutions[j], d) == m)
  }

  /** `[maxMT0, maxMT1, maxK]`, or the first exception: ValueError when the summation sizes are
      empty (max() runs before the loop), otherwise IndexError for a too-short solution. */
  method GetMaxSolutionSizes(solutions: seq<Solution>, solutionSummationSizes: seq<int>)
    returns (r: Result<seq<int>, SizeError>)
    ensures solutionSummationSizes == [] <==> r == Failure(EmptySummationSizes)
    ensures r == Failure(IndexError) <==> solutionSummationSizes != [] && !WellFormed(solutions)
    ensures r.Success? ==>
      && |r.value| == 3 && WellFormed(solutions)
      && IsMaxTile(solutions, 0, r.value[0]) && IsMaxTile(solutions, 1, r.value[1])
      && r.value[2] == SeqMax(solutionSummationSizes)
  {
    if solutionSummationSizes == [] {
      return Failure(EmptySummationSizes);
    }
    var maxK := SeqMax(solutionSummationSizes);
    var maxMT0 := 0;
    var maxMT1 := 0;
    for n := 0 to |solutions|
      invariant WellFormed(solutions[..n])
      invariant IsMaxTile(solutions[..n], 0, maxMT0) && IsMaxTile(solutions[..n], 1, maxMT1)
    {
      var wg := solutions[n].workGroup;
      var tt := solutions[n].threadTile;
      if |wg| < 2 || |tt| < 2 {
        assert !WellFormed(solutions) by {
          assert !(|solutions[n].workGroup| >= 2 && |solutions[n].threadTile| >= 2);
        }
        return Failure(IndexError);
      }
      var mt0 := wg[0] * tt[0];
      var mt1 := wg[1] * tt[1];
      assert WellFormed(solutions[..n + 1]);
      if mt0 > maxMT0 {
        maxMT0 := mt0;
      }
      if mt1 > maxMT1 {
        maxMT1 := mt1;
      }
      assert MacroTile(solutions[..n + 1][n], 0) == mt0 && MacroTile(solutions[..n + 1][n], 1) == mt1;
    }
    assert solutions[..|solutions|] == solutions;
    return Success([maxMT0, maxMT1, maxK]);
  }
}
