/** The function numbering of writeClientParameters: functions are grouped by data type, then by
    problem type, the groups are sorted, and every function gets six indices. */
module FunctionNumbering {
  import opened Wrappers
  import opened Lists
  import opened Sorting

  /** A problem type as the numbering sees it: its data type (by enumeration value) and its str(). */
  datatype ProblemType = ProblemType(dataType: int, name: string)

  /** An entry of functionList: a schedule name and the problem type it solves. */
  type Function = (string, ProblemType)

  /** One functionInfo row. */
  datatype Info = Info(
    dataTypeIdx: nat,                 // position of the data type in dataTypes
    problemTypeIdxForDataType: nat,   // position of the problem type within its data type
    problemTypeIdx: nat,              // position of the problem type in problemTypes
    functionIdx: nat,                 // global serial number of the function
    functionIdxForDataType: nat,      // serial number within the data type
    functionIdxForProblemType: nat)   // serial number within the problem type

  /** `str` of a problem type, the key problem types are sorted by. */
  function PtStr(pt: ProblemType): string {
    pt.name
  }

  /** `str` of a schedule name, the key schedules are sorted by. */
  function Str(s: string): string {
    s
  }

  // ---------------------------------------------------------------------------
  // What the grouping collects

  /** The data types of `fl`, in order of first appearance. */
  function DataTypesOf(fl: seq<Function>): seq<int> {
    if fl == [] then []
    else
      var d := DataTypesOf(fl[..|fl| - 1]);
      var dt := fl[|fl| - 1].1.dataType;
      if dt in d then d else d + [dt]
  }

  /** The problem types of `fl` with data type `dt`, in order of first appearance. */
  function ProblemTypesOf(fl: seq<Function>, dt: int): seq<ProblemType> {
    if fl == [] then []
    else
      var p := ProblemTypesOf(fl[..|fl| - 1], dt);
      var pt := fl[|fl| - 1].1;
      if pt.dataType == dt && pt !in p then p + [pt] else p
  }

  /** The schedule names of the functions of `fl` that solve `pt`, in order, repeats kept. */
  function SchedulesOf(fl: seq<Function>, pt: ProblemType): seq<string> {
    if fl == [] then []
    else
      var s := SchedulesOf(fl[..|fl| - 1], pt);
      if fl[|fl| - 1].1 == pt then s + [fl[|fl| - 1].0] else s
  }

  /** The problem types `fl` mentions. */
  ghost function ProblemTypeSet(fl: seq<Function>): set<ProblemType> {
    set f | f in fl :: f.1
  }

  /** The data types `fl` mentions. */
  ghost function DataTypeSet(fl: seq<Function>): set<int> {
    set f | f in fl :: f.1.dataType
  }

  lemma ProblemTypeSetSnoc(fl: seq<Function>, f: Function)
    ensures ProblemTypeSet(fl + [f]) == ProblemTypeSet(fl) + {f.1}
    ensures DataTypeSet(fl + [f]) == DataTypeSet(fl) + {f.1.dataType}
  {
    assert forall g :: g in fl + [f] <==> g in fl || g == f;
  }

  /** The data type of a problem type of `fl` is a data type of `fl`. */
  lemma ProblemTypeSetDataTypes(fl: seq<Function>)
    ensures forall pt | pt in ProblemTypeSet(fl) :: pt.dataType in DataTypeSet(fl)
  {
    forall pt | pt in ProblemTypeSet(fl) ensures pt.dataType in DataTypeSet(fl) {
      var f :| f in fl && f.1 == pt;
    }
  }

  /** DataTypesOf lists every data type of `fl` once. */
  lemma {:induction false} DataTypesOfMeaning(fl: seq<Function>)
    ensures Distinct(DataTypesOf(fl))
    ensures forall dt :: dt in DataTypesOf(fl) <==> dt in DataTypeSet(fl)
  {
    if fl != [] {
      var init := fl[..|fl| - 1];
      assert fl == init + [fl[|fl| - 1]];
      DataTypesOfMeaning(init);
      ProblemTypeSetSnoc(init, fl[|fl| - 1]);
    }
  }

  /** ProblemTypesOf(fl, dt) lists every problem type of `fl` with data type `dt` once. */
  lemma {:induction false} ProblemTypesOfMeaning(fl: seq<Function>, dt: int)
    ensures Distinct(ProblemTypesOf(fl, dt))
    ensures forall pt :: pt in ProblemTypesOf(fl, dt) <==> pt in ProblemTypeSet(fl) && pt.dataType == dt
  {
    if fl != [] {
      var init := fl[..|fl| - 1];
      assert fl == init + [fl[|fl| - 1]];
      ProblemTypesOfMeaning(init, dt);
      ProblemTypeSetSnoc(init, fl[|fl| - 1]);
    }
  }

  /** A problem type `fl` does not mention has no schedules. */
  lemma {:induction false} SchedulesOfAbsent(fl: seq<Function>, pt: ProblemType)
    requires pt !in ProblemTypeSet(fl)
    ensures SchedulesOf(fl, pt) == []
  {
    if fl != [] {
      var init := fl[..|fl| - 1];
      assert fl == init + [fl[|fl| - 1]];
      ProblemTypeSetSnoc(init, fl[|fl| - 1]);
      SchedulesOfAbsent(init, pt);
    }
  }

  // ---------------------------------------------------------------------------
  // Grouping (the loop over functionList)

  /** The three collections after grouping `fl`: the data types, the problem types of each data
      type (problemTypesForDataType) and the schedules of each problem type (schedulesForProblemType). */
  ghost predicate Grouped(fl: seq<Function>, dataTypes: seq<int>,
                          ptsFor: map<int, seq<ProblemType>>, schedFor: map<ProblemType, seq<string>>)
  {
    && dataTypes == DataTypesOf(fl)
    && PtsGrouped(fl, dataTypes, ptsFor)
    && SchedsGrouped(fl, schedFor)
  }

  /** ptsFor holds, for each of the data types `ds`, its problem types in `fl`. */
  ghost predicate PtsGrouped(fl: seq<Function>, ds: seq<int>, ptsFor: map<int, seq<ProblemType>>) {
    && (forall dt :: dt in ptsFor <==> dt in ds)
    && (forall dt | dt in ptsFor :: ptsFor[dt] == ProblemTypesOf(fl, dt))
  }

  /** schedFor holds, for each problem type of `fl`, its schedules. */
  ghost predicate SchedsGrouped(fl: seq<Function>, schedFor: map<ProblemType, seq<string>>) {
    && (forall pt :: pt in schedFor <==> pt in ProblemTypeSet(fl))
    && (forall pt | pt in schedFor :: schedFor[pt] == SchedulesOf(fl, pt))
  }

  /** Groups the functions by data type and problem type, dropping repeated data types and
      problem types but keeping every schedule. */
  method Group(functionList: seq<Function>)
    returns (dataTypes: seq<int>, ptsFor: map<int, seq<ProblemType>>, schedFor: map<ProblemType, seq<string>>)
    ensures Grouped(functionList, dataTypes, ptsFor, schedFor)
  {
    dataTypes, ptsFor, schedFor := [], map[], map[];
    for functionIdx := 0 to |functionList|
      invariant Grouped(functionList[..functionIdx], dataTypes, ptsFor, schedFor)
    {
      GroupKnown(functionList, functionIdx, dataTypes, ptsFor, schedFor);
      ghost var (ds0, ptsFor0, schedFor0) := (dataTypes, ptsFor, schedFor);
      var (scheduleName, problemType) := functionList[functionIdx];
      var dataType := problemType.dataType;
      if dataType !in dataTypes {
        dataTypes := dataTypes + [dataType];
        ptsFor := ptsFor[dataType := []];
      }
      if problemType !in ptsFor[dataType] {
        ptsFor := ptsFor[dataType := ptsFor[dataType] + [problemType]];
        schedFor := schedFor[problemType := []];
      }
      schedFor := schedFor[problemType := schedFor[problemType] + [scheduleName]];
      GroupedSnoc(functionList, functionIdx, ds0, ptsFor0, schedFor0, dataTypes, ptsFor, schedFor);
    }
    assert functionList[..|functionList|] == functionList;
  }

  /** The grouping after one more function: its data type is added if new, its problem type is
      added under the data type if new, and its schedule is appended to the problem type's. */
  lemma GroupedSnoc(fl: seq<Function>, n: nat, ds: seq<int>, ptsFor: map<int, seq<ProblemType>>,
                    schedFor: map<ProblemType, seq<string>>, ds': seq<int>, ptsFor': map<int, seq<ProblemType>>,
                    schedFor': map<ProblemType, seq<string>>)
    requires n < |fl| && Grouped(fl[..n], ds, ptsFor, schedFor)
    requires var pt := fl[n].1;
      var known := if pt.dataType in ds then ptsFor[pt.dataType] else [];
      && ds' == (if pt.dataType in ds then ds else ds + [pt.dataType])
      && ptsFor' == ptsFor[pt.dataType := if pt in known then known else known + [pt]]
      && schedFor' == schedFor[pt := (if pt in schedFor then schedFor[pt] else []) + [fl[n].0]]
    ensures Grouped(fl[..n + 1], ds', ptsFor', schedFor')
  {
    GroupStep(fl, n, ds, ptsFor, schedFor);
    PtsGroupedSnoc(fl, n, ds, ptsFor, schedFor, ds', ptsFor');
    SchedsGroupedSnoc(fl, n, ds, ptsFor, schedFor, schedFor');
  }

  /** The problem-type part of GroupedSnoc. */
  lemma PtsGroupedSnoc(fl: seq<Function>, n: nat, ds: seq<int>, ptsFor: map<int, seq<ProblemType>>,
                       schedFor: map<ProblemType, seq<string>>, ds': seq<int>, ptsFor': map<int, seq<ProblemType>>)
    requires n < |fl| && Grouped(fl[..n], ds, ptsFor, schedFor)
    requires var pt := fl[n].1;
      var known := if pt.dataType in ds then ptsFor[pt.dataType] else [];
      && ds' == (if pt.dataType in ds then ds else ds + [pt.dataType])
      && ptsFor' == ptsFor[pt.dataType := if pt in known then known else known + [pt]]
    ensures PtsGrouped(fl[..n + 1], ds', ptsFor')
  {
    GroupStep(fl, n, ds, ptsFor, schedFor);
    var d := fl[n].1.dataType;
    assert forall dt :: dt in ptsFor' <==> dt in ds';
    forall dt | dt in ptsFor' ensures ptsFor'[dt] == ProblemTypesOf(fl[..n + 1], dt) {
      if dt != d {
        assert ptsFor'[dt] == ptsFor[dt];
      }
    }
  }

  /** The schedule part of GroupedSnoc. */
  lemma SchedsGroupedSnoc(fl: seq<Function>, n: nat, ds: seq<int>, ptsFor: map<int, seq<ProblemType>>,
                          schedFor: map<ProblemType, seq<string>>, schedFor': map<ProblemType, seq<string>>)
    requires n < |fl| && Grouped(fl[..n], ds, ptsFor, schedFor)
    requires var pt := fl[n].1;
      schedFor' == schedFor[pt := (if pt in schedFor then schedFor[pt] else []) + [fl[n].0]]
    ensures SchedsGrouped(fl[..n + 1], schedFor')
  {
    var pre, pt := fl[..n], fl[n].1;
    assert fl[..n + 1] == pre + [fl[n]] && (pre + [fl[n]])[..n] == pre;
    ProblemTypeSetSnoc(pre, fl[n]);
    if pt !in schedFor {
      SchedulesOfAbsent(pre, pt);
    }
    forall p | p in schedFor' ensures schedFor'[p] == SchedulesOf(fl[..n + 1], p) {
      if p != pt {
        assert schedFor'[p] == schedFor[p];
      }
    }
  }

  /** Before function `n` is grouped, its problem type has a schedule list exactly when it is
      already listed under its data type. */
  lemma GroupKnown(fl: seq<Function>, n: nat, dataTypes: seq<int>,
                   ptsFor: map<int, seq<ProblemType>>, schedFor: map<ProblemType, seq<string>>)
    requires n < |fl| && Grouped(fl[..n], dataTypes, ptsFor, schedFor)
    ensures var pt := fl[n].1;
      (pt.dataType in ptsFor <==> pt.dataType in dataTypes)
      && (pt in schedFor <==> pt.dataType in ptsFor && pt in ptsFor[pt.dataType])
  {
    GroupStep(fl, n, dataTypes, ptsFor, schedFor);
  }

  /** What one more function adds to the grouping. */
  lemma GroupStep(fl: seq<Function>, n: nat, dataTypes: seq<int>,
                  ptsFor: map<int, seq<ProblemType>>, schedFor: map<ProblemType, seq<string>>)
    requires n < |fl| && Grouped(fl[..n], dataTypes, ptsFor, schedFor)
    ensures var pt := fl[n].1;
      && (pt.dataType !in dataTypes ==> ProblemTypesOf(fl[..n], pt.dataType) == [])
      && (pt !in ProblemTypesOf(fl[..n], pt.dataType) ==> SchedulesOf(fl[..n], pt) == [] && pt !in schedFor)
      && (pt in ProblemTypesOf(fl[..n], pt.dataType) ==> pt in schedFor)
      && DataTypesOf(fl[..n + 1]) == (if pt.dataType in dataTypes then dataTypes else dataTypes + [pt.dataType])
      && (forall dt :: ProblemTypesOf(fl[..n + 1], dt) ==
            if dt == pt.dataType && pt !in ProblemTypesOf(fl[..n], dt) then ProblemTypesOf(fl[..n], dt) + [pt]
            else ProblemTypesOf(fl[..n], dt))
      && (forall p :: SchedulesOf(fl[..n + 1], p) ==
            if p == pt then SchedulesOf(fl[..n], p) + [fl[n].0] else SchedulesOf(fl[..n], p))
      && ProblemTypeSet(fl[..n + 1]) == ProblemTypeSet(fl[..n]) + {pt}
  {
    var pre := fl[..n];
    var pt := fl[n].1;
    assert fl[..n + 1] == pre + [fl[n]];
    assert fl[..n + 1][..n] == pre;
    ProblemTypeSetSnoc(pre, fl[n]);
    DataTypesOfMeaning(pre);
    ProblemTypesOfMeaning(pre, pt.dataType);
    ProblemTypeSetDataTypes(pre);
    assert forall q | q in ProblemTypesOf(pre, pt.dataType) :: pt.dataType in dataTypes;
    if pt !in ProblemTypesOf(pre, pt.dataType) {
      SchedulesOfAbsent(pre, pt);
    }
  }

  // ---------------------------------------------------------------------------
  // Sorting the groups

  /** `pt` is listed under one of the data types `ds`. */
  ghost predicate Listed(ds: seq<int>, ptsFor: map<int, seq<ProblemType>>, pt: ProblemType) {
    exists dt | dt in ds :: dt in ptsFor && pt in ptsFor[dt]
  }

  /** `r` holds the elements of `s`, sorted by `key`. */
  ghost predicate SortedPermutation<T>(r: seq<T>, s: seq<T>, key: T -> string) {
    multiset(r) == multiset(s) && SortedBy(r, key)
  }

  /** Sorts the data types, each data type's problem types by str, and each listed problem type's
      schedules by str; entries of the dictionaries that are not visited keep their lists. */
  method SortGroups(dataTypes: seq<int>, ptsFor: map<int, seq<ProblemType>>, schedFor: map<ProblemType, seq<string>>)
    returns (sortedDataTypes: seq<int>, sortedPtsFor: map<int, seq<ProblemType>>,
             sortedSchedFor: map<ProblemType, seq<string>>)
    requires forall dt | dt in dataTypes :: dt in ptsFor && forall pt | pt in ptsFor[dt] :: pt in schedFor
    ensures multiset(sortedDataTypes) == multiset(dataTypes) && Sorted(sortedDataTypes)
    ensures sortedPtsFor.Keys == ptsFor.Keys && sortedSchedFor.Keys == schedFor.Keys
    ensures forall dt | dt in ptsFor ::
      if dt in dataTypes then SortedPermutation(sortedPtsFor[dt], ptsFor[dt], PtStr)
      else sortedPtsFor[dt] == ptsFor[dt]
    ensures forall pt | pt in schedFor ::
      if Listed(dataTypes, ptsFor, pt) then SortedPermutation(sortedSchedFor[pt], schedFor[pt], Str)
      else sortedSchedFor[pt] == schedFor[pt]
  {
    sortedDataTypes := Sort(dataTypes);
    assert forall dt :: dt in sortedDataTypes <==> dt in dataTypes by {
      forall dt ensures dt in sortedDataTypes <==> dt in dataTypes {
        assert dt in sortedDataTypes <==> dt in multiset(sortedDataTypes);
      }
    }
    sortedPtsFor, sortedSchedFor := ptsFor, schedFor;
    assert sortedDataTypes[..0] == [];
    for i := 0 to |sortedDataTypes|
      invariant SortProgress(sortedDataTypes[..i], ptsFor, schedFor, sortedPtsFor, sortedSchedFor)
    {
      sortedPtsFor, sortedSchedFor := SortDataType(sortedDataTypes, i, ptsFor, schedFor, sortedPtsFor, sortedSchedFor);
    }
    assert sortedDataTypes[..|sortedDataTypes|] == sortedDataTypes;
    forall pt ensures Listed(sortedDataTypes, ptsFor, pt) <==> Listed(dataTypes, ptsFor, pt) {
      if Listed(sortedDataTypes, ptsFor, pt) {
        var dt :| dt in sortedDataTypes && dt in ptsFor && pt in ptsFor[dt];
        assert dt in dataTypes;
      }
      if Listed(dataTypes, ptsFor, pt) {
        var dt :| dt in dataTypes && dt in ptsFor && pt in ptsFor[dt];
        assert dt in sortedDataTypes;
      }
    }
  }

  /** The sort after the data types `ds` were visited: their problem types and the schedules of
      the problem types listed under them are sorted; every other entry keeps its list. */
  ghost predicate SortProgress(ds: seq<int>, ptsFor: map<int, seq<ProblemType>>, schedFor: map<ProblemType, seq<string>>,
                               sortedPtsFor: map<int, seq<ProblemType>>, sortedSchedFor: map<ProblemType, seq<string>>)
  {
    && sortedPtsFor.Keys == ptsFor.Keys && sortedSchedFor.Keys == schedFor.Keys
    && (forall dt | dt in ptsFor ::
          if dt in ds then SortedPermutation(sortedPtsFor[dt], ptsFor[dt], PtStr)
          else sortedPtsFor[dt] == ptsFor[dt])
    && (forall pt | pt in schedFor ::
          if Listed(ds, ptsFor, pt) then SortedPermutation(sortedSchedFor[pt], schedFor[pt], Str)
          else sortedSchedFor[pt] == schedFor[pt])
  }

  /** One pass of the data-type loop of the sort: sorts the problem types of `ds[i]`, then the
      schedules of each of them. */
  method SortDataType(ds: seq<int>, i: nat, ptsFor: map<int, seq<ProblemType>>, schedFor: map<ProblemType, seq<string>>,
                      curPtsFor: map<int, seq<ProblemType>>, curSchedFor: map<ProblemType, seq<string>>)
    returns (sortedPtsFor: map<int, seq<ProblemType>>, sortedSchedFor: map<ProblemType, seq<string>>)
    requires i < |ds|
    requires forall dt | dt in ds :: dt in ptsFor && forall pt | pt in ptsFor[dt] :: pt in schedFor
    requires SortProgress(ds[..i], ptsFor, schedFor, curPtsFor, curSchedFor)
    ensures SortProgress(ds[..i + 1], ptsFor, schedFor, sortedPtsFor, sortedSchedFor)
  {
    var dataType := ds[i];
    assert ds[..i + 1] == ds[..i] + [dataType];
    assert dataType in ds;
    sortedPtsFor := curPtsFor[dataType := SortBy(curPtsFor[dataType], PtStr)];
    assert SortedPermutation(sortedPtsFor[dataType], ptsFor[dataType], PtStr);
    var pts := sortedPtsFor[dataType];
    forall pt | pt in pts ensures pt in curSchedFor {
      assert pt in multiset(ptsFor[dataType]);
    }
    sortedSchedFor := SortSchedules(pts, curSchedFor);
    SortStep(ds, i, ptsFor, schedFor, pts, curSchedFor, sortedSchedFor);
  }

  /** The inner loop of the sort: sorts the schedules of every problem type in `pts`. */
  method SortSchedules(pts: seq<ProblemType>, schedFor: map<ProblemType, seq<string>>)
    returns (sortedSchedFor: map<ProblemType, seq<string>>)
    requires forall pt | pt in pts :: pt in schedFor
    ensures sortedSchedFor.Keys == schedFor.Keys
    ensures forall pt | pt in schedFor ::
      if pt in pts then SortedPermutation(sortedSchedFor[pt], schedFor[pt], Str)
      else sortedSchedFor[pt] == schedFor[pt]
  {
    sortedSchedFor := schedFor;
    for j := 0 to |pts|
      invariant sortedSchedFor.Keys == schedFor.Keys
      invariant forall pt | pt in schedFor ::
        if pt in pts[..j] then SortedPermutation(sortedSchedFor[pt], schedFor[pt], Str)
        else sortedSchedFor[pt] == schedFor[pt]
    {
      var problemType := pts[j];
      assert pts[..j + 1] == pts[..j] + [problemType];
      sortedSchedFor := sortedSchedFor[problemType := SortBy(sortedSchedFor[problemType], Str)];
    }
    assert pts[..|pts|] == pts;
  }

  /** After the schedules of data type `ds[i]` are sorted, every problem type listed under
      `ds[..i + 1]` has sorted schedules and the others keep theirs. */
  lemma SortStep(ds: seq<int>, i: nat, ptsFor: map<int, seq<ProblemType>>, schedFor: map<ProblemType, seq<string>>,
                 pts: seq<ProblemType>, before: map<ProblemType, seq<string>>, after: map<ProblemType, seq<string>>)
    requires i < |ds| && ds[i] in ptsFor && multiset(pts) == multiset(ptsFor[ds[i]])
    requires before.Keys == schedFor.Keys && after.Keys == schedFor.Keys
    requires forall pt | pt in schedFor ::
      if Listed(ds[..i], ptsFor, pt) then SortedPermutation(before[pt], schedFor[pt], Str)
      else before[pt] == schedFor[pt]
    requires forall pt | pt in before ::
      if pt in pts then SortedPermutation(after[pt], before[pt], Str)
      else after[pt] == before[pt]
    ensures forall pt | pt in schedFor ::
      if Listed(ds[..i + 1], ptsFor, pt) then SortedPermutation(after[pt], schedFor[pt], Str)
      else after[pt] == schedFor[pt]
  {
    assert ds[..i + 1] == ds[..i] + [ds[i]];
    forall pt | pt in schedFor
      ensures Listed(ds[..i + 1], ptsFor, pt) <==> Listed(ds[..i], ptsFor, pt) || pt in pts
    {
      if Listed(ds[..i + 1], ptsFor, pt) {
        var dt :| dt in ds[..i + 1] && dt in ptsFor && pt in ptsFor[dt];
        if dt != ds[i] {
          assert dt in ds[..i];
        } else {
          assert pt in multiset(ptsFor[ds[i]]);
          assert pt in pts;
        }
        assert Listed(ds[..i], ptsFor, pt) || pt in pts;
      }
      if pt in pts {
        assert pt in multiset(ptsFor[ds[i]]);
        var d := ds[i];
        assert d in ptsFor && pt in ptsFor[d];
        assert d in ds[..i + 1];
        assert Listed(ds[..i + 1], ptsFor, pt);
      }
      if Listed(ds[..i], ptsFor, pt) {
        var dt :| dt in ds[..i] && dt in ptsFor && pt in ptsFor[dt];
        assert dt in ds[..i + 1];
        assert Listed(ds[..i + 1], ptsFor, pt);
      }
    }
  }

  // ---------------------------------------------------------------------------
  // Assigning the indices

  /** The problem types of the data types `ds`, group after group: problemTypes. */
  function FlatPts(ds: seq<int>, ptsFor: map<int, seq<ProblemType>>): seq<ProblemType>
    requires forall dt | dt in ds :: dt in ptsFor
  {
    if ds == [] then []
    else
      var last := ds[|ds| - 1];
      assert last in ds;
      FlatPts(ds[..|ds| - 1], ptsFor) + ptsFor[last]
  }

  /** The number of schedules of the problem types `ps`. */
  function Total(ps: seq<ProblemType>, schedFor: map<ProblemType, seq<string>>): nat
    requires forall pt | pt in ps :: pt in schedFor
  {
    if ps == [] then 0
    else
      assert ps[|ps| - 1] in ps;
      Total(ps[..|ps| - 1], schedFor) + |schedFor[ps[|ps| - 1]]|
  }

  /** Row `k` of `info`: its serial number is `k`; its data type, problem type and schedule
      positions exist and agree with each other; the per-data-type and per-problem-type serial
      numbers count on from the previous row when it has the same data type (problem type),
      and restart at 0 otherwise; data type and problem type positions never decrease. */
  ghost predicate Entry(info: seq<Info>, k: nat, dataTypes: seq<int>, ptsFor: map<int, seq<ProblemType>>,
                        schedFor: map<ProblemType, seq<string>>, problemTypes: seq<ProblemType>)
    requires k < |info|
  {
    var e := info[k];
    && e.functionIdx == k
    && e.dataTypeIdx < |dataTypes| && dataTypes[e.dataTypeIdx] in ptsFor
    && e.problemTypeIdxForDataType < |ptsFor[dataTypes[e.dataTypeIdx]]|
    && e.problemTypeIdx < |problemTypes|
    && problemTypes[e.problemTypeIdx] == ptsFor[dataTypes[e.dataTypeIdx]][e.problemTypeIdxForDataType]
    && problemTypes[e.problemTypeIdx] in schedFor
    && e.functionIdxForProblemType < |schedFor[problemTypes[e.problemTypeIdx]]|
    && e.functionIdxForDataType ==
         (if k > 0 && info[k - 1].dataTypeIdx == e.dataTypeIdx then info[k - 1].functionIdxForDataType + 1 else 0)
    && e.functionIdxForProblemType ==
         (if k > 0 && info[k - 1].problemTypeIdx == e.problemTypeIdx then info[k - 1].functionIdxForProblemType + 1 else 0)
    && (k > 0 ==> info[k - 1].dataTypeIdx <= e.dataTypeIdx && info[k - 1].problemTypeIdx <= e.problemTypeIdx)
  }

  ghost predicate Numbered(info: seq<Info>, dataTypes: seq<int>, ptsFor: map<int, seq<ProblemType>>,
                           schedFor: map<ProblemType, seq<string>>, problemTypes: seq<ProblemType>)
  {
    forall k | 0 <= k < |info| :: Entry(info, k, dataTypes, ptsFor, schedFor, problemTypes)
  }

  /** The rows the innermost loop appends for one problem type with `count` schedules. */
  function Rows(dataTypeIdx: nat, problemTypeIdxForDataType: nat, problemTypeIdx: nat,
                functionIdx: nat, functionIdxForDataType: nat, count: nat): (r: seq<Info>)
    ensures |r| == count
  {
    seq(count, k requires 0 <= k < count =>
      Info(dataTypeIdx, problemTypeIdxForDataType, problemTypeIdx, functionIdx + k, functionIdxForDataType + k, k))
  }

  /** The innermost loop: one row per schedule of the problem type. */
  method AppendRows(functionInfo: seq<Info>, dataTypeIdxSerial: nat, problemTypeIdxForDataType: nat,
                    problemTypeIdxSerial: nat, functionIdxSerial: nat, functionIdxForDataType: nat, count: nat)
    returns (info: seq<Info>, serial: nat, forDataType: nat)
    ensures info == functionInfo + Rows(dataTypeIdxSerial, problemTypeIdxForDataType, problemTypeIdxSerial,
                                        functionIdxSerial, functionIdxForDataType, count)
    ensures serial == functionIdxSerial + count && forDataType == functionIdxForDataType + count
  {
    info, serial, forDataType := functionInfo, functionIdxSerial, functionIdxForDataType;
    for functionIdxForProblemType := 0 to count
      invariant info == functionInfo + Rows(dataTypeIdxSerial, problemTypeIdxForDataType, problemTypeIdxSerial,
                                            functionIdxSerial, functionIdxForDataType, functionIdxForProblemType)
      invariant serial == functionIdxSerial + functionIdxForProblemType
      invariant forDataType == functionIdxForDataType + functionIdxForProblemType
    {
      info := info + [Info(dataTypeIdxSerial, problemTypeIdxForDataType, problemTypeIdxSerial,
                           serial, forDataType, functionIdxForProblemType)];
      forDataType := forDataType + 1;
      serial := serial + 1;
    }
  }

  /** The rows of one problem type keep the table numbered, given that the previous rows
      belong to earlier problem types and the per-data-type counter continues the last row. */
  lemma RowsNumbered(info: seq<Info>, dataTypes: seq<int>, ptsFor: map<int, seq<ProblemType>>,
                     schedFor: map<ProblemType, seq<string>>, problemTypes: seq<ProblemType>,
                     d: nat, j: nat, p: nat, f: nat)
    requires Numbered(info, dataTypes, ptsFor, schedFor, problemTypes)
    requires forall k | 0 <= k < |info| :: info[k].dataTypeIdx <= d && info[k].problemTypeIdx < p
    requires f == if info != [] && info[|info| - 1].dataTypeIdx == d then info[|info| - 1].functionIdxForDataType + 1 else 0
    requires d < |dataTypes| && dataTypes[d] in ptsFor && j < |ptsFor[dataTypes[d]]|
    requires p < |problemTypes| && problemTypes[p] == ptsFor[dataTypes[d]][j] && problemTypes[p] in schedFor
    ensures var rows := info + Rows(d, j, p, |info|, f, |schedFor[problemTypes[p]]|);
      && Numbered(rows, dataTypes, ptsFor, schedFor, problemTypes)
      && (forall k | 0 <= k < |rows| :: rows[k].dataTypeIdx <= d && rows[k].problemTypeIdx <= p)
      && (rows != [] && rows[|rows| - 1].dataTypeIdx == d ==> rows[|rows| - 1].functionIdxForDataType + 1 == f + |schedFor[problemTypes[p]]|)
  {
    var n := |schedFor[problemTypes[p]]|;
    var rows := info + Rows(d, j, p, |info|, f, n);
    forall k | 0 <= k < |rows| ensures Entry(rows, k, dataTypes, ptsFor, schedFor, problemTypes) {
      if k < |info| {
        assert Entry(info, k, dataTypes, ptsFor, schedFor, problemTypes);
        assert rows[k] == info[k] && (k > 0 ==> rows[k - 1] == info[k - 1]);
      } else {
        assert rows[k] == Info(d, j, p, k, f + (k - |info|), k - |info|);
        if k > |info| {
          assert rows[k - 1] == Info(d, j, p, k - 1, f + (k - 1 - |info|), k - 1 - |info|);
        } else if k > 0 {
          assert rows[k - 1] == info[k - 1];
        }
      }
    }
    if n == 0 && rows != [] {
      assert rows[|rows| - 1] == info[|info| - 1];
    }
  }

  /** A problem type appended to problemTypes leaves the rows numbered. */
  lemma NumberedAppendPt(info: seq<Info>, dataTypes: seq<int>, ptsFor: map<int, seq<ProblemType>>,
                         schedFor: map<ProblemType, seq<string>>, problemTypes: seq<ProblemType>, pt: ProblemType)
    requires Numbered(info, dataTypes, ptsFor, schedFor, problemTypes)
    ensures Numbered(info, dataTypes, ptsFor, schedFor, problemTypes + [pt])
  {
    forall k | 0 <= k < |info| ensures Entry(info, k, dataTypes, ptsFor, schedFor, problemTypes + [pt]) {
      assert Entry(info, k, dataTypes, ptsFor, schedFor, problemTypes);
    }
  }

  /** The loops of writeClientParameters that fill functionInfo and problemTypes and count
      numFunctions and numProblemTypes. */
  method AssignInfo(dataTypes: seq<int>, ptsFor: map<int, seq<ProblemType>>, schedFor: map<ProblemType, seq<string>>)
    returns (functionInfo: seq<Info>, problemTypes: seq<ProblemType>, numFunctions: nat, numProblemTypes: nat)
    requires forall dt | dt in dataTypes :: dt in ptsFor && forall pt | pt in ptsFor[dt] :: pt in schedFor
    ensures problemTypes == FlatPts(dataTypes, ptsFor)
    ensures forall pt | pt in problemTypes :: pt in schedFor
    ensures numProblemTypes == |problemTypes|
    ensures numFunctions == |functionInfo| == Total(problemTypes, schedFor)
    ensures Numbered(functionInfo, dataTypes, ptsFor, schedFor, problemTypes)
  {
    functionInfo, problemTypes := [], [];
    var functionIdxSerial := 0;
    var problemTypeIdxSerial := 0;
    for dataTypeIdxSerial := 0 to |dataTypes|
      invariant problemTypes == FlatPts(dataTypes[..dataTypeIdxSerial], ptsFor)
      invariant forall pt | pt in problemTypes :: pt in schedFor
      invariant problemTypeIdxSerial == |problemTypes|
      invariant functionIdxSerial == |functionInfo| == Total(problemTypes, schedFor)
      invariant Numbered(functionInfo, dataTypes, ptsFor, schedFor, problemTypes)
      invariant forall k | 0 <= k < |functionInfo| ::
        functionInfo[k].dataTypeIdx < dataTypeIdxSerial && functionInfo[k].problemTypeIdx < problemTypeIdxSerial
    {
      functionInfo, problemTypes, functionIdxSerial, problemTypeIdxSerial :=
        AssignDataType(dataTypes, ptsFor, schedFor, dataTypeIdxSerial,
                       functionInfo, problemTypes, functionIdxSerial, problemTypeIdxSerial);
    }
    assert dataTypes[..|dataTypes|] == dataTypes;
    numProblemTypes := problemTypeIdxSerial;
    numFunctions := functionIdxSerial;
  }

  /** The middle loop for data type `dataTypes[dataTypeIdxSerial]`: its problem types join
      problemTypes, and each contributes one row per schedule. */
  method AssignDataType(dataTypes: seq<int>, ptsFor: map<int, seq<ProblemType>>, schedFor: map<ProblemType, seq<string>>,
                        dataTypeIdxSerial: nat, functionInfo0: seq<Info>, problemTypes0: seq<ProblemType>,
                        functionIdxSerial0: nat, problemTypeIdxSerial0: nat)
    returns (functionInfo: seq<Info>, problemTypes: seq<ProblemType>, functionIdxSerial: nat, problemTypeIdxSerial: nat)
    requires forall dt | dt in dataTypes :: dt in ptsFor && forall pt | pt in ptsFor[dt] :: pt in schedFor
    requires dataTypeIdxSerial < |dataTypes|
    requires problemTypes0 == FlatPts(dataTypes[..dataTypeIdxSerial], ptsFor)
    requires forall pt | pt in problemTypes0 :: pt in schedFor
    requires problemTypeIdxSerial0 == |problemTypes0|
    requires functionIdxSerial0 == |functionInfo0| == Total(problemTypes0, schedFor)
    requires Numbered(functionInfo0, dataTypes, ptsFor, schedFor, problemTypes0)
    requires forall k | 0 <= k < |functionInfo0| ::
      functionInfo0[k].dataTypeIdx < dataTypeIdxSerial && functionInfo0[k].problemTypeIdx < problemTypeIdxSerial0
    ensures problemTypes == FlatPts(dataTypes[..dataTypeIdxSerial + 1], ptsFor)
    ensures forall pt | pt in problemTypes :: pt in schedFor
    ensures problemTypeIdxSerial == |problemTypes|
    ensures functionIdxSerial == |functionInfo| == Total(problemTypes, schedFor)
    ensures Numbered(functionInfo, dataTypes, ptsFor, schedFor, problemTypes)
    ensures forall k | 0 <= k < |functionInfo| ::
      functionInfo[k].dataTypeIdx < dataTypeIdxSerial + 1 && functionInfo[k].problemTypeIdx < problemTypeIdxSerial
  {
    functionInfo, problemTypes, functionIdxSerial, problemTypeIdxSerial :=
      functionInfo0, problemTypes0, functionIdxSerial0, problemTypeIdxSerial0;
    var dataType := dataTypes[dataTypeIdxSerial];
    assert dataTypes[..dataTypeIdxSerial + 1] == dataTypes[..dataTypeIdxSerial] + [dataType];
    assert dataTypes[..dataTypeIdxSerial + 1][..dataTypeIdxSerial] == dataTypes[..dataTypeIdxSerial];
    assert dataType in dataTypes;
    var pts := ptsFor[dataType];
    var functionIdxForDataType: nat := 0;
    for problemTypeIdxForDataType := 0 to |pts|
      invariant DataTypeProgress(dataTypes, ptsFor, schedFor, dataTypeIdxSerial, problemTypeIdxForDataType,
                                 functionInfo, problemTypes, functionIdxSerial, problemTypeIdxSerial, functionIdxForDataType)
    {
      var problemType := pts[problemTypeIdxForDataType];
      ghost var info, ps := functionInfo, problemTypes;
      problemTypes := problemTypes + [problemType];
      functionInfo, functionIdxSerial, functionIdxForDataType :=
        AppendRows(functionInfo, dataTypeIdxSerial, problemTypeIdxForDataType, problemTypeIdxSerial,
                   functionIdxSerial, functionIdxForDataType, |schedFor[problemType]|);
      AssignProblemTypeStep(dataTypes, ptsFor, schedFor, dataTypeIdxSerial, problemTypeIdxForDataType,
                            info, ps, problemTypeIdxSerial, functionIdxForDataType - |schedFor[problemType]|);
      problemTypeIdxSerial := problemTypeIdxSerial + 1;
    }
    assert pts[..|pts|] == pts;
  }

  /** The state of the middle loop after the first `j` problem types of data type `dataTypes[i]`. */
  ghost predicate DataTypeProgress(dataTypes: seq<int>, ptsFor: map<int, seq<ProblemType>>,
                                   schedFor: map<ProblemType, seq<string>>, i: nat, j: nat,
                                   functionInfo: seq<Info>, problemTypes: seq<ProblemType>,
                                   functionIdxSerial: nat, problemTypeIdxSerial: nat, functionIdxForDataType: nat)
    requires forall dt | dt in dataTypes :: dt in ptsFor && forall pt | pt in ptsFor[dt] :: pt in schedFor
    requires i < |dataTypes| && dataTypes[i] in ptsFor && j <= |ptsFor[dataTypes[i]]|
  {
    && problemTypes == FlatPts(dataTypes[..i], ptsFor) + ptsFor[dataTypes[i]][..j]
    && (forall pt | pt in problemTypes :: pt in schedFor)
    && problemTypeIdxSerial == |problemTypes|
    && functionIdxSerial == |functionInfo| == Total(problemTypes, schedFor)
    && Numbered(functionInfo, dataTypes, ptsFor, schedFor, problemTypes)
    && (forall k | 0 <= k < |functionInfo| ::
          functionInfo[k].dataTypeIdx <= i && functionInfo[k].problemTypeIdx < problemTypeIdxSerial)
    && functionIdxForDataType ==
         if functionInfo != [] && functionInfo[|functionInfo| - 1].dataTypeIdx == i
         then functionInfo[|functionInfo| - 1].functionIdxForDataType + 1 else 0
  }

  /** One pass of the middle loop keeps its state. */
  lemma AssignProblemTypeStep(dataTypes: seq<int>, ptsFor: map<int, seq<ProblemType>>,
                              schedFor: map<ProblemType, seq<string>>, i: nat, j: nat,
                              info: seq<Info>, ps: seq<ProblemType>, p: nat, f: nat)
    requires forall dt | dt in dataTypes :: dt in ptsFor && forall pt | pt in ptsFor[dt] :: pt in schedFor
    requires i < |dataTypes| && dataTypes[i] in ptsFor && j < |ptsFor[dataTypes[i]]|
    requires DataTypeProgress(dataTypes, ptsFor, schedFor, i, j, info, ps, |info|, p, f)
    ensures var pt := ptsFor[dataTypes[i]][j];
      var n := |schedFor[pt]|;
      DataTypeProgress(dataTypes, ptsFor, schedFor, i, j + 1, info + Rows(i, j, p, |info|, f, n),
                       ps + [pt], |info| + n, p + 1, f + n)
  {
    var pts := ptsFor[dataTypes[i]];
    var pt := pts[j];
    assert pts[..j + 1] == pts[..j] + [pt];
    assert dataTypes[i] in dataTypes && pt in pts;
    NumberedAppendPt(info, dataTypes, ptsFor, schedFor, ps, pt);
    var ps' := ps + [pt];
    assert ps'[..|ps'| - 1] == ps;
    var d := dataTypes[i];
    assert d in dataTypes && pt in ptsFor[d];
    assert ps'[p] == pt && pt in schedFor;
    RowsNumbered(info, dataTypes, ptsFor, schedFor, ps', i, j, p, f);
  }

  // ---------------------------------------------------------------------------
  // The whole numbering and its properties

  /** The number of functions of `fl` whose problem type is one of `ps`. */
  function Count(ps: seq<ProblemType>, fl: seq<Function>): nat {
    if ps == [] then 0 else Count(ps[..|ps| - 1], fl) + |SchedulesOf(fl, ps[|ps| - 1])|
  }

  /** A function whose problem type is not among `ps` does not change their count. */
  lemma {:induction false} CountSnocAbsent(ps: seq<ProblemType>, fl: seq<Function>, f: Function)
    requires f.1 !in ps
    ensures Count(ps, fl + [f]) == Count(ps, fl)
  {
    if ps != [] {
      var init := ps[..|ps| - 1];
      assert (fl + [f])[..|fl|] == fl;
      assert ps[|ps| - 1] in ps;
      CountSnocAbsent(init, fl, f);
    }
  }

  /** A function whose problem type occurs once in `ps` adds one to their count. */
  lemma {:induction false} CountSnocPresent(ps: seq<ProblemType>, fl: seq<Function>, f: Function)
    requires Distinct(ps) && f.1 in ps
    ensures Count(ps, fl + [f]) == Count(ps, fl) + 1
  {
    var init, last := ps[..|ps| - 1], ps[|ps| - 1];
    assert ps == init + [last];
    assert (fl + [f])[..|fl|] == fl;
    assert multiset(ps) == multiset(init) + multiset{last};
    assert Distinct(init) by {
      forall y | y in init ensures multiset(init)[y] == 1 {
        assert multiset(ps)[y] >= multiset(init)[y];
      }
    }
    if last == f.1 {
      assert f.1 !in init by {
        assert multiset(ps)[last] == multiset(init)[last] + 1;
      }
      CountSnocAbsent(init, fl, f);
    } else {
      assert f.1 in init;
      CountSnocPresent(init, fl, f);
    }
  }

  /** When every problem type of `fl` occurs once in `ps`, their count is the number of functions. */
  lemma {:induction false} CountAll(ps: seq<ProblemType>, fl: seq<Function>)
    requires Distinct(ps) && forall f | f in fl :: f.1 in ps
    ensures Count(ps, fl) == |fl|
  {
    if fl == [] {
      CountEmpty(ps);
    } else {
      var init, f := fl[..|fl| - 1], fl[|fl| - 1];
      assert fl == init + [f];
      CountAll(ps, init);
      CountSnocPresent(ps, init, f);
    }
  }

  lemma {:induction false} CountEmpty(ps: seq<ProblemType>)
    ensures Count(ps, []) == 0
  {
    if ps != [] {
      CountEmpty(ps[..|ps| - 1]);
    }
  }

  /** Total counts the schedule lists, Count the functions; they agree when each list has as many
      entries as its problem type has functions. */
  lemma {:induction false} TotalCount(ps: seq<ProblemType>, schedFor: map<ProblemType, seq<string>>, fl: seq<Function>)
    requires forall pt | pt in ps :: pt in schedFor && |schedFor[pt]| == |SchedulesOf(fl, pt)|
    ensures Total(ps, schedFor) == Count(ps, fl)
  {
    if ps != [] {
      assert ps[|ps| - 1] in ps;
      TotalCount(ps[..|ps| - 1], schedFor, fl);
    }
  }

  /** The members of FlatPts are the problem types listed under the data types. */
  lemma {:induction false} FlatPtsListed(ds: seq<int>, ptsFor: map<int, seq<ProblemType>>)
    requires forall dt | dt in ds :: dt in ptsFor
    ensures forall pt :: pt in FlatPts(ds, ptsFor) <==> Listed(ds, ptsFor, pt)
  {
    if ds != [] {
      var init, last := ds[..|ds| - 1], ds[|ds| - 1];
      assert ds == init + [last];
      FlatPtsListed(init, ptsFor);
      forall pt ensures Listed(ds, ptsFor, pt) <==> Listed(init, ptsFor, pt) || pt in ptsFor[last] {
        if Listed(ds, ptsFor, pt) {
          var dt :| dt in ds && dt in ptsFor && pt in ptsFor[dt];
          if dt != last {
            assert dt in init;
          }
        }
        if Listed(init, ptsFor, pt) {
          var dt :| dt in init && dt in ptsFor && pt in ptsFor[dt];
          assert dt in ds;
        }
        assert last in ds;
      }
    }
  }

  /** Problem types grouped under distinct data types, each group duplicate-free and holding only
      its own data type, flatten to a duplicate-free list. */
  lemma {:induction false} FlatPtsDistinct(ds: seq<int>, ptsFor: map<int, seq<ProblemType>>)
    requires Distinct(ds)
    requires forall dt | dt in ds :: dt in ptsFor && Distinct(ptsFor[dt]) && forall pt | pt in ptsFor[dt] :: pt.dataType == dt
    ensures Distinct(FlatPts(ds, ptsFor))
  {
    if ds != [] {
      var init, last := ds[..|ds| - 1], ds[|ds| - 1];
      assert ds == init + [last];
      assert multiset(ds) == multiset(init) + multiset{last};
      assert Distinct(init) by {
        forall y | y in init ensures multiset(init)[y] == 1 {
          assert multiset(ds)[y] >= multiset(init)[y];
        }
      }
      assert last !in init by {
        assert multiset(ds)[last] == multiset(init)[last] + 1;
      }
      FlatPtsDistinct(init, ptsFor);
      FlatPtsListed(init, ptsFor);
      var a, b := FlatPts(init, ptsFor), ptsFor[last];
      assert last in ds;
      forall pt | pt in a + b ensures multiset(a + b)[pt] == 1 {
        if pt in a {
          var dt :| dt in init && dt in ptsFor && pt in ptsFor[dt];
          assert pt.dataType == dt;
          assert pt !in b;
        } else {
          assert pt !in multiset(a);
        }
      }
    }
  }

  /** What the sort leaves: the sorted collections of the grouping of `fl`. */
  ghost predicate SortedGroups(fl: seq<Function>, dataTypes: seq<int>,
                               ptsFor: map<int, seq<ProblemType>>, schedFor: map<ProblemType, seq<string>>)
  {
    && multiset(dataTypes) == multiset(DataTypesOf(fl)) && Sorted(dataTypes)
    && (forall dt :: dt in ptsFor <==> dt in DataTypeSet(fl))
    && (forall dt | dt in ptsFor :: SortedPermutation(ptsFor[dt], ProblemTypesOf(fl, dt), PtStr))
    && (forall pt :: pt in schedFor <==> pt in ProblemTypeSet(fl))
    && (forall pt | pt in schedFor :: SortedPermutation(schedFor[pt], SchedulesOf(fl, pt), Str))
  }

  /** The sorted groups of `fl` are determined: the problem types of one data type differ in
      their str and each schedule is its own key, so no tie is left for the stable sort to break. */
  lemma SortedGroupsDetermined(fl: seq<Function>, ds: seq<int>, ptsFor: map<int, seq<ProblemType>>,
                               schedFor: map<ProblemType, seq<string>>, ds': seq<int>,
                               ptsFor': map<int, seq<ProblemType>>, schedFor': map<ProblemType, seq<string>>)
    requires SortedGroups(fl, ds, ptsFor, schedFor) && SortedGroups(fl, ds', ptsFor', schedFor')
    ensures ds == ds' && ptsFor == ptsFor' && schedFor == schedFor'
  {
    SortedUnique(ds, ds');
    SortedProblemTypesDetermined(fl, ptsFor, ptsFor');
    forall pt | pt in schedFor ensures schedFor[pt] == schedFor'[pt] {
      SortedByUnique(schedFor[pt], schedFor'[pt], Str);
    }
    assert schedFor.Keys == schedFor'.Keys by {
      forall pt ensures pt in schedFor.Keys <==> pt in schedFor'.Keys {
        assert pt in schedFor <==> pt in ProblemTypeSet(fl);
        assert pt in schedFor' <==> pt in ProblemTypeSet(fl);
      }
    }
  }

  /** The problem types of each data type, sorted by str, are determined. */
  lemma SortedProblemTypesDetermined(fl: seq<Function>, ptsFor: map<int, seq<ProblemType>>,
                                     ptsFor': map<int, seq<ProblemType>>)
    requires forall dt :: dt in ptsFor <==> dt in DataTypeSet(fl)
    requires forall dt :: dt in ptsFor' <==> dt in DataTypeSet(fl)
    requires forall dt | dt in ptsFor :: SortedPermutation(ptsFor[dt], ProblemTypesOf(fl, dt), PtStr)
    requires forall dt | dt in ptsFor' :: SortedPermutation(ptsFor'[dt], ProblemTypesOf(fl, dt), PtStr)
    ensures ptsFor == ptsFor'
  {
    forall dt | dt in ptsFor ensures ptsFor[dt] == ptsFor'[dt] {
      ProblemTypesOfMeaning(fl, dt);
      forall x, y | x in ptsFor[dt] && y in ptsFor[dt] && PtStr(x) == PtStr(y) ensures x == y {
        assert x in multiset(ProblemTypesOf(fl, dt)) && y in multiset(ProblemTypesOf(fl, dt));
      }
      SortedByUnique(ptsFor[dt], ptsFor'[dt], PtStr);
    }
    assert ptsFor.Keys == ptsFor'.Keys by {
      forall dt ensures dt in ptsFor.Keys <==> dt in ptsFor'.Keys {
        assert dt in ptsFor <==> dt in DataTypeSet(fl);
        assert dt in ptsFor' <==> dt in DataTypeSet(fl);
      }
    }
  }

  /** Sorting the grouping of `fl` gives its sorted groups. */
  lemma SortedGrouping(fl: seq<Function>, ds0: seq<int>, ptsFor0: map<int, seq<ProblemType>>,
                       schedFor0: map<ProblemType, seq<string>>, ds: seq<int>,
                       ptsFor: map<int, seq<ProblemType>>, schedFor: map<ProblemType, seq<string>>)
    requires Grouped(fl, ds0, ptsFor0, schedFor0)
    requires multiset(ds) == multiset(ds0) && Sorted(ds)
    requires ptsFor.Keys == ptsFor0.Keys && schedFor.Keys == schedFor0.Keys
    requires forall dt | dt in ptsFor0 && dt in ds0 :: SortedPermutation(ptsFor[dt], ptsFor0[dt], PtStr)
    requires forall pt | pt in schedFor0 && Listed(ds0, ptsFor0, pt) ::
      SortedPermutation(schedFor[pt], schedFor0[pt], Str)
    ensures SortedGroups(fl, ds, ptsFor, schedFor)
  {
    DataTypesOfMeaning(fl);
    ProblemTypeSetDataTypes(fl);
    forall pt | pt in schedFor0 ensures Listed(ds0, ptsFor0, pt) {
      ProblemTypesOfMeaning(fl, pt.dataType);
      var d := pt.dataType;
      assert d in ds0 && d in ptsFor0 && pt in ptsFor0[d];
    }
  }

  /** The sorted groups of `fl`, numbered: problemTypes lists every problem type of `fl` once,
      and the rows number every function of `fl` once. */
  lemma {:induction false} NumberingCounts(fl: seq<Function>, dataTypes: seq<int>,
                                          ptsFor: map<int, seq<ProblemType>>, schedFor: map<ProblemType, seq<string>>)
    requires SortedGroups(fl, dataTypes, ptsFor, schedFor)
    ensures forall dt | dt in dataTypes :: dt in ptsFor && forall pt | pt in ptsFor[dt] :: pt in schedFor
    ensures Distinct(dataTypes) && forall dt :: dt in dataTypes <==> dt in DataTypeSet(fl)
    ensures forall k :: 0 < k < |dataTypes| ==> dataTypes[k - 1] < dataTypes[k]
    ensures Distinct(FlatPts(dataTypes, ptsFor))
    ensures forall pt :: pt in FlatPts(dataTypes, ptsFor) <==> pt in ProblemTypeSet(fl)
    ensures Total(FlatPts(dataTypes, ptsFor), schedFor) == |fl|
  {
    SortedDataTypes(fl, dataTypes, ptsFor, schedFor);
    SortedProblemTypes(fl, dataTypes, ptsFor, schedFor);
    FlatPtsDistinct(dataTypes, ptsFor);
    FlatPtsMembers(fl, dataTypes, ptsFor, schedFor);
    FlatPtsTotal(fl, dataTypes, FlatPts(dataTypes, ptsFor), ptsFor, schedFor);
  }

  /** The data types of the sorted groups of `fl` are those of `fl`, strictly increasing. */
  lemma SortedDataTypes(fl: seq<Function>, dataTypes: seq<int>,
                        ptsFor: map<int, seq<ProblemType>>, schedFor: map<ProblemType, seq<string>>)
    requires SortedGroups(fl, dataTypes, ptsFor, schedFor)
    ensures Distinct(dataTypes) && forall dt :: dt in dataTypes <==> dt in DataTypeSet(fl)
    ensures forall k :: 0 < k < |dataTypes| ==> dataTypes[k - 1] < dataTypes[k]
  {
    DataTypesOfMeaning(fl);
    DistinctPermutation(DataTypesOf(fl), dataTypes);
    forall dt ensures dt in dataTypes <==> dt in DataTypeSet(fl) {
      assert dt in dataTypes <==> dt in multiset(dataTypes);
      assert dt in DataTypesOf(fl) <==> dt in multiset(DataTypesOf(fl));
    }
    forall k | 0 < k < |dataTypes| ensures dataTypes[k - 1] < dataTypes[k] {
      DistinctIndices(dataTypes, k - 1, k);
    }
  }

  /** Each data type of the sorted groups of `fl` lists distinct problem types of that data type,
      each with a schedule list. */
  lemma SortedProblemTypes(fl: seq<Function>, dataTypes: seq<int>,
                           ptsFor: map<int, seq<ProblemType>>, schedFor: map<ProblemType, seq<string>>)
    requires SortedGroups(fl, dataTypes, ptsFor, schedFor)
    requires forall dt :: dt in dataTypes <==> dt in DataTypeSet(fl)
    ensures forall dt | dt in dataTypes ::
      dt in ptsFor && Distinct(ptsFor[dt]) && forall pt | pt in ptsFor[dt] :: pt.dataType == dt && pt in schedFor
  {
    forall dt | dt in dataTypes
      ensures dt in ptsFor && Distinct(ptsFor[dt]) && forall pt | pt in ptsFor[dt] :: pt.dataType == dt && pt in schedFor
    {
      ProblemTypesOfMeaning(fl, dt);
      DistinctPermutation(ProblemTypesOf(fl, dt), ptsFor[dt]);
      forall pt | pt in ptsFor[dt] ensures pt.dataType == dt && pt in schedFor {
        assert pt in multiset(ptsFor[dt]);
      }
    }
  }

  /** The problem types listed in the sorted groups of `fl` are those of `fl`. */
  lemma FlatPtsMembers(fl: seq<Function>, dataTypes: seq<int>,
                       ptsFor: map<int, seq<ProblemType>>, schedFor: map<ProblemType, seq<string>>)
    requires SortedGroups(fl, dataTypes, ptsFor, schedFor)
    requires forall dt :: dt in dataTypes <==> dt in DataTypeSet(fl)
    ensures forall pt :: pt in FlatPts(dataTypes, ptsFor) <==> pt in ProblemTypeSet(fl)
  {
    var ps := FlatPts(dataTypes, ptsFor);
    ProblemTypeSetDataTypes(fl);
    FlatPtsListed(dataTypes, ptsFor);
    forall pt ensures pt in ps <==> pt in ProblemTypeSet(fl) {
      if pt in ProblemTypeSet(fl) {
        ProblemTypesOfMeaning(fl, pt.dataType);
        var d := pt.dataType;
        assert d in dataTypes && d in ptsFor;
        assert pt in multiset(ProblemTypesOf(fl, d));
        assert pt in ptsFor[d];
      }
      if pt in ps {
        var d :| d in dataTypes && d in ptsFor && pt in ptsFor[d];
        ProblemTypesOfMeaning(fl, d);
        assert pt in multiset(ptsFor[d]);
      }
    }
  }

  /** Listing each problem type of `fl` once, the sorted schedules number the functions of `fl`. */
  lemma FlatPtsTotal(fl: seq<Function>, dataTypes: seq<int>, ps: seq<ProblemType>,
                     ptsFor: map<int, seq<ProblemType>>, schedFor: map<ProblemType, seq<string>>)
    requires SortedGroups(fl, dataTypes, ptsFor, schedFor)
    requires Distinct(ps) && forall pt :: pt in ps <==> pt in ProblemTypeSet(fl)
    ensures Total(ps, schedFor) == |fl|
  {
    forall pt | pt in ps ensures pt in schedFor && |schedFor[pt]| == |SchedulesOf(fl, pt)| {
      assert |multiset(schedFor[pt])| == |multiset(SchedulesOf(fl, pt))|;
    }
    TotalCount(ps, schedFor, fl);
    forall f | f in fl ensures f.1 in ps {
      assert f.1 in ProblemTypeSet(fl);
    }
    CountAll(ps, fl);
  }

  /** The functionInfo numbering of writeClientParameters for the function list `functionList`:
      the data types sorted and distinct, the problem types of each data type sorted by str, the
      schedules of each problem type sorted by str, and one numbered row per function. */
  method NumberFunctions(functionList: seq<Function>)
    returns (dataTypes: seq<int>, problemTypes: seq<ProblemType>,
             problemTypesForDataType: map<int, seq<ProblemType>>,
             schedulesForProblemType: map<ProblemType, seq<string>>,
             functionInfo: seq<Info>, numFunctions: nat, numProblemTypes: nat)
    ensures SortedGroups(functionList, dataTypes, problemTypesForDataType, schedulesForProblemType)
    ensures forall k :: 0 < k < |dataTypes| ==> dataTypes[k - 1] < dataTypes[k]
    ensures forall dt :: dt in dataTypes <==> dt in DataTypeSet(functionList)
    ensures problemTypes == FlatPts(dataTypes, problemTypesForDataType)
    ensures Distinct(problemTypes) && forall pt :: pt in problemTypes <==> pt in ProblemTypeSet(functionList)
    ensures numProblemTypes == |problemTypes| == |ProblemTypeSet(functionList)|
    ensures numFunctions == |functionInfo| == |functionList|
    ensures Numbered(functionInfo, dataTypes, problemTypesForDataType, schedulesForProblemType, problemTypes)
  {
    var ds0, ptsFor0, schedFor0 := Group(functionList);
    GroupedNests(functionList, ds0, ptsFor0, schedFor0);
    dataTypes, problemTypesForDataType, schedulesForProblemType := SortGroups(ds0, ptsFor0, schedFor0);
    SortedGrouping(functionList, ds0, ptsFor0, schedFor0, dataTypes, problemTypesForDataType, schedulesForProblemType);
    NumberingCounts(functionList, dataTypes, problemTypesForDataType, schedulesForProblemType);
    functionInfo, problemTypes, numFunctions, numProblemTypes :=
      AssignInfo(dataTypes, problemTypesForDataType, schedulesForProblemType);
    ElementsCount(problemTypes, ProblemTypeSet(functionList));
  }

  /** Every grouped data type has its problem types, and each of those its schedules. */
  lemma GroupedNests(fl: seq<Function>, dataTypes: seq<int>,
                     ptsFor: map<int, seq<ProblemType>>, schedFor: map<ProblemType, seq<string>>)
    requires Grouped(fl, dataTypes, ptsFor, schedFor)
    ensures forall dt | dt in dataTypes :: dt in ptsFor && forall pt | pt in ptsFor[dt] :: pt in schedFor
  {
    forall dt | dt in dataTypes ensures dt in ptsFor && forall pt | pt in ptsFor[dt] :: pt in schedFor {
      ProblemTypesOfMeaning(fl, dt);
    }
  }

  /** A duplicate-free list of exactly the members of `s` is as long as `s` is large. */
  lemma ElementsCount<T>(ps: seq<T>, s: set<T>)
    requires Distinct(ps) && forall x :: x in ps <==> x in s
    ensures |ps| == |s|
  {
    DistinctCardinality(ps);
    assert Elements(ps) == s;
  }

  /** The benchmarking branch: the solutions share the first solution's problem type, which gives
      the only data type and problem type, and every solution gets an all-zero row. None stands
      for the IndexError of an empty solution list. */
  method BenchmarkNumbering(solutionProblemTypes: seq<ProblemType>)
    returns (r: Option<(seq<int>, seq<ProblemType>, seq<Info>, nat)>)
    ensures r.None? <==> solutionProblemTypes == []
    ensures r.Some? ==>
      && r.value.0 == [solutionProblemTypes[0].dataType]
      && r.value.1 == [solutionProblemTypes[0]]
      && |r.value.2| == |solutionProblemTypes|
      && (forall k | 0 <= k < |r.value.2| :: r.value.2[k] == Info(0, 0, 0, 0, 0, 0))
      && r.value.3 == 1
  {
    if solutionProblemTypes == [] {
      return None;
    }
    var problemType := solutionProblemTypes[0];
    var functionInfo: seq<Info> := [];
    for n := 0 to |solutionProblemTypes|
      invariant |functionInfo| == n
      invariant forall k | 0 <= k < n :: functionInfo[k] == Info(0, 0, 0, 0, 0, 0)
    {
      functionInfo := functionInfo + [Info(0, 0, 0, 0, 0, 0)];
    }
    return Some(([problemType.dataType], [problemType], functionInfo, 1));
  }
}
