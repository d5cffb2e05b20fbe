/** The client's configuration helpers: the DataInitName enumeration and dataInitParams, the
    bounds-check and prune-mode names, toCppBool and the num-elements-to-validate rule. */
module ClientParams {
  import opened Wrappers
  import Lists

  /** How the client fills a tensor before a run. The enumeration has no member with value 22. */
  datatype DataInitName =
    Zero | One | Two | Random | NaN | Inf | BadInput | BadOutput | SerialIdx | SerialDim0 | SerialDim1 | Identity | TrigSin | TrigCos | TrigAbsSin | TrigAbsCos | RandomNarrow | NegOne | Max | DenormMin | DenormMax | RandomNegPosLimited | TrigIndSin | TrigIndCos | TrigIndAbsSin | TrigIndAbsCos

  /** The enumeration value of a member. */
  function Code(d: DataInitName): int {
    match d
      case Zero => 0
      case One => 1
      case Two => 2
      case Random => 3
      case NaN => 4
      case Inf => 5
      case BadInput => 6
      case BadOutput => 7
      case SerialIdx => 8
      case SerialDim0 => 9
      case SerialDim1 => 10
      case Identity => 11
      case TrigSin => 12
      case TrigCos => 13
      case TrigAbsSin => 14
      case TrigAbsCos => 15
      case RandomNarrow => 16
      case NegOne => 17
      case Max => 18
      case DenormMin => 19
      case DenormMax => 20
      case RandomNegPosLimited => 21
      case TrigIndSin => 23
      case TrigIndCos => 24
      case TrigIndAbsSin => 25
      case TrigIndAbsCos => 26
  }

  /** The member's name, `DataInitName(x).name`. */
  function Name(d: DataInitName): string {
    match d
      case Zero => "Zero"
      case One => "One"
      case Two => "Two"
      case Random => "Random"
      case NaN => "NaN"
      case Inf => "Inf"
      case BadInput => "BadInput"
      case BadOutput => "BadOutput"
      case SerialIdx => "SerialIdx"
      case SerialDim0 => "SerialDim0"
      case SerialDim1 => "SerialDim1"
      case Identity => "Identity"
      case TrigSin => "TrigSin"
      case TrigCos => "TrigCos"
      case TrigAbsSin => "TrigAbsSin"
      case TrigAbsCos => "TrigAbsCos"
      case RandomNarrow => "RandomNarrow"
      case NegOne => "NegOne"
      case Max => "Max"
      case DenormMin => "DenormMin"
      case DenormMax => "DenormMax"
      case RandomNegPosLimited => "RandomNegPosLimited"
      case TrigIndSin => "TrigIndSin"
      case TrigIndCos => "TrigIndCos"
      case TrigIndAbsSin => "TrigIndAbsSin"
      case TrigIndAbsCos => "TrigIndAbsCos"
  }

  /** `DataInitName(n)`: the member whose value is `n`; None where Python raises ValueError. */
  function FromCode(n: int): (r: Option<DataInitName>)
    ensures r.Some? <==> 0 <= n <= 26 && n != 22
    ensures r.Some? ==> Code(r.value) == n
  {
    if n == 0 then Some(Zero)
    else if n == 1 then Some(One)
    else if n == 2 then Some(Two)
    else if n == 3 then Some(Random)
    else if n == 4 then Some(NaN)
    else if n == 5 then Some(Inf)
    else if n == 6 then Some(BadInput)
    else if n == 7 then Some(BadOutput)
    else if n == 8 then Some(SerialIdx)
    else if n == 9 then Some(SerialDim0)
    else if n == 10 then Some(SerialDim1)
    else if n == 11 then Some(Identity)
    else if n == 12 then Some(TrigSin)
    else if n == 13 then Some(TrigCos)
    else if n == 14 then Some(TrigAbsSin)
    else if n == 15 then Some(TrigAbsCos)
    else if n == 16 then Some(RandomNarrow)
    else if n == 17 then Some(NegOne)
    else if n == 18 then Some(Max)
    else if n == 19 then Some(DenormMin)
    else if n == 20 then Some(DenormMax)
    else if n == 21 then Some(RandomNegPosLimited)
    else if n == 23 then Some(TrigIndSin)
    else if n == 24 then Some(TrigIndCos)
    else if n == 25 then Some(TrigIndAbsSin)
    else if n == 26 then Some(TrigIndAbsCos)
    else None
  }

  /** Every member is recovered from its value. */
  lemma CodeRoundTrip(d: DataInitName)
    ensures FromCode(Code(d)) == Some(d)
  {
  }

  /** The DataInitType* settings dataInitParams reads, as enumeration values. */
  datatype DataInitConfig = DataInitConfig(
    ab: int, a: int, b: int, c: int, d: int, e: int, alpha: int, beta: int, bias: int,
    scaleA: int, scaleB: int, scaleC: int, scaleD: int, scaleAlphaVec: int)

  /** The keys dataInitParams writes, in order. */
  const InitKeys: seq<string> := [
    "init-a", "init-b", "init-c", "init-d", "init-e", "init-alpha", "init-beta", "init-bias",
    "init-scaleA", "init-scaleB", "init-scaleC", "init-scaleD", "init-scaleAlphaVec"]

  /** The value each key is written from, after the A/B fallback to DataInitTypeAB and the
      Zero override of beta for problem types without beta. */
  function InitCodes(cfg: DataInitConfig, useBeta: bool): (r: seq<int>)
    ensures |r| == |InitKeys|
  {
    [ if cfg.a == -1 then cfg.ab else cfg.a,
      if cfg.b == -1 then cfg.ab else cfg.b,
      cfg.c, cfg.d, cfg.e, cfg.alpha,
      if useBeta then cfg.beta else 0,
      cfg.bias, cfg.scaleA, cfg.scaleB, cfg.scaleC, cfg.scaleD, cfg.scaleAlphaVec ]
  }

  /** `DataInitName(c).name` for each code in order, or the first code that is no member's value. */
  function Names(codes: seq<int>): (r: Result<seq<string>, int>)
    ensures r.Success? <==> forall k :: 0 <= k < |codes| ==> FromCode(codes[k]).Some?
    ensures r.Success? ==>
      && |r.value| == |codes|
      && forall k :: 0 <= k < |codes| ==> FromCode(codes[k]).Some? && r.value[k] == Name(FromCode(codes[k]).value)
    ensures r.Failure? ==>
      exists k :: && 0 <= k < |codes| && codes[k] == r.error && FromCode(codes[k]).None?
                  && forall k' :: 0 <= k' < k ==> FromCode(codes[k']).Some?
  {
    if codes == [] then Success([])
    else
      match FromCode(codes[0])
      case None => Failure(codes[0])
      case Some(d) =>
        var rest :- Names(codes[1..]);
        assert forall k :: 1 <= k < |codes| ==> codes[k] == codes[1..][k - 1];
        Success([Name(d)] + rest)
  }

  /** dataInitParams: the 13 `(key, name)` pairs, or the value Python's DataInitName rejects. */
  function DataInitParams(cfg: DataInitConfig, useBeta: bool): Result<seq<(string, string)>, int> {
    var names :- Names(InitCodes(cfg, useBeta));
    Success(seq(|InitKeys|, k requires 0 <= k < |InitKeys| => (InitKeys[k], names[k])))
  }

  /** The name written for a setting, when its value is a member's. */
  function NameOf(code: int): string {
    match FromCode(code)
    case Some(d) => Name(d)
    case None => ""
  }

  /** dataInitParams succeeds iff every effective value is a member's, and then writes exactly the
      13 keys in order: init-a and init-b take DataInitTypeAB when set to -1, init-beta is Zero
      without beta, and every other key carries its own setting. */
  lemma DataInitParamsMeaning(cfg: DataInitConfig, useBeta: bool)
    ensures DataInitParams(cfg, useBeta).Success? <==>
      forall k :: 0 <= k < |InitKeys| ==> FromCode(InitCodes(cfg, useBeta)[k]).Some?
    ensures DataInitParams(cfg, useBeta).Success? ==>
      var r := DataInitParams(cfg, useBeta).value;
      && |r| == 13
      && (forall k :: 0 <= k < 13 ==> r[k].0 == InitKeys[k])
      && r[0].1 == NameOf(if cfg.a == -1 then cfg.ab else cfg.a)
      && r[1].1 == NameOf(if cfg.b == -1 then cfg.ab else cfg.b)
      && r[6].1 == (if useBeta then NameOf(cfg.beta) else "Zero")
      && r[2].1 == NameOf(cfg.c) && r[3].1 == NameOf(cfg.d) && r[4].1 == NameOf(cfg.e)
      && r[5].1 == NameOf(cfg.alpha) && r[7].1 == NameOf(cfg.bias)
      && r[8].1 == NameOf(cfg.scaleA) && r[9].1 == NameOf(cfg.scaleB) && r[10].1 == NameOf(cfg.scaleC)
      && r[11].1 == NameOf(cfg.scaleD) && r[12].1 == NameOf(cfg.scaleAlphaVec)
    ensures DataInitParams(cfg, useBeta).Failure? ==>
      var e := DataInitParams(cfg, useBeta).error;
      (e == 22 || e < 0 || e > 26) && e in InitCodes(cfg, useBeta)
  {
    var codes := InitCodes(cfg, useBeta);
    var names := Names(codes);
    if names.Success? {
      forall k | 0 <= k < 13 ensures names.value[k] == NameOf(codes[k]) {
        assert FromCode(codes[k]).Some?;
      }
    }
  }

  /** The --bounds-check mode name; None (Python's implicit return) outside 0..4. */
  function BoundsCheckName(mode: int): Option<string> {
    if mode == 0 then Some("Disable")
    else if mode == 1 then Some("NaN")
    else if mode == 2 then Some("GuardPageFront")
    else if mode == 3 then Some("GuardPageBack")
    else if mode == 4 then Some("GuardPageAll")
    else None
  }

  /** The bounds-check mode a name stands for. */
  function BoundsCheckMode(name: string): Option<int> {
    if name == "Disable" then Some(0)
    else if name == "NaN" then Some(1)
    else if name == "GuardPageFront" then Some(2)
    else if name == "GuardPageBack" then Some(3)
    else if name == "GuardPageAll" then Some(4)
    else None
  }

  /** BoundsCheckName names exactly the modes 0..4, each with a different name. */
  lemma BoundsCheckNameInverse(mode: int, name: string)
    ensures BoundsCheckName(mode).Some? <==> 0 <= mode <= 4
    ensures BoundsCheckName(mode).Some? ==> BoundsCheckMode(BoundsCheckName(mode).value) == Some(mode)
    ensures BoundsCheckMode(name).Some? ==> BoundsCheckName(BoundsCheckMode(name).value) == Some(name)
  {
  }

  /** The --prune-mode name of a sparse pruning mode; None outside 0..6. */
  function PruneModeName(mode: int): Option<string> {
    if mode == 0 then Some("PruneRandom")
    else if mode == 1 then Some("PruneXX00")
    else if mode == 2 then Some("PruneX0X0")
    else if mode == 3 then Some("Prune0XX0")
    else if mode == 4 then Some("PruneX00X")
    else if mode == 5 then Some("Prune0X0X")
    else if mode == 6 then Some("Prune00XX")
    else None
  }

  /** The pruning mode a name stands for. */
  function PruneMode(name: string): Option<int> {
    if name == "PruneRandom" then Some(0)
    else if name == "PruneXX00" then Some(1)
    else if name == "PruneX0X0" then Some(2)
    else if name == "Prune0XX0" then Some(3)
    else if name == "PruneX00X" then Some(4)
    else if name == "Prune0X0X" then Some(5)
    else if name == "Prune00XX" then Some(6)
    else None
  }

  /** PruneModeName names exactly the modes 0..6, each with a different name. */
  lemma PruneModeNameInverse(mode: int, name: string)
    ensures PruneModeName(mode).Some? <==> 0 <= mode <= 6
    ensures PruneModeName(mode).Some? ==> PruneMode(PruneModeName(mode).value) == Some(mode)
    ensures PruneMode(name).Some? ==> PruneModeName(PruneMode(name).value) == Some(name)
  {
  }

  /** toCppBool: the C++ literal of a boolean. */
  function ToCppBool(yamlBool: bool): (r: string)
    ensures r == "true" || r == "false"
    ensures r == "true" <==> yamlBool
  {
    if yamlBool then "true" else "false"
  }

  /** The num-elements-to-validate setting: the configured value when benchmarking; otherwise -1
      (validate everything) if either setting is -1, else the larger of the two. */
  function NumElementsToValidate(forBenchmark: bool, numElementsToValidate: int, winner: int): (r: int)
    ensures forBenchmark ==> r == numElementsToValidate
    ensures !forBenchmark ==> (r == -1 <==> numElementsToValidate == -1 || winner == -1)
    ensures !forBenchmark && numElementsToValidate != -1 && winner != -1 ==>
      r >= numElementsToValidate && r >= winner && (r == numElementsToValidate || r == winner)
  {
    if !forBenchmark then
      if winner == -1 || numElementsToValidate == -1 then -1
      else Lists.Max(winner, numElementsToValidate)
    else numElementsToValidate
  }
}
