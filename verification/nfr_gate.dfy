/**
 * The NFR gate: integer checks over the normalised artifacts. Each security
 * report must carry zero critical and zero high findings; the burn-in summary
 * must record at least 100 consecutive passes. The fractional gates (recovery
 * success rate, performance regression) are inputs here: their findings come
 * in as already formatted messages.
 */
module NfrGate {
  import opened Wrappers
  import opened PyValues
  import NfrNormalize

  /** Path `p` leads to an `int`, `float` or `bool`. */
  predicate ResolvesToNumber(obj: PyValue, p: Path) {
    Resolve(obj, p).Some? && IsNumber(Resolve(obj, p).value)
  }

  /** Path `i` leads to a number and no earlier path does. */
  ghost predicate FirstNumberAt(obj: PyValue, paths: seq<Path>, i: int) {
    0 <= i < |paths| && ResolvesToNumber(obj, paths[i])
    && forall j :: 0 <= j < i ==> !ResolvesToNumber(obj, paths[j])
  }

  /**
   * `first_int`: the integer value of the first path that leads to a number.
   * A path that resolves to something else (a string, a list, `None`) is
   * skipped, not taken.
   */
  function FirstInt(obj: PyValue, paths: seq<Path>): (r: Option<int>)
    ensures r.None? <==> forall i :: 0 <= i < |paths| ==> !ResolvesToNumber(obj, paths[i])
    ensures forall i :: FirstNumberAt(obj, paths, i) ==> r == Some(IntOf(Resolve(obj, paths[i]).value))
  {
    if |paths| == 0 then None
    else if ResolvesToNumber(obj, paths[0]) then Some(IntOf(Resolve(obj, paths[0]).value))
    else
      var r := FirstInt(obj, paths[1..]);
      assert forall i :: 1 <= i < |paths| ==> paths[1..][i - 1] == paths[i];
      assert forall i :: FirstNumberAt(obj, paths, i) ==> FirstNumberAt(obj, paths[1..], i - 1);
      r
  }

  /**
   * Where the normaliser's lookup finds a number, the gate's lookup finds
   * the same one, as an integer.
   */
  lemma {:induction false} FirstIntAgreesWithDeepGet(obj: PyValue, paths: seq<Path>)
    requires IsNumber(NfrNormalize.DeepGetFirst(obj, paths))
    ensures FirstInt(obj, paths) == Some(IntOf(NfrNormalize.DeepGetFirst(obj, paths)))
    decreases |paths|
  {
    if |paths| == 0 {
    } else if Resolve(obj, paths[0]).None? {
      assert NfrNormalize.DeepGetFirst(obj, paths) == NfrNormalize.DeepGetFirst(obj, paths[1..]);
      FirstIntAgreesWithDeepGet(obj, paths[1..]);
    }
  }

  // ---------------------------------------------------------------------------
  // Gate rules
  // ---------------------------------------------------------------------------

  const SastReport := "security-sast-report.json"
  const DepsReport := "security-deps-report.json"

  /** The burn-in gate's paths: unlike the normaliser it does not accept `consecutive_successes`. */
  const GateConsecutivePaths: seq<Path> :=
    [["consecutive_passes"], ["summary", "consecutive_passes"], ["metrics", "consecutive_passes"]]

  datatype GateError =
    | MissingCount(report: string, field: string)
    | NonZeroCount(report: string, field: string, value: int)
    | MissingConsecutivePasses
    | TooFewPasses(value: int)
    | RateGate(message: string)

  /** One count of one security report: it must be present and zero. */
  function CountErrors(report: string, field: string, count: Option<int>): (r: seq<GateError>)
    ensures r == [] <==> count == Some(0)
    ensures |r| <= 1
  {
    match count
    case None => [MissingCount(report, field)]
    case Some(n) => if n != 0 then [NonZeroCount(report, field, n)] else []
  }

  predicate SecurityClean(data: PyValue) {
    FirstInt(data, NfrNormalize.CriticalPaths) == Some(0) && FirstInt(data, NfrNormalize.HighPaths) == Some(0)
  }

  /** The errors one security report adds: at most one for its critical count and one for its high count. */
  function SecurityErrors(report: string, data: PyValue): (r: seq<GateError>)
    ensures r == [] <==> SecurityClean(data)
    ensures |r| == (if FirstInt(data, NfrNormalize.CriticalPaths) == Some(0) then 0 else 1)
                 + (if FirstInt(data, NfrNormalize.HighPaths) == Some(0) then 0 else 1)
  {
    CountErrors(report, "critical", FirstInt(data, NfrNormalize.CriticalPaths))
      + CountErrors(report, "high", FirstInt(data, NfrNormalize.HighPaths))
  }

  predicate BurninClean(data: PyValue) {
    var n := FirstInt(data, GateConsecutivePaths);
    n.Some? && n.value >= NfrNormalize.RequiredPasses
  }

  /** The burn-in summary adds one error when its consecutive passes are missing or below 100. */
  function BurninErrors(data: PyValue): (r: seq<GateError>)
    ensures r == [] <==> BurninClean(data)
    ensures |r| <= 1
  {
    match FirstInt(data, GateConsecutivePaths)
    case None => [MissingConsecutivePasses]
    case Some(n) => if n < NfrNormalize.RequiredPasses then [TooFewPasses(n)] else []
  }

  /** Every error the gate collects, in the order it checks the artifacts. */
  function GateErrors(sast: PyValue, deps: PyValue, burnin: PyValue, rateFindings: seq<string>): seq<GateError> {
    SecurityErrors(SastReport, sast) + SecurityErrors(DepsReport, deps) + BurninErrors(burnin)
      + seq(|rateFindings|, i requires 0 <= i < |rateFindings| => RateGate(rateFindings[i]))
  }

  /** The process exit status: 1 when any error was collected, 0 otherwise. */
  function ExitCode(errors: seq<GateError>): (code: int)
    ensures code == 0 || code == 1
    ensures code == 0 <==> |errors| == 0
  {
    if |errors| > 0 then 1 else 0
  }

  /** The gate passes exactly when every integer rule and every fractional rule holds. */
  lemma GateVerdict(sast: PyValue, deps: PyValue, burnin: PyValue, rateFindings: seq<string>)
    ensures ExitCode(GateErrors(sast, deps, burnin, rateFindings)) == 0
      <==> SecurityClean(sast) && SecurityClean(deps) && BurninClean(burnin) && |rateFindings| == 0
  {
    var errors := GateErrors(sast, deps, burnin, rateFindings);
    assert |errors| == |SecurityErrors(SastReport, sast)| + |SecurityErrors(DepsReport, deps)|
      + |BurninErrors(burnin)| + |rateFindings|;
  }

  // ---------------------------------------------------------------------------
  // The gate on the normaliser's own artifacts
  // ---------------------------------------------------------------------------

  /** The gate accepts a normalised security artifact exactly when the artifact's status is PASS. */
  lemma NormalizedSecurityPassesGate(report: string, raw: PyValue, toolName: string, generatedAt: string,
                                     parse: NfrNormalize.NumberParse)
    ensures var r := NfrNormalize.NormalizeSecurity(raw, toolName, generatedAt, parse);
      SecurityErrors(report, r) == [] <==> Resolve(r, ["status"]) == Some(PStr(NfrNormalize.Pass))
  {
    var c := NfrNormalize.SecurityCountsOf(raw, parse);
    SecurityArtifactClean(report, c, toolName, generatedAt);
    NfrNormalize.SecurityStatusAt(c, toolName, generatedAt);
  }

  /** The gate reads back exactly the critical and high counts the artifact was written from. */
  lemma SecurityArtifactClean(report: string, c: NfrNormalize.SecurityCounts, toolName: string, generatedAt: string)
    ensures SecurityErrors(report, PDict(NfrNormalize.SecurityEntries(c, toolName, generatedAt))) == [] <==>
              c.critical == 0 && c.high == 0
  {
    CountFoundByGate(c, toolName, generatedAt, NfrNormalize.CriticalPaths, "critical", c.critical);
    CountFoundByGate(c, toolName, generatedAt, NfrNormalize.HighPaths, "high", c.high);
  }

  /** One count of a normalised security artifact, as the gate's lookup finds it. */
  lemma CountFoundByGate(c: NfrNormalize.SecurityCounts, toolName: string, generatedAt: string,
                         paths: seq<Path>, key: string, n: int)
    requires |paths| >= 2 && paths[0] == [key] && paths[1] == ["summary", key]
    requires key in NfrNormalize.SummaryDict(c) && NfrNormalize.SummaryDict(c)[key] == PInt(n)
    requires key !in NfrNormalize.SecurityEntries(c, toolName, generatedAt)
    ensures FirstInt(PDict(NfrNormalize.SecurityEntries(c, toolName, generatedAt)), paths) == Some(n)
  {
    var e := NfrNormalize.SecurityEntries(c, toolName, generatedAt);
    NfrNormalize.CountReadBack(c, toolName, generatedAt, paths, key);
    FirstIntAgreesWithDeepGet(PDict(e), paths);
  }

  /** The gate accepts a normalised burn-in artifact exactly when the artifact's status is PASS. */
  lemma NormalizedBurninPassesGate(raw: PyValue, generatedAt: string, parse: NfrNormalize.NumberParse)
    ensures var r := NfrNormalize.NormalizeBurnin(raw, generatedAt, parse);
      BurninErrors(r) == [] <==> Resolve(r, ["status"]) == Some(PStr(NfrNormalize.Pass))
  {
    var b := NfrNormalize.BurninCountsOf(raw, parse);
    BurninArtifactClean(b, generatedAt);
    NfrNormalize.BurninStatusAt(b, generatedAt);
  }

  /** The gate reads back exactly the consecutive passes the burn-in artifact was written from. */
  lemma BurninArtifactClean(b: NfrNormalize.BurninCounts, generatedAt: string)
    ensures BurninErrors(PDict(NfrNormalize.BurninEntries(b, generatedAt))) == [] <==>
              b.consecutive >= NfrNormalize.RequiredPasses
  {
    var e := NfrNormalize.BurninEntries(b, generatedAt);
    NfrNormalize.BurninReadBack(b, generatedAt, GateConsecutivePaths, "consecutive_passes", PInt(b.consecutive));
    FirstIntAgreesWithDeepGet(PDict(e), GateConsecutivePaths);
  }
}
