/**
 * The NFR normaliser: reading counts out of a raw tool report through a list
 * of alternative key paths, coercing them to integers, and writing the
 * gate-compatible security and burn-in artifacts with their PASS/CONCERNS
 * status. The clock (`generated_at`) and the string-to-number parse are
 * parameters; file I/O is not modelled.
 */
module NfrNormalize {
  import opened Wrappers
  import opened PyValues
  import Text

  // ---------------------------------------------------------------------------
  // deep_get_first
  // ---------------------------------------------------------------------------

  ghost predicate NoneResolves(obj: PyValue, paths: seq<Path>) {
    forall i :: 0 <= i < |paths| ==> Resolve(obj, paths[i]).None?
  }

  /** Path `i` resolves and no earlier path does. */
  ghost predicate FirstResolvingAt(obj: PyValue, paths: seq<Path>, i: int) {
    0 <= i < |paths| && Resolve(obj, paths[i]).Some?
    && forall j :: 0 <= j < i ==> Resolve(obj, paths[j]).None?
  }

  /**
   * The value at the first path that fully resolves through dicts; `None`
   * when none does (a path that resolves to a JSON null also gives `None`).
   */
  function DeepGetFirst(obj: PyValue, paths: seq<Path>): (r: PyValue)
    ensures NoneResolves(obj, paths) ==> r == PNone
    ensures forall i :: FirstResolvingAt(obj, paths, i) ==> r == Resolve(obj, paths[i]).value
  {
    if |paths| == 0 then PNone
    else
      match Resolve(obj, paths[0])
      case Some(v) => v
      case None =>
        var r := DeepGetFirst(obj, paths[1..]);
        assert forall i :: FirstResolvingAt(obj, paths, i) ==> i > 0 && FirstResolvingAt(obj, paths[1..], i - 1);
        r
  }

  /**
   * Looking through `ps` and then `qs` is looking through `ps` when some path
   * of `ps` resolves, and through `qs` otherwise: the earlier list wins.
   */
  lemma {:induction false} DeepGetFirstAppend(obj: PyValue, ps: seq<Path>, qs: seq<Path>)
    ensures NoneResolves(obj, ps) ==> DeepGetFirst(obj, ps + qs) == DeepGetFirst(obj, qs)
    ensures !NoneResolves(obj, ps) ==> DeepGetFirst(obj, ps + qs) == DeepGetFirst(obj, ps)
    decreases |ps|
  {
    if |ps| == 0 {
      assert ps + qs == qs;
    } else {
      assert (ps + qs)[0] == ps[0];
      assert (ps + qs)[1..] == ps[1..] + qs;
      if Resolve(obj, ps[0]).None? {
        DeepGetFirstAppend(obj, ps[1..], qs);
        if !NoneResolves(obj, ps) {
          var i :| 0 <= i < |ps| && Resolve(obj, ps[i]).Some?;
          assert ps[1..][i - 1] == ps[i];
        }
      }
    }
  }

  // ---------------------------------------------------------------------------
  // to_int
  // ---------------------------------------------------------------------------

  /**
   * `int(float(text))` on an already stripped string, or `None` when Python
   * raises `ValueError`. The decimal and float syntax Python accepts is not
   * modelled, so the parse is a parameter.
   */
  type NumberParse = string -> Option<int>

  /**
   * `to_int(value, default)`: booleans are 0 or 1 (they are tested before
   * ints), ints stay as they are, floats truncate, strings are stripped and
   * parsed, and everything else gives the default.
   */
  function ToInt(value: PyValue, default: int, parse: NumberParse): (r: int)
    ensures IsNumber(value) ==> r == IntOf(value)
    ensures value.PStr? ==> r == parse(Text.PyStrip(value.s)).GetOr(default)
    ensures !IsNumber(value) && !value.PStr? ==> r == default
  {
    match value
    case PBool(b) => if b then 1 else 0
    case PInt(n) => n
    case PFloat(x) => Truncate(x)
    case PStr(s) => parse(Text.PyStrip(s)).GetOr(default)
    case _ => default
  }

  /** The default only matters for values that are neither numbers nor readable strings. */
  lemma ToIntDefault(value: PyValue, d1: int, d2: int, parse: NumberParse)
    ensures ToInt(value, d1, parse) != ToInt(value, d2, parse)
      ==> value.PNone? || value.PList? || value.PDict? || (value.PStr? && parse(Text.PyStrip(value.s)).None?)
  {
  }

  // ---------------------------------------------------------------------------
  // Security reports
  // ---------------------------------------------------------------------------

  const CriticalPaths: seq<Path> := [["critical"], ["summary", "critical"], ["vulnerabilities", "critical"]]
  const HighPaths: seq<Path> := [["high"], ["summary", "high"], ["vulnerabilities", "high"]]
  const MediumPaths: seq<Path> := [["medium"], ["summary", "medium"], ["vulnerabilities", "medium"]]
  const LowPaths: seq<Path> := [["low"], ["summary", "low"], ["vulnerabilities", "low"]]
  const InfoPaths: seq<Path> := [["info"], ["summary", "info"]]

  const Pass := "PASS"
  const Concerns := "CONCERNS"

  datatype SecurityCounts = SecurityCounts(critical: int, high: int, medium: int, low: int, info: int)

  /** The five counts `normalize_security` reads from a raw report. */
  function SecurityCountsOf(raw: PyValue, parse: NumberParse): SecurityCounts {
    SecurityCounts(
      ToInt(DeepGetFirst(raw, CriticalPaths), 0, parse),
      ToInt(DeepGetFirst(raw, HighPaths), 0, parse),
      ToInt(DeepGetFirst(raw, MediumPaths), 0, parse),
      ToInt(DeepGetFirst(raw, LowPaths), 0, parse),
      ToInt(DeepGetFirst(raw, InfoPaths), 0, parse))
  }

  function SecurityStatus(c: SecurityCounts): string {
    if c.critical == 0 && c.high == 0 then Pass else Concerns
  }

  function SummaryDict(c: SecurityCounts): map<string, PyValue> {
    map["critical" := PInt(c.critical), "high" := PInt(c.high), "medium" := PInt(c.medium),
        "low" := PInt(c.low), "info" := PInt(c.info)]
  }

  function VulnerabilitiesDict(c: SecurityCounts): map<string, PyValue> {
    map["critical" := PInt(c.critical), "high" := PInt(c.high), "medium" := PInt(c.medium),
        "low" := PInt(c.low), "items" := PList([])]
  }

  function SecurityEntries(c: SecurityCounts, toolName: string, generatedAt: string): map<string, PyValue> {
    map["tool" := PStr(toolName), "generated_at" := PStr(generatedAt),
        "summary" := PDict(SummaryDict(c)), "vulnerabilities" := PDict(VulnerabilitiesDict(c)),
        "status" := PStr(SecurityStatus(c))]
  }

  /** `normalize_security`: the artifact the security gate reads. */
  function NormalizeSecurity(raw: PyValue, toolName: string, generatedAt: string, parse: NumberParse): (r: PyValue)
    ensures r.PDict? && "status" in r.entries && "summary" in r.entries
  {
    PDict(SecurityEntries(SecurityCountsOf(raw, parse), toolName, generatedAt))
  }

  /** Where each count sits in a normalised security artifact. */
  lemma SecurityArtifactPaths(c: SecurityCounts, toolName: string, generatedAt: string)
    ensures var r := PDict(SecurityEntries(c, toolName, generatedAt));
      && Resolve(r, ["summary", "critical"]) == Some(PInt(c.critical))
      && Resolve(r, ["summary", "high"]) == Some(PInt(c.high))
      && Resolve(r, ["summary", "medium"]) == Some(PInt(c.medium))
      && Resolve(r, ["summary", "low"]) == Some(PInt(c.low))
      && Resolve(r, ["summary", "info"]) == Some(PInt(c.info))
      && Resolve(r, ["vulnerabilities", "critical"]) == Some(PInt(c.critical))
      && Resolve(r, ["vulnerabilities", "high"]) == Some(PInt(c.high))
      && Resolve(r, ["vulnerabilities", "medium"]) == Some(PInt(c.medium))
      && Resolve(r, ["vulnerabilities", "low"]) == Some(PInt(c.low))
      && Resolve(r, ["status"]) == Some(PStr(SecurityStatus(c)))
  {
    var e := SecurityEntries(c, toolName, generatedAt);
    ResolveKeys(e, "summary", SummaryDict(c), "critical");
    ResolveKeys(e, "summary", SummaryDict(c), "high");
    ResolveKeys(e, "summary", SummaryDict(c), "medium");
    ResolveKeys(e, "summary", SummaryDict(c), "low");
    ResolveKeys(e, "summary", SummaryDict(c), "info");
    ResolveKeys(e, "vulnerabilities", VulnerabilitiesDict(c), "critical");
    ResolveKeys(e, "vulnerabilities", VulnerabilitiesDict(c), "high");
    ResolveKeys(e, "vulnerabilities", VulnerabilitiesDict(c), "medium");
    ResolveKeys(e, "vulnerabilities", VulnerabilitiesDict(c), "low");
    ResolveKey(e, "status");
  }

  /**
   * The artifact's status is PASS exactly when its critical and high counts
   * are both zero, and its summary and vulnerabilities blocks carry the same
   * four counts.
   */
  lemma NormalizedSecurityStatus(raw: PyValue, toolName: string, generatedAt: string, parse: NumberParse)
    ensures var r := NormalizeSecurity(raw, toolName, generatedAt, parse);
      && (Resolve(r, ["status"]) == Some(PStr(Pass))
          <==> Resolve(r, ["summary", "critical"]) == Some(PInt(0)) && Resolve(r, ["summary", "high"]) == Some(PInt(0)))
      && Resolve(r, ["summary", "critical"]) == Resolve(r, ["vulnerabilities", "critical"])
      && Resolve(r, ["summary", "high"]) == Resolve(r, ["vulnerabilities", "high"])
      && Resolve(r, ["summary", "medium"]) == Resolve(r, ["vulnerabilities", "medium"])
      && Resolve(r, ["summary", "low"]) == Resolve(r, ["vulnerabilities", "low"])
  {
    SecurityArtifactPaths(SecurityCountsOf(raw, parse), toolName, generatedAt);
  }

  /** The first path of a count list misses the artifact's top level, the second finds the summary. */
  lemma SecondPathWins(top: map<string, PyValue>, paths: seq<Path>, v: PyValue)
    requires |paths| >= 2 && |paths[0]| == 1 && paths[0][0] !in top
    requires Resolve(PDict(top), paths[1]) == Some(v)
    ensures DeepGetFirst(PDict(top), paths) == v
  {
    ResolveKey(top, paths[0][0]);
    assert paths[0] == [paths[0][0]];
    assert FirstResolvingAt(PDict(top), paths, 1);
  }

  /** Reading the counts back out of an artifact gives the counts it was written from. */
  lemma SecurityCountsOfArtifact(c: SecurityCounts, toolName: string, generatedAt: string, parse: NumberParse)
    ensures SecurityCountsOf(PDict(SecurityEntries(c, toolName, generatedAt)), parse) == c
  {
    CountReadBack(c, toolName, generatedAt, CriticalPaths, "critical");
    CountReadBack(c, toolName, generatedAt, HighPaths, "high");
    CountReadBack(c, toolName, generatedAt, MediumPaths, "medium");
    CountReadBack(c, toolName, generatedAt, LowPaths, "low");
    CountReadBack(c, toolName, generatedAt, InfoPaths, "info");
  }

  /** The artifact's status sits under the top-level `status` key. */
  lemma SecurityStatusAt(c: SecurityCounts, toolName: string, generatedAt: string)
    ensures Resolve(PDict(SecurityEntries(c, toolName, generatedAt)), ["status"]) == Some(PStr(SecurityStatus(c)))
  {
    ResolveKey(SecurityEntries(c, toolName, generatedAt), "status");
  }

  /** A count list finds its count in the artifact's summary block. */
  lemma CountReadBack(c: SecurityCounts, toolName: string, generatedAt: string, paths: seq<Path>, key: string)
    requires |paths| >= 2 && paths[0] == [key] && paths[1] == ["summary", key]
    requires key in SummaryDict(c) && key !in SecurityEntries(c, toolName, generatedAt)
    ensures DeepGetFirst(PDict(SecurityEntries(c, toolName, generatedAt)), paths) == SummaryDict(c)[key]
  {
    var e := SecurityEntries(c, toolName, generatedAt);
    ResolveKeys(e, "summary", SummaryDict(c), key);
    SecondPathWins(e, paths, SummaryDict(c)[key]);
  }

  /** Normalising an already normalised artifact reads back the same counts. */
  lemma NormalizeSecurityStable(raw: PyValue, toolName: string, generatedAt: string, parse: NumberParse)
    ensures SecurityCountsOf(NormalizeSecurity(raw, toolName, generatedAt, parse), parse) == SecurityCountsOf(raw, parse)
  {
    SecurityCountsOfArtifact(SecurityCountsOf(raw, parse), toolName, generatedAt, parse);
  }

  // ---------------------------------------------------------------------------
  // Burn-in summaries
  // ---------------------------------------------------------------------------

  const ConsecutivePaths: seq<Path> :=
    [["consecutive_passes"], ["summary", "consecutive_passes"], ["metrics", "consecutive_passes"], ["consecutive_successes"]]
  const TotalPaths: seq<Path> := [["total_runs"], ["summary", "total_runs"], ["runs"]]
  const FailurePaths: seq<Path> := [["failure_count"], ["summary", "failure_count"], ["failures"]]

  /** The burn-in gate's threshold of consecutive passing runs. */
  const RequiredPasses := 100

  datatype BurninCounts = BurninCounts(consecutive: int, total: int, failures: int)

  function Max(a: int, b: int): int {
    if a < b then b else a
  }

  /**
   * The three counts `normalize_burnin` reads: a missing total defaults to
   * the consecutive passes, and missing failures to the runs that did not
   * pass, never below zero.
   */
  function BurninCountsOf(raw: PyValue, parse: NumberParse): (r: BurninCounts)
    ensures DeepGetFirst(raw, TotalPaths) == PNone ==> r.total == r.consecutive
    ensures DeepGetFirst(raw, FailurePaths) == PNone ==> r.failures == Max(r.total - r.consecutive, 0) && r.failures >= 0
  {
    var cp := ToInt(DeepGetFirst(raw, ConsecutivePaths), 0, parse);
    var tr := ToInt(DeepGetFirst(raw, TotalPaths), cp, parse);
    var fc := ToInt(DeepGetFirst(raw, FailurePaths), Max(tr - cp, 0), parse);
    BurninCounts(cp, tr, fc)
  }

  function BurninStatus(b: BurninCounts): string {
    if b.consecutive >= RequiredPasses then Pass else Concerns
  }

  /** `cp / tr`, or 0.0 when there were no runs. */
  function StabilityRate(b: BurninCounts): real {
    if b.total == 0 then 0.0 else b.consecutive as real / b.total as real
  }

  function BurninSummary(b: BurninCounts): map<string, PyValue> {
    map["consecutive_passes" := PInt(b.consecutive), "total_runs" := PInt(b.total),
        "failure_count" := PInt(b.failures)]
  }

  function BurninEntries(b: BurninCounts, generatedAt: string): map<string, PyValue> {
    map["generated_at" := PStr(generatedAt), "suite" := PStr("core-invariant-suite"),
        "summary" := PDict(BurninSummary(b)),
        "metrics" := PDict(map["consecutive_passes" := PInt(b.consecutive), "stability_rate" := PFloat(StabilityRate(b))]),
        "status" := PStr(BurninStatus(b))]
  }

  /** `normalize_burnin`: the artifact the burn-in gate reads. */
  function NormalizeBurnin(raw: PyValue, generatedAt: string, parse: NumberParse): (r: PyValue)
    ensures r.PDict? && "status" in r.entries && "summary" in r.entries
  {
    PDict(BurninEntries(BurninCountsOf(raw, parse), generatedAt))
  }

  /** Where each count sits in a normalised burn-in artifact. */
  lemma BurninArtifactPaths(b: BurninCounts, generatedAt: string)
    ensures var r := PDict(BurninEntries(b, generatedAt));
      && Resolve(r, ["summary", "consecutive_passes"]) == Some(PInt(b.consecutive))
      && Resolve(r, ["summary", "total_runs"]) == Some(PInt(b.total))
      && Resolve(r, ["summary", "failure_count"]) == Some(PInt(b.failures))
      && Resolve(r, ["metrics", "consecutive_passes"]) == Some(PInt(b.consecutive))
      && Resolve(r, ["status"]) == Some(PStr(BurninStatus(b)))
  {
    var e := BurninEntries(b, generatedAt);
    ResolveKeys(e, "summary", e["summary"].entries, "consecutive_passes");
    ResolveKeys(e, "summary", e["summary"].entries, "total_runs");
    ResolveKeys(e, "summary", e["summary"].entries, "failure_count");
    ResolveKeys(e, "metrics", e["metrics"].entries, "consecutive_passes");
    ResolveKey(e, "status");
  }

  /** The artifact's status is PASS exactly when it records at least 100 consecutive passes. */
  lemma NormalizedBurninStatus(raw: PyValue, generatedAt: string, parse: NumberParse)
    ensures var r := NormalizeBurnin(raw, generatedAt, parse);
      Resolve(r, ["status"]) == Some(PStr(Pass))
      <==> exists n :: Resolve(r, ["summary", "consecutive_passes"]) == Some(PInt(n)) && n >= RequiredPasses
  {
    var b := BurninCountsOf(raw, parse);
    BurninArtifactPaths(b, generatedAt);
  }

  /** Reading the counts back out of a burn-in artifact gives the counts it was written from. */
  lemma BurninCountsOfArtifact(b: BurninCounts, generatedAt: string, parse: NumberParse)
    ensures BurninCountsOf(PDict(BurninEntries(b, generatedAt)), parse) == b
  {
    BurninReadBack(b, generatedAt, ConsecutivePaths, "consecutive_passes", PInt(b.consecutive));
    BurninReadBack(b, generatedAt, TotalPaths, "total_runs", PInt(b.total));
    BurninReadBack(b, generatedAt, FailurePaths, "failure_count", PInt(b.failures));
  }

  /** A burn-in count list finds its count in the artifact's summary block. */
  lemma BurninReadBack(b: BurninCounts, generatedAt: string, paths: seq<Path>, key: string, v: PyValue)
    requires |paths| >= 2 && paths[0] == [key] && paths[1] == ["summary", key]
    requires key in BurninSummary(b) && BurninSummary(b)[key] == v && key !in BurninEntries(b, generatedAt)
    ensures DeepGetFirst(PDict(BurninEntries(b, generatedAt)), paths) == v
  {
    var e := BurninEntries(b, generatedAt);
    ResolveKeys(e, "summary", BurninSummary(b), key);
    SecondPathWins(e, paths, v);
  }

  /** The burn-in artifact's status sits under the top-level `status` key. */
  lemma BurninStatusAt(b: BurninCounts, generatedAt: string)
    ensures Resolve(PDict(BurninEntries(b, generatedAt)), ["status"]) == Some(PStr(BurninStatus(b)))
  {
    ResolveKey(BurninEntries(b, generatedAt), "status");
  }

  /** Normalising an already normalised burn-in artifact reads back the same counts. */
  lemma NormalizeBurninStable(raw: PyValue, generatedAt: string, parse: NumberParse)
    ensures BurninCountsOf(NormalizeBurnin(raw, generatedAt, parse), parse) == BurninCountsOf(raw, parse)
  {
    BurninCountsOfArtifact(BurninCountsOf(raw, parse), generatedAt, parse);
  }
}
