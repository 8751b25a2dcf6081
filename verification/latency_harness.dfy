/**
 * The deterministic core of the latency smoke harness: scenario
 * normalisation, threshold-failure summarisation, and the request validation
 * and status selection of `runLatencySmoke`. Sample generation (a seeded
 * floating-point generator) is an input: `samplesOf` gives the integer
 * samples of one scenario and metric.
 */
module LatencyHarness {
  import opened Wrappers
  import opened Text
  import opened JsValues
  import opened Sorting
  import opened LatencyPercentile

  const SetInvalid: string := "LATENCY_SCENARIO_SET_INVALID"

  /** `isRecord`: a non-null, non-array object. */
  predicate IsRecord(v: JsValue) {
    v.Obj?
  }

  /**
   * `Number(v)` when it is finite, else None. Numbers are integers here;
   * how a string spells a number is the `parseNumber` input.
   */
  function NumberOf(v: JsValue, parseNumber: string -> Option<int>): Option<int> {
    match v
    case Undefined => None
    case Null => Some(0)
    case Bool(b) => Some(if b then 1 else 0)
    case Num(n) => Some(n)
    case Str(s) => parseNumber(s)
    case _ => parseNumber(ToJsString(v))
  }

  /** `typeof v === 'string' ? v.trim() : ''`. */
  function TrimmedString(v: JsValue): string {
    if v.Str? then JsTrim(v.s) else ""
  }

  // ---------------------------------------------------------------------------
  // normalizeScenarios
  // ---------------------------------------------------------------------------

  datatype Scenario = Scenario(id: string, workflow: string, queueDepth: int)

  function RawId(v: JsValue): string {
    TrimmedString(OptGet(v, "id"))
  }

  /** The scenario a record normalises to: trimmed id and workflow, depth at least 1 (default 1). */
  function ScenarioOf(v: JsValue, parseNumber: string -> Option<int>): (s: Scenario)
    ensures s.queueDepth >= 1
  {
    var depth := NumberOf(OptGet(v, "queueDepth"), parseNumber).GetOr(1);
    Scenario(RawId(v), TrimmedString(OptGet(v, "workflow")), if depth < 1 then 1 else depth)
  }

  /** Every raw scenario normalised, in input order. */
  function ScenariosOf(items: seq<JsValue>, parseNumber: string -> Option<int>): (r: seq<Scenario>)
    ensures |r| == |items|
    ensures forall j :: 0 <= j < |items| ==> r[j] == ScenarioOf(items[j], parseNumber)
  {
    if |items| == 0 then [] else [ScenarioOf(items[0], parseNumber)] + ScenariosOf(items[1..], parseNumber)
  }

  /** The ids of the first `i` raw scenarios. */
  function PrefixIds(items: seq<JsValue>, i: nat): set<string>
    requires i <= |items|
  {
    set j | 0 <= j < i :: RawId(items[j])
  }

  /** Why one raw scenario is rejected, given the ids already seen; None when it is accepted. */
  function ItemIssue(v: JsValue, seen: set<string>): Option<string> {
    if !IsRecord(v) then Some("scenario_must_be_object")
    else if RawId(v) == "" || TrimmedString(OptGet(v, "workflow")) == "" then Some("scenario_id_and_workflow_required")
    else if RawId(v) in seen then Some("duplicate_scenario_id")
    else None
  }

  /** Every raw scenario before `i` is accepted. */
  predicate AcceptedBefore(items: seq<JsValue>, i: nat)
    requires i <= |items|
  {
    forall j :: 0 <= j < i ==> ItemIssue(items[j], PrefixIds(items, j)).None?
  }

  /** Scenarios ordered by id, strictly (ids are unique). */
  predicate StrictlyById(s: seq<Scenario>) {
    forall i, j :: 0 <= i < j < |s| ==> StringLess(s[i].id, s[j].id)
  }

  /** The fixed total order standing in for `localeCompare` on ids. */
  function IdLe(a: Scenario, b: Scenario): bool {
    !StringLess(b.id, a.id)
  }

  lemma IdLeIsTotalPreorder()
    ensures TotalPreorder(IdLe)
  {
    forall a: Scenario, b: Scenario ensures IdLe(a, b) || IdLe(b, a) {
      StringLessTotal(a.id, b.id);
    }
    forall a: Scenario, b: Scenario, c: Scenario | IdLe(a, b) && IdLe(b, c) ensures IdLe(a, c) {
      StringLessTotal(a.id, b.id);
      StringLessTotal(b.id, c.id);
      StringLessTotal(a.id, c.id);
      if StringLess(c.id, a.id) {
        if a.id == b.id {
        } else if b.id == c.id {
        } else {
          StringLessTransitive(a.id, b.id, c.id);
        }
      }
    }
  }

  predicate DistinctIds(s: seq<Scenario>) {
    forall i, j :: 0 <= i < j < |s| ==> s[i].id != s[j].id
  }

  /** A permutation of scenarios with distinct ids has distinct ids. */
  lemma DistinctIdsPermutation(a: seq<Scenario>, b: seq<Scenario>)
    requires multiset(a) == multiset(b) && DistinctIds(a)
    ensures DistinctIds(b)
  {
    forall i, j | 0 <= i < j < |b| ensures b[i].id != b[j].id {
      if b[i].id == b[j].id {
        assert b[i] in multiset(a) && b[j] in multiset(a);
        var p :| 0 <= p < |a| && a[p] == b[i];
        var q :| 0 <= q < |a| && a[q] == b[j];
        if p == q {
          TwiceInSeq(b, i, j);
          OnceInDistinct(a, p);
        }
      }
    }
  }

  lemma TwiceInSeq(b: seq<Scenario>, i: nat, j: nat)
    requires i < j < |b| && b[i] == b[j]
    ensures multiset(b)[b[i]] >= 2
  {
    assert b == b[..j] + b[j..];
    assert b[i] in multiset(b[..j]);
    assert b[j] in multiset(b[j..]);
  }

  lemma OnceInDistinct(a: seq<Scenario>, p: nat)
    requires p < |a| && DistinctIds(a)
    ensures multiset(a)[a[p]] == 1
  {
    assert a == a[..p] + [a[p]] + a[p + 1..];
    assert forall k :: 0 <= k < p ==> a[..p][k] != a[p];
    assert a[p] !in a[..p];
    var tail := a[p + 1..];
    assert forall k :: 0 <= k < |tail| ==> tail[k] != a[p] by {
      forall k | 0 <= k < |tail| ensures tail[k] != a[p] {
        assert tail[k] == a[p + 1 + k];
      }
    }
    assert a[p] !in tail;
  }

  /** Sorting scenarios with distinct ids orders them strictly by id. */
  function SortScenarios(s: seq<Scenario>): (r: seq<Scenario>)
    requires DistinctIds(s)
    ensures multiset(r) == multiset(s) && |r| == |s|
    ensures StrictlyById(r)
  {
    IdLeIsTotalPreorder();
    var r := SortBy(s, IdLe);
    DistinctIdsPermutation(s, r);
    assert forall i, j :: 0 <= i < j < |r| ==> StringLess(r[i].id, r[j].id) by {
      forall i, j | 0 <= i < j < |r| ensures StringLess(r[i].id, r[j].id) {
        StringLessTotal(r[i].id, r[j].id);
      }
    }
    r
  }

  /**
   * Two scenario lists strictly ordered by id with the same elements are
   * equal, so the order `normalizeScenarios` returns is fully determined.
   */
  lemma {:induction false} StrictlyByIdUnique(a: seq<Scenario>, b: seq<Scenario>)
    requires StrictlyById(a) && StrictlyById(b) && multiset(a) == multiset(b)
    ensures a == b
    decreases |a|
  {
    assert |a| == |multiset(a)| == |multiset(b)| == |b|;
    if |a| > 0 {
      SortedHeadsAgree(a, b);
      SortedTailsAgree(a, b);
      StrictlyByIdUnique(a[1..], b[1..]);
      assert a == [a[0]] + a[1..] && b == [b[0]] + b[1..];
    }
  }

  /** Both lists start with the element of least id. */
  lemma SortedHeadsAgree(a: seq<Scenario>, b: seq<Scenario>)
    requires StrictlyById(a) && StrictlyById(b) && multiset(a) == multiset(b)
    requires |a| > 0 && |b| > 0
    ensures a[0] == b[0]
  {
    assert a[0] in multiset(b) && b[0] in multiset(a);
    var j :| 0 <= j < |b| && b[j] == a[0];
    var k :| 0 <= k < |a| && a[k] == b[0];
    if a[0] != b[0] {
      assert StringLess(b[0].id, a[0].id) && StringLess(a[0].id, b[0].id);
      StringLessTotal(a[0].id, b[0].id);
    }
  }

  /** Dropping equal heads leaves strictly ordered tails with the same elements. */
  lemma SortedTailsAgree(a: seq<Scenario>, b: seq<Scenario>)
    requires StrictlyById(a) && StrictlyById(b) && multiset(a) == multiset(b)
    requires |a| > 0 && |b| > 0 && a[0] == b[0]
    ensures StrictlyById(a[1..]) && StrictlyById(b[1..]) && multiset(a[1..]) == multiset(b[1..])
  {
    assert a == [a[0]] + a[1..] && b == [b[0]] + b[1..];
    assert multiset(a[1..]) == multiset(a) - multiset{a[0]};
    assert multiset(b[1..]) == multiset(b) - multiset{a[0]};
    StrictlyByIdTail(a);
    StrictlyByIdTail(b);
  }

  lemma StrictlyByIdTail(a: seq<Scenario>)
    requires StrictlyById(a) && |a| > 0
    ensures StrictlyById(a[1..])
  {
    forall i, j | 0 <= i < j < |a| - 1 ensures StringLess(a[1..][i].id, a[1..][j].id) {
      assert a[1..][i] == a[i + 1] && a[1..][j] == a[j + 1];
    }
  }

  lemma PrefixIdsStep(items: seq<JsValue>, i: nat)
    requires i < |items|
    ensures PrefixIds(items, i + 1) == PrefixIds(items, i) + {RawId(items[i])}
  {
  }

  /** A rejected scenario at `i` means the whole list is not accepted. */
  lemma FirstIssue(items: seq<JsValue>, i: nat)
    requires i < |items| && ItemIssue(items[i], PrefixIds(items, i)).Some?
    ensures !AcceptedBefore(items, |items|)
  {
  }

  lemma AcceptedStep(items: seq<JsValue>, i: nat)
    requires i < |items| && AcceptedBefore(items, i) && ItemIssue(items[i], PrefixIds(items, i)).None?
    ensures AcceptedBefore(items, i + 1)
    ensures PrefixIds(items, i + 1) == PrefixIds(items, i) + {RawId(items[i])}
  {
    PrefixIdsStep(items, i);
  }

  /** Accepted scenarios have pairwise different ids. */
  lemma AcceptedAreDistinct(items: seq<JsValue>, parseNumber: string -> Option<int>)
    requires AcceptedBefore(items, |items|)
    ensures DistinctIds(ScenariosOf(items, parseNumber))
  {
    var r := ScenariosOf(items, parseNumber);
    forall i, j | 0 <= i < j < |r| ensures r[i].id != r[j].id {
      assert ItemIssue(items[j], PrefixIds(items, j)).None?;
      assert RawId(items[i]) in PrefixIds(items, j);
    }
  }

  /** The per-scenario loop: stop at the first rejected scenario, else every scenario normalised, in input order. */
  method AcceptAll(items: seq<JsValue>, parseNumber: string -> Option<int>) returns (r: Result<seq<Scenario>, string>)
    ensures r.Ok? <==> AcceptedBefore(items, |items|)
    ensures r.Err? ==>
              exists i :: 0 <= i < |items| && AcceptedBefore(items, i)
                          && ItemIssue(items[i], PrefixIds(items, i)) == Some(r.error)
    ensures r.Ok? ==> DistinctIds(r.value) && r.value == ScenariosOf(items, parseNumber)
  {
    var seen: set<string> := {};
    var i := 0;
    while i < |items|
      invariant 0 <= i <= |items|
      invariant seen == PrefixIds(items, i)
      invariant AcceptedBefore(items, i)
    {
      var issue := ItemIssue(items[i], seen);
      if issue.Some? {
        FirstIssue(items, i);
        return Err(issue.value);
      }
      AcceptedStep(items, i);
      seen := seen + {RawId(items[i])};
      i := i + 1;
    }
    AcceptedAreDistinct(items, parseNumber);
    r := Ok(ScenariosOf(items, parseNumber));
  }

  /**
   * `normalizeScenarios`: a non-empty array is required; the first rejected
   * scenario decides the error; otherwise the normalised scenarios sorted by id.
   */
  method NormalizeScenarios(raw: JsValue, parseNumber: string -> Option<int>) returns (r: Result<seq<Scenario>, string>)
    ensures !(raw.Arr? && |raw.items| > 0) ==> r == Err("scenarios_required")
    ensures raw.Arr? && |raw.items| > 0 ==> (r.Ok? <==> AcceptedBefore(raw.items, |raw.items|))
    ensures raw.Arr? && r.Err? && |raw.items| > 0 ==>
              exists i :: 0 <= i < |raw.items| && AcceptedBefore(raw.items, i)
                          && ItemIssue(raw.items[i], PrefixIds(raw.items, i)) == Some(r.error)
    ensures r.Ok? ==>
              && |r.value| == |raw.items|
              && StrictlyById(r.value)
              && multiset(r.value) == multiset(ScenariosOf(raw.items, parseNumber))
  {
    if !raw.Arr? || |raw.items| == 0 {
      return Err("scenarios_required");
    }
    var accepted := AcceptAll(raw.items, parseNumber);
    if accepted.Err? {
      return Err(accepted.error);
    }
    r := Ok(SortScenarios(accepted.value));
  }

  // ---------------------------------------------------------------------------
  // summarizeFailures
  // ---------------------------------------------------------------------------

  datatype Percentiles = Percentiles(p50: int, p95: int, p99: int)

  /** `calculatePercentiles`. */
  function PercentilesOf(samples: seq<int>): (r: Percentiles)
    ensures r.p50 <= r.p95 <= r.p99
  {
    PercentilesOrdered(Some(samples));
    Percentiles(Percentile(Some(samples), 50), Percentile(Some(samples), 95), Percentile(Some(samples), 99))
  }

  datatype ScenarioMetrics = ScenarioMetrics(
    scenarioId: string, workflow: string, queueDepth: int,
    highlight: Percentiles, queueAdvance: Percentiles)

  datatype Metric = HighlightLatency | QueueAdvanceLatency

  function MetricName(m: Metric): string {
    match m
    case HighlightLatency => "highlight_latency_ms"
    case QueueAdvanceLatency => "queue_advance_latency_ms"
  }

  datatype Failure = Failure(scenario: string, metric: Metric, observedPercentile: string,
                             observedMs: int, thresholdMs: int)

  /** The two failure records one scenario could produce, highlight first. */
  function Candidates(m: ScenarioMetrics, highlightThreshold: int, queueThreshold: int): seq<Failure> {
    [Failure(m.scenarioId, HighlightLatency, "p95", m.highlight.p95, highlightThreshold),
     Failure(m.scenarioId, QueueAdvanceLatency, "p95", m.queueAdvance.p95, queueThreshold)]
  }

  /** `summarizeFailures`: per scenario, in order, each p95 strictly above its threshold. */
  function SummarizeFailures(metrics: seq<ScenarioMetrics>, highlightThreshold: int, queueThreshold: int): (r: seq<Failure>)
    ensures |r| <= 2 * |metrics|
    ensures forall k :: 0 <= k < |r| ==> r[k].observedPercentile == "p95" && r[k].observedMs > r[k].thresholdMs
    ensures forall k :: 0 <= k < |r| ==>
              r[k].thresholdMs == (if r[k].metric == HighlightLatency then highlightThreshold else queueThreshold)
  {
    if |metrics| == 0 then []
    else
      ScenarioFailures(metrics[0], highlightThreshold, queueThreshold)
      + SummarizeFailures(metrics[1..], highlightThreshold, queueThreshold)
  }

  /** The failures one scenario contributes: its highlight p95, then its queue-advance p95, when over threshold. */
  function ScenarioFailures(m: ScenarioMetrics, highlightThreshold: int, queueThreshold: int): (r: seq<Failure>)
    ensures |r| <= 2
    ensures forall k :: 0 <= k < |r| ==> r[k].observedPercentile == "p95" && r[k].observedMs > r[k].thresholdMs
    ensures forall k :: 0 <= k < |r| ==>
              r[k].thresholdMs == (if r[k].metric == HighlightLatency then highlightThreshold else queueThreshold)
  {
    (if m.highlight.p95 > highlightThreshold
     then [Failure(m.scenarioId, HighlightLatency, "p95", m.highlight.p95, highlightThreshold)] else [])
    + (if m.queueAdvance.p95 > queueThreshold
       then [Failure(m.scenarioId, QueueAdvanceLatency, "p95", m.queueAdvance.p95, queueThreshold)] else [])
  }

  /** The records whose observed value is strictly above their threshold, in order. */
  function Exceeding(fs: seq<Failure>): (r: seq<Failure>) {
    if |fs| == 0 then []
    else KeepIfOver(fs[0]) + Exceeding(fs[1..])
  }

  function KeepIfOver(f: Failure): seq<Failure> {
    if f.observedMs > f.thresholdMs then [f] else []
  }

  function AllCandidates(metrics: seq<ScenarioMetrics>, highlightThreshold: int, queueThreshold: int): seq<Failure> {
    if |metrics| == 0 then []
    else Candidates(metrics[0], highlightThreshold, queueThreshold) + AllCandidates(metrics[1..], highlightThreshold, queueThreshold)
  }

  lemma {:induction false} ExceedingAppend(a: seq<Failure>, b: seq<Failure>)
    ensures Exceeding(a + b) == Exceeding(a) + Exceeding(b)
    decreases |a|
  {
    if |a| == 0 {
      assert a + b == b;
    } else {
      ExceedingAppend(a[1..], b);
      ExceedingAppendStep(a, b);
    }
  }

  /** The step of `ExceedingAppend`: filtering the first element commutes with appending `b`. */
  lemma ExceedingAppendStep(a: seq<Failure>, b: seq<Failure>)
    requires |a| > 0
    requires Exceeding(a[1..] + b) == Exceeding(a[1..]) + Exceeding(b)
    ensures Exceeding(a + b) == Exceeding(a) + Exceeding(b)
  {
    ExceedingOfCons(a, b);
    ConcatAssoc(KeepIfOver(a[0]), Exceeding(a[1..]), Exceeding(b));
  }

  lemma ExceedingOfCons(a: seq<Failure>, b: seq<Failure>)
    requires |a| > 0
    ensures Exceeding(a + b) == KeepIfOver(a[0]) + Exceeding(a[1..] + b)
  {
    assert (a + b)[0] == a[0];
    assert (a + b)[1..] == a[1..] + b;
  }

  lemma ConcatAssoc(x: seq<Failure>, y: seq<Failure>, z: seq<Failure>)
    ensures x + (y + z) == (x + y) + z
  {
  }

  /** One scenario's failures are its candidates that exceed their thresholds. */
  lemma ScenarioCandidates(m: ScenarioMetrics, highlightThreshold: int, queueThreshold: int)
    ensures ScenarioFailures(m, highlightThreshold, queueThreshold) == Exceeding(Candidates(m, highlightThreshold, queueThreshold))
  {
    var c := Candidates(m, highlightThreshold, queueThreshold);
    assert c[1..][1..] == [];
    assert Exceeding(c[1..]) == KeepIfOver(c[1]);
  }

  /**
   * The failures are exactly the candidate records (two per scenario, in
   * scenario order, highlight first) whose observed value is strictly above
   * the threshold.
   */
  lemma {:induction false} FailuresAreExceedingCandidates(metrics: seq<ScenarioMetrics>, highlightThreshold: int, queueThreshold: int)
    ensures SummarizeFailures(metrics, highlightThreshold, queueThreshold)
         == Exceeding(AllCandidates(metrics, highlightThreshold, queueThreshold))
  {
    if |metrics| > 0 {
      FailuresAreExceedingCandidates(metrics[1..], highlightThreshold, queueThreshold);
      ScenarioCandidates(metrics[0], highlightThreshold, queueThreshold);
      ExceedingAppend(Candidates(metrics[0], highlightThreshold, queueThreshold),
                      AllCandidates(metrics[1..], highlightThreshold, queueThreshold));
    }
  }

  /** `threshold_evaluation`: a metric is within budget iff no failure names it. */
  function WithinBudget(failures: seq<Failure>, metric: Metric): bool {
    forall k :: 0 <= k < |failures| ==> failures[k].metric != metric
  }

  lemma WithinBudgetAppend(a: seq<Failure>, b: seq<Failure>, metric: Metric)
    ensures WithinBudget(a + b, metric) <==> WithinBudget(a, metric) && WithinBudget(b, metric)
  {
    assert forall k :: 0 <= k < |a| ==> (a + b)[k] == a[k];
    assert forall k :: 0 <= k < |b| ==> (a + b)[|a| + k] == b[k];
    if WithinBudget(a, metric) && WithinBudget(b, metric) {
      forall k | 0 <= k < |a + b| ensures (a + b)[k].metric != metric {
        if k >= |a| { assert (a + b)[k] == b[k - |a|]; }
      }
    }
  }

  /** The failures naming a metric are those of scenarios whose p95 for it is over its threshold. */
  predicate OverBudget(m: ScenarioMetrics, metric: Metric, highlightThreshold: int, queueThreshold: int) {
    if metric == HighlightLatency then m.highlight.p95 > highlightThreshold else m.queueAdvance.p95 > queueThreshold
  }

  lemma ScenarioWithinBudget(m: ScenarioMetrics, highlightThreshold: int, queueThreshold: int, metric: Metric)
    ensures WithinBudget(ScenarioFailures(m, highlightThreshold, queueThreshold), metric)
        <==> !OverBudget(m, metric, highlightThreshold, queueThreshold)
  {
    var h := if m.highlight.p95 > highlightThreshold
             then [Failure(m.scenarioId, HighlightLatency, "p95", m.highlight.p95, highlightThreshold)] else [];
    var q := if m.queueAdvance.p95 > queueThreshold
             then [Failure(m.scenarioId, QueueAdvanceLatency, "p95", m.queueAdvance.p95, queueThreshold)] else [];
    WithinBudgetAppend(h, q, metric);
    assert WithinBudget(h, metric) <==> !(metric == HighlightLatency && m.highlight.p95 > highlightThreshold) by {
      if |h| > 0 { assert h[0].metric == HighlightLatency; }
    }
    assert WithinBudget(q, metric) <==> !(metric == QueueAdvanceLatency && m.queueAdvance.p95 > queueThreshold) by {
      if |q| > 0 { assert q[0].metric == QueueAdvanceLatency; }
    }
    assert ScenarioFailures(m, highlightThreshold, queueThreshold) == h + q;
  }

  /** A metric is within budget iff no scenario's p95 for it is over its threshold. */
  lemma {:induction false} WithinBudgetIffAllUnderThreshold(metrics: seq<ScenarioMetrics>, highlightThreshold: int,
                                                            queueThreshold: int, metric: Metric)
    ensures WithinBudget(SummarizeFailures(metrics, highlightThreshold, queueThreshold), metric)
        <==> forall i :: 0 <= i < |metrics| ==> !OverBudget(metrics[i], metric, highlightThreshold, queueThreshold)
  {
    if |metrics| > 0 {
      WithinBudgetIffAllUnderThreshold(metrics[1..], highlightThreshold, queueThreshold, metric);
      WithinBudgetAppend(ScenarioFailures(metrics[0], highlightThreshold, queueThreshold),
                         SummarizeFailures(metrics[1..], highlightThreshold, queueThreshold), metric);
      ScenarioWithinBudget(metrics[0], highlightThreshold, queueThreshold, metric);
      assert forall i :: 1 <= i < |metrics| ==> metrics[i] == metrics[1..][i - 1];
    }
  }

  // ---------------------------------------------------------------------------
  // runLatencySmoke
  // ---------------------------------------------------------------------------

  const DefaultHighlightThreshold: int := 100
  const DefaultQueueThreshold: int := 150

  /** The `metrics` of a response: percentiles over every scenario's samples together. */
  datatype OverallMetrics = OverallMetrics(highlight: Percentiles, queueAdvance: Percentiles)

  datatype ThresholdEvaluation = ThresholdEvaluation(highlightWithinBudget: bool, queueAdvanceWithinBudget: bool)

  datatype SmokeBody =
    | Invalid(code: string, reason: string, mutationApplied: bool)
    | Exceeded(success: bool, overall: OverallMetrics, evaluation: ThresholdEvaluation, failures: seq<Failure>,
               errorCode: string, exitCode: int)
    | Passed(overall: OverallMetrics, evaluation: ThresholdEvaluation)

  datatype SmokeResponse = SmokeResponse(statusCode: int, body: SmokeBody)

  function Reject(reason: string): SmokeResponse {
    SmokeResponse(400, Invalid(SetInvalid, reason, false))
  }

  /** A threshold from the request when it is a finite number, else the default. */
  function ThresholdOf(thresholds: JsValue, key: string, fallback: int, parseNumber: string -> Option<int>): int {
    NumberOf(OptGet(if IsRecord(thresholds) then thresholds else Obj(map[]), key), parseNumber).GetOr(fallback)
  }

  function MetricsOf(seed: string, s: Scenario, samplesOf: (string, Scenario, Metric) -> seq<int>): ScenarioMetrics {
    ScenarioMetrics(s.id, s.workflow, s.queueDepth,
                    PercentilesOf(samplesOf(seed, s, HighlightLatency)),
                    PercentilesOf(samplesOf(seed, s, QueueAdvanceLatency)))
  }

  /** One metric's samples of every scenario, concatenated in scenario order. */
  function AllSamples(seed: string, scenarios: seq<Scenario>, metric: Metric,
                      samplesOf: (string, Scenario, Metric) -> seq<int>): seq<int> {
    if |scenarios| == 0 then []
    else samplesOf(seed, scenarios[0], metric) + AllSamples(seed, scenarios[1..], metric, samplesOf)
  }

  /** The response for scenarios that passed validation. */
  function Evaluate(seed: string, scenarios: seq<Scenario>, highlightThreshold: int, queueThreshold: int,
                    samplesOf: (string, Scenario, Metric) -> seq<int>): (r: SmokeResponse)
    ensures r.statusCode in {200, 422}
  {
    var metrics := seq(|scenarios|, i requires 0 <= i < |scenarios| => MetricsOf(seed, scenarios[i], samplesOf));
    var failures := SummarizeFailures(metrics, highlightThreshold, queueThreshold);
    var overall := OverallMetrics(PercentilesOf(AllSamples(seed, scenarios, HighlightLatency, samplesOf)),
                                  PercentilesOf(AllSamples(seed, scenarios, QueueAdvanceLatency, samplesOf)));
    var evaluation := ThresholdEvaluation(WithinBudget(failures, HighlightLatency), WithinBudget(failures, QueueAdvanceLatency));
    if |failures| != 0 then SmokeResponse(422, Exceeded(false, overall, evaluation, failures, "LATENCY_THRESHOLD_EXCEEDED", 1))
    else SmokeResponse(200, Passed(overall, evaluation))
  }

  /**
   * `runLatencySmoke`, without the artifact write: the request checks in
   * order, then the per-scenario percentiles, the failures and the status.
   */
  method RunLatencySmoke(input: JsValue, parseNumber: string -> Option<int>,
                         samplesOf: (string, Scenario, Metric) -> seq<int>) returns (r: SmokeResponse)
    ensures !IsRecord(input) ==> r == Reject("payload_must_be_object")
    ensures IsRecord(input) && OptGet(input, "allow_random_order") == Bool(true) ==>
              r == Reject("non_deterministic_ordering_disallowed")
    ensures (IsRecord(input) && OptGet(input, "allow_random_order") != Bool(true)
             && TrimmedString(OptGet(input, "scenario_seed")) == "") ==> r == Reject("scenario_seed_required")
    ensures r.statusCode in {200, 400, 422}
    ensures r.statusCode == 400 ==> r.body.Invalid? && r.body.code == SetInvalid && !r.body.mutationApplied
    ensures r.statusCode == 422 <==> r.body.Exceeded?
    ensures r.body.Exceeded? ==> |r.body.failures| > 0 && r.body.exitCode == 1
                                 && r.body.errorCode == "LATENCY_THRESHOLD_EXCEEDED" && !r.body.success
    ensures var raw := OptGet(input, "scenarios");
            (IsRecord(input) && OptGet(input, "allow_random_order") != Bool(true)
             && TrimmedString(OptGet(input, "scenario_seed")) != "" && !(raw.Arr? && |raw.items| > 0))
              ==> r == Reject("scenarios_required")
    ensures var raw := OptGet(input, "scenarios");
            (IsRecord(input) && OptGet(input, "allow_random_order") != Bool(true)
             && TrimmedString(OptGet(input, "scenario_seed")) != "" && raw.Arr? && |raw.items| > 0
             && !AcceptedBefore(raw.items, |raw.items|))
              ==> r.body.Invalid? && r == Reject(r.body.reason)
                  && exists i :: 0 <= i < |raw.items| && AcceptedBefore(raw.items, i)
                                 && ItemIssue(raw.items[i], PrefixIds(raw.items, i)) == Some(r.body.reason)
    ensures r.statusCode != 400 ==>
              && IsRecord(input) && OptGet(input, "allow_random_order") != Bool(true)
              && TrimmedString(OptGet(input, "scenario_seed")) != ""
              && OptGet(input, "scenarios").Arr? && |OptGet(input, "scenarios").items| > 0
              && AcceptedBefore(OptGet(input, "scenarios").items, |OptGet(input, "scenarios").items|)
    ensures r.statusCode != 400 ==>
              var thresholds := OptGet(input, "thresholds");
              exists s :: && StrictlyById(s)
                          && multiset(s) == multiset(ScenariosOf(OptGet(input, "scenarios").items, parseNumber))
                          && r == Evaluate(TrimmedString(OptGet(input, "scenario_seed")), s,
                                           ThresholdOf(thresholds, "highlight_ms_max", DefaultHighlightThreshold, parseNumber),
                                           ThresholdOf(thresholds, "queue_advance_ms_max", DefaultQueueThreshold, parseNumber),
                                           samplesOf)
  {
    if !IsRecord(input) {
      return Reject("payload_must_be_object");
    }
    if OptGet(input, "allow_random_order") == Bool(true) {
      return Reject("non_deterministic_ordering_disallowed");
    }
    var seed := TrimmedString(OptGet(input, "scenario_seed"));
    if |seed| == 0 {
      return Reject("scenario_seed_required");
    }
    var normalized := NormalizeScenarios(OptGet(input, "scenarios"), parseNumber);
    if normalized.Err? {
      return Reject(normalized.error);
    }
    var thresholds := OptGet(input, "thresholds");
    var highlightThreshold := ThresholdOf(thresholds, "highlight_ms_max", DefaultHighlightThreshold, parseNumber);
    var queueThreshold := ThresholdOf(thresholds, "queue_advance_ms_max", DefaultQueueThreshold, parseNumber);
    r := Evaluate(seed, normalized.value, highlightThreshold, queueThreshold, samplesOf);
  }

  /** Without a thresholds object the budgets are 100 ms and 150 ms. */
  lemma DefaultThresholds(input: JsValue, parseNumber: string -> Option<int>)
    requires !IsRecord(OptGet(input, "thresholds"))
    ensures ThresholdOf(OptGet(input, "thresholds"), "highlight_ms_max", DefaultHighlightThreshold, parseNumber) == 100
    ensures ThresholdOf(OptGet(input, "thresholds"), "queue_advance_ms_max", DefaultQueueThreshold, parseNumber) == 150
  {
  }

  /** The status is 422 exactly when some scenario's p95 is over a budget; each flag reports its own metric. */
  lemma EvaluateStatus(seed: string, scenarios: seq<Scenario>, highlightThreshold: int, queueThreshold: int,
                       samplesOf: (string, Scenario, Metric) -> seq<int>)
    ensures var r := Evaluate(seed, scenarios, highlightThreshold, queueThreshold, samplesOf);
            var metrics := seq(|scenarios|, i requires 0 <= i < |scenarios| => MetricsOf(seed, scenarios[i], samplesOf));
            var over := exists i :: 0 <= i < |metrics| &&
                          (metrics[i].highlight.p95 > highlightThreshold || metrics[i].queueAdvance.p95 > queueThreshold);
            && (r.statusCode == 422 <==> over)
            && (r.body.Passed? ==> r.body.evaluation == ThresholdEvaluation(true, true))
  {
    var metrics := seq(|scenarios|, i requires 0 <= i < |scenarios| => MetricsOf(seed, scenarios[i], samplesOf));
    var failures := SummarizeFailures(metrics, highlightThreshold, queueThreshold);
    WithinBudgetIffAllUnderThreshold(metrics, highlightThreshold, queueThreshold, HighlightLatency);
    WithinBudgetIffAllUnderThreshold(metrics, highlightThreshold, queueThreshold, QueueAdvanceLatency);
    if |failures| == 0 {
      assert WithinBudget(failures, HighlightLatency) && WithinBudget(failures, QueueAdvanceLatency);
    } else {
      assert !WithinBudget(failures, failures[0].metric);
    }
  }
}
