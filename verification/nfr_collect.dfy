/**
 * The NFR raw collector's counting: bucketing a finding's severity into
 * critical/high/medium/low/info, and tallying the findings of a bandit
 * report and of a pip-audit report, both already parsed from JSON. Running
 * the tools, the burn-in and the backup drill are not modelled.
 */
module NfrCollect {
  import opened Wrappers
  import opened PyValues
  import Text

  datatype Severity = Critical | High | Medium | Low | Info {
    /** The key the severity is counted under. */
    function Name(): string {
      match this
      case Critical => "critical"
      case High => "high"
      case Medium => "medium"
      case Low => "low"
      case Info => "info"
    }
  }

  // ---------------------------------------------------------------------------
  // severity_bucket
  // ---------------------------------------------------------------------------

  /**
   * `str(v)` for the values whose text can name a bucket. The text of a
   * float always holds a `.`, an exponent or `inf`/`nan`, and that of a
   * list or dict starts with a bracket, so none of them can ever strip and
   * lower-case to a bucket word; they are `None` here.
   */
  function Rendered(v: PyValue): Option<string> {
    match v
    case PNone => Some("None")
    case PBool(b) => Some(if b then "True" else "False")
    case PInt(n) => Some(Text.Decimal(n))
    case PStr(s) => Some(s)
    case _ => None
  }

  /** `.strip().lower()`, lower-casing modelled on the ASCII range. */
  function Normalize(s: string): string {
    Text.ToLowerAscii(Text.PyStrip(s))
  }

  /** The bucket a normalised severity text names. */
  function BucketOfText(t: string): Severity {
    if t in {"critical", "crit", "5"} then Critical
    else if t in {"high", "4"} then High
    else if t in {"medium", "med", "moderate", "3"} then Medium
    else if t in {"low", "2"} then Low
    else Info
  }

  /** `severity_bucket(value)`: `str(value or "").strip().lower()` looked up among the bucket words. */
  function SeverityBucket(value: PyValue): (r: Severity)
    ensures !Truthy(value) ==> r == Info
  {
    if !Truthy(value) then Info
    else match Rendered(value)
      case Some(text) => BucketOfText(Normalize(text))
      case None => Info
  }

  /** Text that strips to nothing normalises to the empty text, which names no bucket. */
  lemma BlankIsInfo(s: string)
    requires Text.PyStrip(s) == ""
    ensures Normalize(s) == "" && BucketOfText(Normalize(s)) == Info
  {
    assert Normalize(s) == "";
    assert BucketOfText("") == Info;
  }

  /** A string severity lands in the bucket its stripped, lower-cased text names; a blank one is info. */
  lemma StringSeverity(s: string)
    ensures SeverityBucket(PStr(s)) == BucketOfText(Normalize(s))
    ensures Text.PyStrip(s) == "" ==> SeverityBucket(PStr(s)) == Info
  {
    if |s| > 0 {
      assert Truthy(PStr(s));
      assert Rendered(PStr(s)) == Some(s);
    } else {
      assert Text.PyStrip(s) == "";
    }
    if Text.PyStrip(s) == "" {
      BlankIsInfo(s);
    }
  }

  lemma LowerKeepsPyWhitespace(c: char)
    ensures Text.IsPyWhitespace(Text.LowerChar(c)) == Text.IsPyWhitespace(c)
  {
  }

  /** Lower-casing keeps a string unpadded. */
  lemma LowerKeepsUnpadded(t: string)
    requires Text.Unpadded(t, Text.IsPyWhitespace)
    ensures Text.Unpadded(Text.ToLowerAscii(t), Text.IsPyWhitespace)
  {
    if |t| > 0 {
      LowerKeepsPyWhitespace(t[0]);
      LowerKeepsPyWhitespace(t[|t| - 1]);
    }
  }

  /** Lower-casing twice is lower-casing once. */
  lemma LowerIdempotent(t: string)
    ensures Text.ToLowerAscii(Text.ToLowerAscii(t)) == Text.ToLowerAscii(t)
  {
    var l := Text.ToLowerAscii(t);
    forall i | 0 <= i < |l| ensures Text.LowerChar(l[i]) == l[i] {
      Text.LowerCharIdempotent(t[i]);
    }
  }

  /** Normalising twice is normalising once. */
  lemma NormalizeIdempotent(s: string)
    ensures Normalize(Normalize(s)) == Normalize(s)
  {
    var t := Text.PyStrip(s);
    var l := Text.ToLowerAscii(t);
    Text.TrimIdempotent(s, Text.IsPyWhitespace);
    Text.UnpaddedIff(t, Text.IsPyWhitespace);
    LowerKeepsUnpadded(t);
    Text.UnpaddedIff(l, Text.IsPyWhitespace);
    assert Text.PyStrip(l) == l;
    LowerIdempotent(t);
  }

  /** A severity string lands where its stripped, lower-cased form lands: case and padding do not matter. */
  lemma BucketIgnoresCaseAndPadding(s: string)
    ensures SeverityBucket(PStr(s)) == SeverityBucket(PStr(Normalize(s)))
  {
    NormalizeIdempotent(s);
    StringSeverity(s);
    StringSeverity(Normalize(s));
  }

  /** The decimal text of an integer holds only digits and a minus sign. */
  lemma {:induction false} NatDigitsAreDigits(n: nat)
    ensures forall i :: 0 <= i < |Text.NatDigits(n)| ==> '0' <= Text.NatDigits(n)[i] <= '9'
  {
    if n >= 10 {
      NatDigitsAreDigits(n / 10);
    }
  }

  /** The decimal text of an integer: at least one character, all digits or minus signs. */
  lemma DecimalChars(n: int)
    ensures |Text.Decimal(n)| >= 1
    ensures forall i :: 0 <= i < |Text.Decimal(n)| ==> Text.Decimal(n)[i] == '-' || '0' <= Text.Decimal(n)[i] <= '9'
  {
    if n < 0 {
      NatDigitsAreDigits(-n);
      var ds := Text.NatDigits(-n);
      assert Text.Decimal(n) == "-" + ds;
      assert forall i :: 1 <= i < |ds| + 1 ==> ("-" + ds)[i] == ds[i - 1];
    } else {
      NatDigitsAreDigits(n);
    }
  }

  /** Text of digits and minus signs is already stripped and lower-case. */
  lemma NumericNormalized(t: string)
    requires |t| >= 1 && forall i :: 0 <= i < |t| ==> t[i] == '-' || '0' <= t[i] <= '9'
    ensures Normalize(t) == t
  {
    Text.TrimOfSolid(t, Text.IsPyWhitespace);
    var l := Text.ToLowerAscii(t);
    assert forall i :: 0 <= i < |t| ==> l[i] == t[i];
  }

  /** Text made of digits and minus signs names no bucket unless it is one digit. */
  lemma NumericTextBucket(t: string)
    requires |t| != 1 && forall i :: 0 <= i < |t| ==> t[i] == '-' || '0' <= t[i] <= '9'
    ensures BucketOfText(t) == Info
  {
    if |t| > 0 {
      assert t[0] !in {'c', 'h', 'm', 'l'};
    }
  }

  /** The bucket named by a number's decimal text: the digits 5, 4, 3 and 2 name a bucket, nothing else does. */
  function DigitBucket(n: int): Severity {
    if n == 5 then Critical else if n == 4 then High else if n == 3 then Medium else if n == 2 then Low else Info
  }

  /** A one-digit number names the bucket of its digit. */
  lemma SingleDigitBucket(n: int)
    requires 1 <= n < 10
    ensures BucketOfText(Text.Decimal(n)) == DigitBucket(n)
  {
    var d := Text.Decimal(n);
    assert d == [Text.DigitChar(n)];
    assert |d| == 1;
    if n == 2 { assert d == "2"; }
    else if n == 3 { assert d == "3"; }
    else if n == 4 { assert d == "4"; }
    else if n == 5 { assert d == "5"; }
    else { assert d[0] !in {'2', '3', '4', '5'}; }
  }

  /** Integer severities: 5, 4, 3 and 2 are critical, high, medium and low; every other integer is info. */
  lemma IntegerSeverity(n: int)
    ensures SeverityBucket(PInt(n)) == DigitBucket(n)
  {
    if n == 0 {
      assert !Truthy(PInt(n));
    } else {
      var d := Text.Decimal(n);
      assert Truthy(PInt(n));
      assert Rendered(PInt(n)) == Some(d);
      DecimalChars(n);
      NumericNormalized(d);
      assert SeverityBucket(PInt(n)) == BucketOfText(d);
      if 0 < n < 10 {
        SingleDigitBucket(n);
      } else {
        assert |d| >= 2 by {
          if n < 0 {
            assert d == "-" + Text.NatDigits(-n);
          }
        }
        NumericTextBucket(d);
      }
    }
  }

  lemma TrueStripped()
    ensures Text.PyStrip("True") == "True"
  {
    Text.TrimOfSolid("True", Text.IsPyWhitespace);
  }

  lemma TrueLowered()
    ensures Text.ToLowerAscii("True") == "true"
  {
    var l := Text.ToLowerAscii("True");
    assert l[0] == 't' && l[1] == 'r' && l[2] == 'u' && l[3] == 'e';
  }

  /** Python's `str(True)`, stripped and lower-cased. */
  lemma TrueText()
    ensures Normalize("True") == "true"
  {
    TrueStripped();
    TrueLowered();
  }

  /** A boolean never names a bucket: `True` is "true" after lower-casing, and `False` is falsy. */
  lemma BooleanSeverity(b: bool)
    ensures SeverityBucket(PBool(b)) == Info
  {
    if b {
      assert Truthy(PBool(b));
      assert Rendered(PBool(b)) == Some("True");
      TrueText();
      assert BucketOfText("true") == Info;
    } else {
      assert !Truthy(PBool(b));
    }
  }

  // ---------------------------------------------------------------------------
  // Counting
  // ---------------------------------------------------------------------------

  /** The five counters; the collector's dicts always hold exactly these keys. */
  datatype Counts = Counts(critical: nat, high: nat, medium: nat, low: nat, info: nat) {
    function Of(s: Severity): nat {
      match s
      case Critical => critical
      case High => high
      case Medium => medium
      case Low => low
      case Info => info
    }

    function Bump(s: Severity): (r: Counts)
      ensures forall k :: r.Of(k) == Of(k) + (if k == s then 1 else 0)
      ensures r.Total() == Total() + 1
    {
      match s
      case Critical => this.(critical := critical + 1)
      case High => this.(high := high + 1)
      case Medium => this.(medium := medium + 1)
      case Low => this.(low := low + 1)
      case Info => this.(info := info + 1)
    }

    function Total(): nat {
      critical + high + medium + low + info
    }
  }

  const Zero := Counts(0, 0, 0, 0, 0)

  /** The counters after one `counts[key] += 1` per severity. */
  function Tally(sevs: seq<Severity>): (r: Counts)
    ensures r.Total() == |sevs|
  {
    if |sevs| == 0 then Zero else Tally(sevs[..|sevs| - 1]).Bump(sevs[|sevs| - 1])
  }

  /** Each counter holds the number of occurrences of its severity. */
  lemma {:induction false} TallyCounts(sevs: seq<Severity>, k: Severity)
    ensures Tally(sevs).Of(k) == multiset(sevs)[k]
  {
    if |sevs| > 0 {
      var last := sevs[|sevs| - 1];
      assert sevs == sevs[..|sevs| - 1] + [last];
      TallyCounts(sevs[..|sevs| - 1], k);
    }
  }

  /** The exceptions a loop over a parsed report can raise. */
  datatype PyError =
    | AttributeError  // `.get` on something that is not a dict
    | TypeError       // iterating something that is not iterable

  /**
   * `for x in container:` where every `x` then has `.get` called on it.
   * Iterating a string or a dict yields strings, on which `.get` fails at
   * the first element, so only their emptiness matters; `None`, booleans
   * and numbers cannot be iterated at all.
   */
  function Members(container: PyValue): (r: Result<seq<PyValue>, PyError>)
    ensures container.PList? ==> r == Ok(container.items)
  {
    match container
    case PList(items) => Ok(items)
    case PStr(s) => if |s| == 0 then Ok([]) else Err(AttributeError)
    case PDict(entries) => if |entries| == 0 then Ok([]) else Err(AttributeError)
    case _ => Err(TypeError)
  }

  // ---------------------------------------------------------------------------
  // parse_bandit
  // ---------------------------------------------------------------------------

  /** The bucket of one bandit result's `issue_severity`; a result without one is info. */
  function IssueSeverity(result: map<string, PyValue>): (r: Severity)
    ensures "issue_severity" !in result ==> r == Info
  {
    SeverityBucket(Get(result, "issue_severity"))
  }

  /** The bucket of each result's `issue_severity`, failing at the first result that is not a dict. */
  function BanditSeverities(results: seq<PyValue>): (r: Result<seq<Severity>, PyError>)
    ensures r.Ok? <==> forall i :: 0 <= i < |results| ==> results[i].PDict?
    ensures r.Ok? ==> |r.value| == |results|
    ensures r.Ok? ==> (forall i :: 0 <= i < |results| ==>
                         r.value[i] == IssueSeverity(results[i].entries))
  {
    if |results| == 0 then Ok([])
    else if !results[0].PDict? then Err(AttributeError)
    else
      match BanditSeverities(results[1..])
      case Err(e) => Err(e)
      case Ok(rest) =>
        assert forall i :: 1 <= i < |results| ==> results[1..][i - 1] == results[i];
        Ok([IssueSeverity(results[0].entries)] + rest)
  }

  /** The results list of a bandit report: `data.get("results", [])`. */
  function BanditResults(data: map<string, PyValue>): PyValue {
    GetOr(data, "results", PList([]))
  }

  /**
   * `parse_bandit` on the parsed report: one count per result, under the
   * bucket of its `issue_severity`. A report that is not a JSON object fails
   * on `data.get`.
   */
  function ParseBandit(data: PyValue): (r: Result<Counts, PyError>)
    ensures !data.PDict? ==> r == Err(AttributeError)
    ensures r.Ok? ==> (data.PDict? && Members(BanditResults(data.entries)).Ok?
                       && r.value.Total() == |Members(BanditResults(data.entries)).value|)
  {
    if !data.PDict? then Err(AttributeError)
    else
      match Members(BanditResults(data.entries))
      case Err(e) => Err(e)
      case Ok(results) =>
        match BanditSeverities(results)
        case Err(e) => Err(e)
        case Ok(sevs) => Ok(Tally(sevs))
  }

  /** A report without a results list counts nothing. */
  lemma BanditWithoutResults(data: map<string, PyValue>)
    requires "results" !in data
    ensures ParseBandit(PDict(data)) == Ok(Zero)
  {
    assert Members(BanditResults(data)) == Ok([]);
    assert BanditSeverities([]) == Ok([]);
  }

  /** A report whose results are all dicts tallies their severities. */
  lemma BanditTallies(data: PyValue, results: seq<PyValue>)
    requires data.PDict? && BanditResults(data.entries) == PList(results)
    requires forall i :: 0 <= i < |results| ==> results[i].PDict?
    ensures BanditSeverities(results).Ok?
    ensures ParseBandit(data) == Ok(Tally(BanditSeverities(results).value))
  {
    assert Members(BanditResults(data.entries)) == Ok(results);
    assert BanditSeverities(results).Ok?;
  }

  /** Each bucket counts exactly the results whose severity lands in it. */
  lemma BanditCountsPerBucket(data: PyValue, results: seq<PyValue>, k: Severity)
    requires data.PDict? && BanditResults(data.entries) == PList(results)
    requires forall i :: 0 <= i < |results| ==> results[i].PDict?
    ensures ParseBandit(data).Ok?
    ensures ParseBandit(data).value.Of(k)
      == |ResultsIn(results, k)|
  {
    BanditTallies(data, results);
    BanditBucketCount(results, k);
  }

  lemma BanditBucketCount(results: seq<PyValue>, k: Severity)
    requires BanditSeverities(results).Ok?
    ensures Tally(BanditSeverities(results).value).Of(k) == |ResultsIn(results, k)|
  {
    var sevs := BanditSeverities(results).value;
    TallyPositions(sevs, k);
    SamePositions(sevs, results, k);
  }

  lemma SamePositions(sevs: seq<Severity>, results: seq<PyValue>, k: Severity)
    requires BanditSeverities(results) == Ok(sevs)
    ensures Positions(sevs, k) == ResultsIn(results, k)
  {
  }

  /** The positions of a sequence that hold severity `k`. */
  function Positions(sevs: seq<Severity>, k: Severity): set<int> {
    set i | 0 <= i < |sevs| && sevs[i] == k
  }

  /** The positions of the bandit results whose `issue_severity` lands in bucket `k`. */
  function ResultsIn(results: seq<PyValue>, k: Severity): set<int> {
    set i | 0 <= i < |results| && results[i].PDict? && IssueSeverity(results[i].entries) == k
  }

  /** Each counter holds the number of positions holding its severity. */
  lemma TallyPositions(sevs: seq<Severity>, k: Severity)
    ensures Tally(sevs).Of(k) == |Positions(sevs, k)|
  {
    TallyCounts(sevs, k);
    CountMatches(sevs, k);
  }

  /** How often `k` occurs in a sequence is the number of positions holding it. */
  lemma {:induction false} CountMatches(sevs: seq<Severity>, k: Severity)
    ensures multiset(sevs)[k] == |Positions(sevs, k)|
  {
    if |sevs| > 0 {
      var n := |sevs| - 1;
      var front := sevs[..n];
      assert sevs == front + [sevs[n]];
      CountMatches(front, k);
      var a := Positions(front, k);
      var b := Positions(sevs, k);
      if sevs[n] == k {
        assert b == a + {n};
      } else {
        assert b == a;
      }
    }
  }

  // ---------------------------------------------------------------------------
  // parse_pip_audit
  // ---------------------------------------------------------------------------

  /** A vulnerability's severity: `severity`, or `cvss_severity` when that is falsy. */
  function VulnSeverity(vuln: map<string, PyValue>): (r: Severity)
    ensures Truthy(Get(vuln, "severity")) ==> r == SeverityBucket(Get(vuln, "severity"))
    ensures !Truthy(Get(vuln, "severity")) ==> r == SeverityBucket(Get(vuln, "cvss_severity"))
  {
    SeverityBucket(Or(Get(vuln, "severity"), Get(vuln, "cvss_severity")))
  }

  /** The vulnerabilities listed under one dependency: `dep.get("vulns", [])`. */
  function DependencyVulns(dep: map<string, PyValue>): PyValue {
    GetOr(dep, "vulns", PList([]))
  }

  /** How many vulnerabilities the dependencies list, counting only what the loops reach. */
  function VulnCount(deps: seq<PyValue>): nat {
    if |deps| == 0 then 0
    else
      var here := if deps[0].PDict? && Members(DependencyVulns(deps[0].entries)).Ok?
                  then |Members(DependencyVulns(deps[0].entries)).value| else 0;
      here + VulnCount(deps[1..])
  }

  /** The severities of a list of vulnerabilities, failing at the first one that is not a dict. */
  function VulnSeverities(vulns: seq<PyValue>): (r: Result<seq<Severity>, PyError>)
    ensures r.Ok? <==> forall i :: 0 <= i < |vulns| ==> vulns[i].PDict?
    ensures r.Err? ==> r.error == AttributeError
    ensures r.Ok? ==> |r.value| == |vulns|
    ensures r.Ok? ==> forall i :: 0 <= i < |vulns| ==> r.value[i] == VulnSeverity(vulns[i].entries)
  {
    if |vulns| == 0 then Ok([])
    else if !vulns[0].PDict? then Err(AttributeError)
    else
      var rest :- VulnSeverities(vulns[1..]);
      assert forall i :: 1 <= i < |vulns| ==> vulns[1..][i - 1] == vulns[i];
      Ok([VulnSeverity(vulns[0].entries)] + rest)
  }

  /** The inner loop over one dependency: `dep.get("vulns", [])` needs a dict, then every vulnerability must be one. */
  function DependencySeverities(dep: PyValue): Result<seq<Severity>, PyError> {
    if !dep.PDict? then Err(AttributeError)
    else
      var vulns :- Members(DependencyVulns(dep.entries));
      VulnSeverities(vulns)
  }

  /** The vulnerabilities the inner loop visits for one dependency; none when it cannot be iterated. */
  function DepVulns(dep: PyValue): seq<PyValue> {
    if dep.PDict? && Members(DependencyVulns(dep.entries)).Ok? then Members(DependencyVulns(dep.entries)).value
    else []
  }

  /** Every vulnerability the nested loops visit, dependency by dependency. */
  function FlatVulns(deps: seq<PyValue>): seq<PyValue> {
    if |deps| == 0 then [] else DepVulns(deps[0]) + FlatVulns(deps[1..])
  }

  /**
   * The two nested loops of `parse_pip_audit`, dependency by dependency, so
   * that the first failure in iteration order is the one raised.
   */
  function AuditSeverities(deps: seq<PyValue>): (r: Result<seq<Severity>, PyError>)
    ensures r.Ok? <==> forall i :: 0 <= i < |deps| ==> DependencySeverities(deps[i]).Ok?
    ensures r.Err? ==>
              exists i :: && 0 <= i < |deps|
                          && (forall j :: 0 <= j < i ==> DependencySeverities(deps[j]).Ok?)
                          && DependencySeverities(deps[i]) == Err(r.error)
    ensures r.Ok? ==> |r.value| == VulnCount(deps)
    ensures r.Ok? ==> forall i :: 0 <= i < |deps| ==> deps[i].PDict?
  {
    if |deps| == 0 then Ok([])
    else
      var here :- DependencySeverities(deps[0]);
      var rest :- AuditSeverities(deps[1..]);
      assert forall i :: 1 <= i < |deps| ==> deps[1..][i - 1] == deps[i];
      Ok(here + rest)
  }

  /** The dependency list of a pip-audit report: `data.get("dependencies", [])`. */
  function AuditDependencies(data: map<string, PyValue>): PyValue {
    GetOr(data, "dependencies", PList([]))
  }

  /**
   * `parse_pip_audit` on the parsed report: a report that is not a JSON
   * object counts nothing; otherwise one count per vulnerability of every
   * dependency.
   */
  function ParsePipAudit(data: PyValue): (r: Result<Counts, PyError>)
    ensures !data.PDict? ==> r == Ok(Zero)
    ensures r.Ok? && data.PDict? ==> (Members(AuditDependencies(data.entries)).Ok?
                                      && r.value.Total() == VulnCount(Members(AuditDependencies(data.entries)).value))
  {
    if !data.PDict? then Ok(Zero)
    else
      match Members(AuditDependencies(data.entries))
      case Err(e) => Err(e)
      case Ok(deps) =>
        match AuditSeverities(deps)
        case Err(e) => Err(e)
        case Ok(sevs) => Ok(Tally(sevs))
  }

  /**
   * A successful `AuditSeverities` holds, in visiting order, the
   * `VulnSeverity` of every vulnerability the nested loops reach.
   */
  lemma {:induction false} AuditSeveritiesInOrder(deps: seq<PyValue>)
    ensures var r := AuditSeverities(deps);
            r.Ok? ==> && |r.value| == |FlatVulns(deps)|
                      && forall j :: 0 <= j < |r.value| ==>
                           FlatVulns(deps)[j].PDict? && r.value[j] == VulnSeverity(FlatVulns(deps)[j].entries)
  {
    if |deps| > 0 && AuditSeverities(deps).Ok? {
      AuditSeveritiesInOrder(deps[1..]);
      var here := DependencySeverities(deps[0]).value;
      var rest := AuditSeverities(deps[1..]).value;
      assert AuditSeverities(deps).value == here + rest;
      assert here == VulnSeverities(DepVulns(deps[0])).value;
    }
  }

  /** The positions of the visited vulnerabilities whose severity lands in bucket `k`. */
  function VulnsIn(vulns: seq<PyValue>, k: Severity): set<int> {
    set i | 0 <= i < |vulns| && vulns[i].PDict? && VulnSeverity(vulns[i].entries) == k
  }

  /**
   * Each bucket of a parsed pip-audit report counts exactly the
   * vulnerabilities, across all dependencies, whose `severity or
   * cvss_severity` lands in it.
   */
  lemma PipAuditCountsPerBucket(data: PyValue, k: Severity)
    ensures data.PDict? && ParsePipAudit(data).Ok? ==>
              Members(AuditDependencies(data.entries)).Ok?
              && ParsePipAudit(data).value.Of(k)
                 == |VulnsIn(FlatVulns(Members(AuditDependencies(data.entries)).value), k)|
  {
    if data.PDict? && ParsePipAudit(data).Ok? {
      var deps := Members(AuditDependencies(data.entries)).value;
      var sevs := AuditSeverities(deps).value;
      TallyPositions(sevs, k);
      AuditSeveritiesInOrder(deps);
      AuditPositions(deps, sevs, k);
    }
  }

  lemma AuditPositions(deps: seq<PyValue>, sevs: seq<Severity>, k: Severity)
    requires |sevs| == |FlatVulns(deps)|
    requires forall j :: 0 <= j < |sevs| ==>
               FlatVulns(deps)[j].PDict? && sevs[j] == VulnSeverity(FlatVulns(deps)[j].entries)
    ensures Positions(sevs, k) == VulnsIn(FlatVulns(deps), k)
  {
  }

  /** A report without a dependency list counts nothing. */
  lemma PipAuditWithoutDependencies(data: map<string, PyValue>)
    requires "dependencies" !in data
    ensures ParsePipAudit(PDict(data)) == Ok(Zero)
  {
    assert Members(AuditDependencies(data)) == Ok([]);
    assert AuditSeverities([]) == Ok([]);
  }
}
