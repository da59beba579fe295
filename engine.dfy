/** The shared step every rule runs through: evaluate the rule's violation
    query, total the violation counts, compare the failing share with the
    rule's threshold and build the check record. The base class that does
    this is not part of this model; the step is fixed here by the documented
    examples and tests of the rules. */
module Engine {
  import opened Common
  import opened Frames
  import opened Grouping
  import opened Results

  /** Constructor arguments every rule shares. */
  datatype Settings = Settings(impact: string, threshold: real)

  /** The failing share: `failed / denominator`, and 0 over an empty denominator. */
  function FailedPercentage(failed: nat, denominator: nat): (p: real)
    ensures 0.0 <= p
    ensures denominator > 0 ==> p * denominator as real == failed as real
    ensures denominator == 0 ==> p == 0.0
  {
    if denominator == 0 then 0.0 else failed as real / denominator as real
  }

  /** Success when nothing failed or the failing share is within the threshold. */
  function Decide(failed: nat, denominator: nat, threshold: real): Status
  {
    if failed == 0 || FailedPercentage(failed, denominator) <= threshold then Success else Fail
  }

  /** Over a non-empty denominator the decision compares counts, no division:
      a check fails exactly when more rows fail than the threshold allows. */
  lemma DecideByCount(failed: nat, denominator: nat, threshold: real)
    requires denominator > 0
    ensures Decide(failed, denominator, threshold) == Fail
            <==> failed > 0 && failed as real > threshold * denominator as real
  {
    var p := FailedPercentage(failed, denominator);
    var d := denominator as real;
    assert p * d == failed as real;
    if p <= threshold {
      assert p * d <= threshold * d;
    } else {
      assert p * d > threshold * d;
    }
  }

  /** Raising the threshold can only turn a failure into a success. */
  lemma ThresholdMonotone(failed: nat, denominator: nat, t1: real, t2: real)
    requires t1 <= t2
    ensures Decide(failed, denominator, t1) == Success ==> Decide(failed, denominator, t2) == Success
  {
  }

  /** With the default threshold of 0 a single failing row fails the check. */
  lemma ZeroThresholdStrict(failed: nat, denominator: nat)
    requires denominator > 0
    ensures Decide(failed, denominator, 0.0) == Fail <==> failed > 0
  {
    DecideByCount(failed, denominator, 0.0);
  }

  /** A failing share exactly equal to the threshold passes. */
  lemma ThresholdInclusive(failed: nat, denominator: nat)
    requires 0 < failed <= denominator
    ensures Decide(failed, denominator, failed as real / denominator as real) == Success
  {
  }

  /** The record of one executed check. A query that raises fails the check with
      the error text as its message; otherwise every result field is present. */
  function Execute(name: string, target: string, settings: Settings, failMessage: string,
                   query: Result<seq<Tally<Cell>>, QueryError>, denominator: nat,
                   timestamp: string): (r: ValidationRecord)
    ensures r.validation == name && r.column == target && r.timestamp == timestamp
    ensures r.impact == Lower(settings.impact)
    ensures query.Err? ==> r.result.status == Fail && r.result.message == QueryErrorText(query.error)
    ensures query.Ok? ==>
              && r.result.failedNumber == Some(Total(query.value))
              && r.result.failingItems == Some(Keys(query.value))
              && r.result.frameRowNumber == Some(denominator)
              && r.result.threshold == Some(settings.threshold)
              && r.result.failedPercentage == Some(FailedPercentage(Total(query.value), denominator))
              && r.result.thresholdPass == Some(FailedPercentage(Total(query.value), denominator) <= settings.threshold)
              && (r.result.status == Success <==> Total(query.value) == 0 || r.result.thresholdPass == Some(true))
              && (r.result.status == Fail ==> r.result.message == failMessage)
  {
    var result :=
      match query
      case Err(e) => CheckResult(Fail, None, QueryErrorText(e), None, None, None, None, None)
      case Ok(ts) =>
        var failed := Total(ts);
        var pct := FailedPercentage(failed, denominator);
        var status := Decide(failed, denominator, settings.threshold);
        CheckResult(status, Some(pct <= settings.threshold),
                    if status == Fail then failMessage else PassMessage,
                    Some(Keys(ts)), Some(failed), Some(denominator), Some(settings.threshold), Some(pct));
    ValidationRecord(name, Lower(settings.impact), timestamp, target, result)
  }

  /** The message of a passing check; its wording lives in the base class. */
  const PassMessage: string := "All items passed the validation."

  /** Writing the impact in another letter case gives the same record. */
  lemma ImpactCaseInsensitive(name: string, target: string, s1: Settings, s2: Settings, failMessage: string,
                              query: Result<seq<Tally<Cell>>, QueryError>, denominator: nat, timestamp: string)
    requires SameUpToCase(s1.impact, s2.impact) && s1.threshold == s2.threshold
    ensures Execute(name, target, s1, failMessage, query, denominator, timestamp)
            == Execute(name, target, s2, failMessage, query, denominator, timestamp)
  {
    LowerEqualIff(s1.impact, s2.impact);
  }
}
