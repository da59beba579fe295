/** The shapes of the session report: the `Summary` entry, one record per
    executed check, and the check's own result. Optional dictionary keys are
    `Option` fields. */
module Results {
  import opened Common
  import opened Frames

  datatype Status = Success | Fail

  /** The `result` part of a check record: `status` and `message` always, the
      rest only when the check computed them. */
  datatype CheckResult = CheckResult(
    status: Status,
    thresholdPass: Option<bool>,
    message: string,
    failingItems: Option<seq<Cell>>,
    failedNumber: Option<nat>,
    frameRowNumber: Option<nat>,
    threshold: Option<real>,
    failedPercentage: Option<real>)

  /** One executed check, as stored under its record key. */
  datatype ValidationRecord = ValidationRecord(
    validation: string,
    impact: string,
    timestamp: string,
    column: string,
    result: CheckResult)

  /** `Summary.validations`: the sentinel text until the first check is
      attached, then the list of record keys in attachment order. */
  datatype Validations = NoChecks(text: string) | Names(names: seq<string>)

  datatype Summary = Summary(passed: Option<bool>, validations: Validations, failedValidation: Option<seq<string>>)

  const NoChecksMessage: string := "No validation checks were added."

  const SummaryKey: string := "Summary"

  /** The number of attached names `Summary.validations` stands for. */
  function NameCount(v: Validations): (n: nat)
    ensures v.NoChecks? ==> n == 0
    ensures v.Names? ==> n == |v.names|
  {
    if v.NoChecks? then 0 else |v.names|
  }
}
