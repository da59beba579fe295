/** Sessions worked through end to end: which records make `validate()` stop,
    what it logs, and how re-running a check updates the report. */
module Scenarios {
  import opened Common
  import opened Frames
  import opened Results
  import opened Session

  /** One high-impact failure and one pass: `validate()` logs both in order and
      names only the failure in the SystemExit text. */
  method HighFailureStops(f: Frame, bad: string, good: string, failing: ValidationRecord, passing: ValidationRecord)
    returns (outcome: Session.Outcome, log: seq<LogLine>)
    requires bad != good && bad != SummaryKey && good != SummaryKey
    requires IsHighFailure(failing) && passing.result.status == Success
    ensures outcome == AggregateFailure(AggregateMessage([bad]))
    ensures log == [LogFor(bad, failing), LogFor(good, passing)]
    ensures log[0].level == Critical && log[1].level == Info
  {
    var v := new Validate(f);
    var s1 := v.File(bad, failing);
    var s2 := v.File(good, passing);
    TwoRecordReport(bad, good, failing, passing, v.keys, v.entries);
    outcome, log := v.Validate();
  }

  lemma TwoRecordReport(bad: string, good: string, failing: ValidationRecord, passing: ValidationRecord,
                        keys: seq<string>, entries: map<string, ValidationRecord>)
    requires keys == [] + [bad] + [good]
    requires bad in entries && good in entries && entries[bad] == failing && entries[good] == passing
    requires IsHighFailure(failing) && passing.result.status == Success
    ensures HighFailures(keys, entries) == [bad]
    ensures LogOf(keys, entries) == [LogFor(bad, failing), LogFor(good, passing)]
    ensures LogFor(bad, failing).level == Critical && LogFor(good, passing).level == Info
  {
    assert keys[..1] == [bad];
    assert keys[..1][..0] == [];
    assert HighFailures(keys[..1], entries) == [bad];
    assert LogOf(keys[..1], entries) == [LogFor(bad, failing)];
  }

  /** The SystemExit text names a single failed check as a one-element
      Python list. */
  lemma SingleFailureMessage(key: string)
    ensures AggregateMessage([key]) == "FAILED VALIDATION(S): ['" + key + "']"
  {
    var q := QuoteAll([key]);
    assert Join(q, ", ") == "'" + key + "'";
  }

  /** Only "high" stops, in any letter case: a failure of any other impact is
      logged, leaves the summary failed, and the session passes. */
  method LowerImpactPasses(f: Frame, key: string, failing: ValidationRecord)
    returns (outcome: Session.Outcome, log: seq<LogLine>, passed: Option<bool>)
    requires key != SummaryKey
    requires failing.result.status == Fail && Lower(failing.impact) != "high"
    ensures outcome == Passed
    ensures log == [LogFor(key, failing)] && log[0].level != Critical
    ensures passed == Some(false)
  {
    var v := new Validate(f);
    var s := v.File(key, failing);
    assert v.keys == [key];
    outcome, log := v.Validate();
    LogOfLines(v.keys, v.entries);
    passed := v.passed;
  }

  /** Re-running a check under the same key overwrites its record in place, but
      `validations` lists the key twice, and the later pass does not clear the
      failed summary. */
  method RerunKeepsFailure(f: Frame, key: string, first: ValidationRecord, second: ValidationRecord)
    returns (keys: seq<string>, validations: Validations, passed: Option<bool>)
    requires key != SummaryKey
    requires first.result.status == Fail && second.result.status == Success
    ensures keys == [key]
    ensures validations == Names([key] + [key])
    ensures passed == Some(false)
  {
    var v := new Validate(f);
    var s1 := v.File(key, first);
    var s2 := v.File(key, second);
    keys, validations, passed := v.keys, v.validations, v.passed;
  }

  /** A session with no checks refuses to validate. */
  method NothingAttached(f: Frame) returns (outcome: Session.Outcome)
    ensures outcome == EmptySession("No validation checks were added.")
  {
    var v := new Validate(f);
    var log;
    outcome, log := v.Validate();
  }
}
