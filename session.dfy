/** The validation session: a frame, the report it builds up, and the final
    decision. Every attached rule is run at once and its record filed in the
    report; `validate()` then scans the report. */
module Session {
  import opened Common
  import opened Frames
  import opened Grouping
  import opened Results
  import opened Engine
  import opened Catalogue

  /** What `validate()` ends with: the empty-session ValueError, the aggregate
      SystemExit, or returning the session. */
  datatype Outcome = EmptySession(message: string) | AggregateFailure(message: string) | Passed

  /** The logger call `validate()` makes for one record. */
  datatype Level = Critical | Warning | Error | Info

  datatype LogLine = LogLine(level: Level, text: string)

  /** A failed record of high impact, in any letter case. */
  predicate IsHighFailure(r: ValidationRecord)
  {
    r.result.status == Fail && Lower(r.impact) == "high"
  }

  /** A failed record whose impact spells "high" in any letter case ("HIGH",
      "High", ...) is a high-impact failure, and nothing else spells it. */
  lemma HighInAnyCase(r: ValidationRecord)
    requires r.result.status == Fail
    ensures IsHighFailure(r) <==> SameUpToCase(r.impact, "high")
  {
    LowerEqualIff(r.impact, "high");
    assert Lower("high") == "high";
  }

  /** The level and text `validate()` logs for one record. */
  function LogFor(key: string, r: ValidationRecord): (l: LogLine)
    ensures l.level == Critical <==> IsHighFailure(r)
    ensures l.level == Info <==> r.result.status == Success
    ensures l.level == Warning <==> r.result.status == Fail && Lower(r.impact) == "medium"
  {
    if r.result.status == Fail then
      var text := "Failed validation: " + key + " - " + r.result.message;
      if Lower(r.impact) == "high" then LogLine(Critical, text)
      else if Lower(r.impact) == "medium" then LogLine(Warning, text)
      else LogLine(Error, text)
    else LogLine(Info, "Passed validation: " + key)
  }

  /** `r` is `keys` with some of its elements left out, the rest kept in order. */
  predicate Subsequence(r: seq<string>, keys: seq<string>)
    decreases |keys|
  {
    if |r| == 0 then true
    else if |keys| == 0 then false
    else
      || (r[|r| - 1] == keys[|keys| - 1] && Subsequence(r[..|r| - 1], keys[..|keys| - 1]))
      || Subsequence(r, keys[..|keys| - 1])
  }

  /** The keys among `keys` whose record is a high-impact failure, in the order
      of `keys`. */
  function HighFailures(keys: seq<string>, entries: map<string, ValidationRecord>): (r: seq<string>)
    ensures |r| <= |keys|
    ensures forall k :: k in r <==> k in keys && k in entries && IsHighFailure(entries[k])
  {
    if |keys| == 0 then []
    else
      var n := |keys| - 1;
      var init := HighFailures(keys[..n], entries);
      assert keys == keys[..n] + [keys[n]];
      init + (if keys[n] in entries && IsHighFailure(entries[keys[n]]) then [keys[n]] else [])
  }

  /** The collected keys keep the order of the report. */
  lemma {:induction false} HighFailuresInOrder(keys: seq<string>, entries: map<string, ValidationRecord>)
    ensures Subsequence(HighFailures(keys, entries), keys)
  {
    if |keys| > 0 {
      var n := |keys| - 1;
      var init := HighFailures(keys[..n], entries);
      HighFailuresInOrder(keys[..n], entries);
      var hit := HighFailuresLast(keys, entries);
      if hit {
        var r := init + [keys[n]];
        assert r[..|r| - 1] == init && r[|r| - 1] == keys[n];
        assert Subsequence(r, keys);
      } else {
        assert HighFailures(keys, entries) == init + [] == init;
        assert Subsequence(init, keys);
      }
    }
  }

  /** The last key adds itself exactly when its record is a high-impact failure. */
  lemma HighFailuresLast(keys: seq<string>, entries: map<string, ValidationRecord>) returns (hit: bool)
    requires |keys| > 0
    ensures hit == (keys[|keys| - 1] in entries && IsHighFailure(entries[keys[|keys| - 1]]))
    ensures HighFailures(keys, entries)
            == HighFailures(keys[..|keys| - 1], entries) + (if hit then [keys[|keys| - 1]] else [])
  {
    hit := keys[|keys| - 1] in entries && IsHighFailure(entries[keys[|keys| - 1]]);
  }

  /** The log lines of a report scanned in key order, one per key. */
  function LogOf(keys: seq<string>, entries: map<string, ValidationRecord>): (r: seq<LogLine>)
    requires forall k :: k in keys ==> k in entries
    ensures |r| == |keys|
    ensures |keys| > 0 ==> r[|keys| - 1] == LogFor(keys[|keys| - 1], entries[keys[|keys| - 1]])
  {
    if |keys| == 0 then []
    else
      var n := |keys| - 1;
      assert keys == keys[..n] + [keys[n]];
      LogOf(keys[..n], entries) + [LogFor(keys[n], entries[keys[n]])]
  }

  /** The scan logs every record once, at the position of its key. */
  lemma {:induction false} LogOfLines(keys: seq<string>, entries: map<string, ValidationRecord>)
    requires forall k :: k in keys ==> k in entries
    ensures |LogOf(keys, entries)| == |keys|
    ensures forall i :: 0 <= i < |keys| ==> LogOf(keys, entries)[i] == LogFor(keys[i], entries[keys[i]])
  {
    if |keys| > 0 {
      var n := |keys| - 1;
      assert forall k :: k in keys[..n] ==> k in keys;
      LogOfLines(keys[..n], entries);
    }
  }

  /** The text of the aggregate SystemExit: the failed keys as a Python list,
      opened by the first key. */
  function AggregateMessage(failed: seq<string>): (m: string)
    ensures Prefix + "[" <= m && m[|m| - 1] == ']'
    ensures |failed| > 0 ==> Prefix + "[" + PyStrRepr(failed[0]) <= m
  {
    var l := PyStrList(failed);
    PrefixAfter(Prefix, "[", l);
    if |failed| > 0 then PrefixAfter(Prefix, "[" + PyStrRepr(failed[0]), l); Prefix + l
    else Prefix + l
  }

  const Prefix: string := "FAILED VALIDATION(S): "

  class Validate {
    const frame: Frame
    var passed: Option<bool>
    var validations: Validations
    /** The record keys of `results` after "Summary", in insertion order. */
    var keys: seq<string>
    var entries: map<string, ValidationRecord>
    /** The status of every record filed so far, overwritten ones included. */
    ghost var statuses: seq<Status>

    ghost predicate Valid()
      reads this
    {
      && (forall k :: k in keys <==> k in entries)
      && (forall i, j :: 0 <= i < j < |keys| ==> keys[i] != keys[j])
      && SummaryKey !in entries
      && (validations.NoChecks? <==> |statuses| == 0)
      && (validations.NoChecks? ==> validations.text == NoChecksMessage && keys == [])
      && (validations.Names? ==> |validations.names| == |statuses| && forall k :: k in validations.names <==> k in keys)
      && (passed.None? <==> |statuses| == 0)
      && (passed == Some(false) <==> Fail in statuses)
    }

    /** `Validate.__init__`: a report holding only the Summary. */
    constructor (f: Frame)
      ensures Valid()
      ensures frame == f
      ensures passed.None? && validations == NoChecks(NoChecksMessage)
      ensures keys == [] && entries == map[] && statuses == []
    {
      frame := f;
      passed := None;
      validations := NoChecks(NoChecksMessage);
      keys := [];
      entries := map[];
      statuses := [];
    }

    /** The `Summary` entry of the report. Under the report invariant it is in
        one of three states: nothing filed (`passed` None, the sentinel text),
        some check failed (`passed` False for good), or everything passed so far. */
    function Summary(): (s: Results.Summary)
      reads this
      ensures s.passed == passed && s.validations == validations && s.failedValidation.None?
      ensures Valid() ==> (s.passed.None? <==> s.validations.NoChecks?)
      ensures Valid() ==> (s.passed == Some(false) <==> Fail in statuses)
      ensures Valid() ==> (s.passed == Some(true) <==> |statuses| > 0 && Fail !in statuses)
    {
      assert passed.Some? ==> passed == if passed.value then Some(true) else Some(false);
      Results.Summary(passed, validations, None)
    }

    /** The bookkeeping half of `__create_validation_class__`: update the
        summary and file the record under `name`, in place. */
    method File(name: string, record: ValidationRecord) returns (self: Validate)
      requires Valid() && name != SummaryKey
      modifies this
      ensures Valid() && self == this
      ensures passed == (if record.result.status == Fail then Some(false)
                         else if old(passed).None? then Some(true) else old(passed))
      ensures validations == (if old(validations).NoChecks? then Names([name]) else Names(old(validations).names + [name]))
      ensures entries == old(entries)[name := record]
      ensures keys == (if name in old(entries) then old(keys) else old(keys) + [name])
      ensures statuses == old(statuses) + [record.result.status]
    {
      if record.result.status == Fail {
        passed := Some(false);
      } else if passed.None? {
        passed := Some(true);
      }
      if validations.NoChecks? {
        validations := Names([name]);
      } else {
        validations := Names(validations.names + [name]);
      }
      if name !in entries {
        keys := keys + [name];
      }
      entries := entries[name := record];
      statuses := statuses + [record.result.status];
      self := this;
    }

    /** `__create_validation_class__`: build the rule (a constructor error
        propagates before anything changes), run it on the session's frame,
        and file the record under `ClassName_target`. */
    method Attach(rule: Rule, settings: Settings, timestamp: string) returns (r: Result<Validate, BuildError>)
      requires Valid()
      modifies this
      ensures Valid()
      ensures Admit(rule).Err? ==> r == Err(Admit(rule).error) && unchanged(this)
      ensures Admit(rule).Ok? ==> var record := Run(rule, settings, frame, timestamp);
                                  && r == Ok(this)
                                  && entries == old(entries)[RecordKey(rule) := record]
                                  && statuses == old(statuses) + [record.result.status]
                                  && passed == (if record.result.status == Fail then Some(false)
                                                else if old(passed).None? then Some(true) else old(passed))
                                  && validations == (if old(validations).NoChecks? then Names([RecordKey(rule)])
                                                     else Names(old(validations).names + [RecordKey(rule)]))
                                  && (keys == if RecordKey(rule) in old(entries) then old(keys) else old(keys) + [RecordKey(rule)])
    {
      match Admit(rule)
      case Err(e) =>
        return Err(e);
      case Ok(_) =>
        var record := Run(rule, settings, frame, timestamp);
        var self := File(RecordKey(rule), record);
        return Ok(self);
    }

    /** `validate()`: the empty-session error, or one log line per record and
        the aggregate failure exactly when some record is a high-impact
        failure. The report is only read. */
    method Validate() returns (outcome: Outcome, log: seq<LogLine>)
      requires Valid()
      ensures |keys| == 0 ==> outcome == EmptySession(NoChecksMessage) && log == []
      ensures |keys| > 0 ==> log == LogOf(keys, entries)
      ensures |keys| > 0 ==> (outcome.AggregateFailure? <==> exists k :: k in entries && IsHighFailure(entries[k]))
      ensures outcome.AggregateFailure? ==> outcome.message == AggregateMessage(HighFailures(keys, entries))
      ensures |keys| > 0 && !outcome.AggregateFailure? ==> outcome == Passed
    {
      if |keys| == 0 {
        return EmptySession(NoChecksMessage), [];
      }
      var failed;
      failed, log := Scan(keys, entries);
      HighFailuresExist(keys, entries);
      if |failed| > 0 {
        outcome := AggregateFailure(AggregateMessage(failed));
      } else {
        outcome := Passed;
      }
    }
  }

  /** The loop of `validate()`: log every record in report order and collect
      the keys of the high-impact failures. */
  method Scan(keys: seq<string>, entries: map<string, ValidationRecord>) returns (failed: seq<string>, log: seq<LogLine>)
    requires forall k :: k in keys ==> k in entries
    ensures failed == HighFailures(keys, entries)
    ensures log == LogOf(keys, entries)
  {
    failed := [];
    log := [];
    var i := 0;
    while i < |keys|
      invariant 0 <= i <= |keys|
      invariant failed == HighFailures(keys[..i], entries)
      invariant log == LogOf(keys[..i], entries)
    {
      var key := keys[i];
      var record := entries[key];
      HighFailuresStep(keys, entries, i);
      if IsHighFailure(record) {
        failed := failed + [key];
      }
      log := log + [LogFor(key, record)];
      i := i + 1;
    }
    assert keys[..i] == keys;
  }

  lemma HighFailuresStep(keys: seq<string>, entries: map<string, ValidationRecord>, i: nat)
    requires i < |keys| && forall k :: k in keys ==> k in entries
    ensures HighFailures(keys[..i + 1], entries)
            == HighFailures(keys[..i], entries) + (if IsHighFailure(entries[keys[i]]) then [keys[i]] else [])
    ensures LogOf(keys[..i + 1], entries) == LogOf(keys[..i], entries) + [LogFor(keys[i], entries[keys[i]])]
  {
    assert forall k :: k in keys[..i + 1] ==> k in keys;
    assert keys[..i + 1][..i] == keys[..i];
  }

  /** Over a report whose keys are exactly its entries, some key is collected
      exactly when some record is a high-impact failure. */
  lemma HighFailuresExist(keys: seq<string>, entries: map<string, ValidationRecord>)
    requires forall k :: k in keys <==> k in entries
    ensures |HighFailures(keys, entries)| > 0 <==> exists k :: k in entries && IsHighFailure(entries[k])
  {
    var failed := HighFailures(keys, entries);
    if exists k :: k in entries && IsHighFailure(entries[k]) {
      var k :| k in entries && IsHighFailure(entries[k]);
      assert k in failed;
    } else if |failed| > 0 {
      assert failed[0] in keys;
    }
  }
}
