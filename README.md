# validoopsie, modelled in Dafny

validoopsie is a dataframe validation library. A `Validate` session wraps a
frame. Every rule attached to it (for example
`vd.ValuesValidation.ColumnValuesToBeBetween("a", 0, 10, impact="high")`) is
built, run on the frame at once, and its record is filed in the session's
`results` dictionary under `ClassName_column`. `validate()` then logs every
record. It raises when some record is a failed check of high impact.

This project models three layers of that behaviour.

- **The session** (`session.dfy`, module `Session`). `class Validate` holds the
  report: the `Summary` entry (`passed`, `validations`) and the records in
  insertion order. `Attach` builds, runs and files one rule. `Validate`
  decides the session's outcome and returns the log lines it would write.
  `scenarios.dfy` works through whole sessions taken from the library's tests.
- **The rule catalogue** (modules `ValuesValidation`, `StringValidation`,
  `DateValidation`, `UniqueValidation`, `NullValidation`,
  `EqualityValidation`, `TypeValidation`, tied together in `Catalogue`). Each
  rule's `__call__` is a violation query over an abstract frame (`Frames`).
  The query returns the violating groups as (key, count) tallies, built from
  filters, `group_by` and counts (`Grouping`). The shared step that turns a
  query into a check record (`Engine`) lives in a base class that is not part
  of this model. It is reconstructed from the rules' documented examples and
  tests: the failing share is compared with the threshold, and a query that
  raises fails the check.
- **Rule internals.** `TypeCheck` has two constructor modes, a declaration
  loop and a schema scan, all over an abstract dtype hierarchy (`DTypes`).
  `ColumnMatchDateFormat` builds a pattern from a date format (`DateFormat`).

Where the code and the documented behaviour disagree, the model follows the
code:
- `ColumnMatchDateFormat` builds its pattern date run first, as the code does,
  even for a format that starts with a separator (see "## Findings").
- `validate()` raises `SystemExit`, while several tests expect `ValueError`.
- The date-format rule reuses the unique-values fail message.
- `PairColumnEquality`'s message has no space before the second quote.
- `ColumnsSumToBeLessEqualTo`'s `min_sum_value` acts as an upper bound, and
  `ColumnsSumToBeGreaterEqualTo`'s `max_sum_value` as a lower bound.
- `ColumnUniqueValueCountToBeBetween`'s docstring and fail message speak of
  the number of unique values, but the code bounds each value's frequency;
  the model bounds the frequencies, as the code and its tests do.
- `ColumnUniquePair` asserts "At least two columns are required." but refuses
  only an empty list; `Catalogue.Admit` admits a single column.

## Model

| member | source | states |
|---|---|---|
| Session.Validate.constructor | validoopsie/validate.py:18-24 | a new session has only the Summary: `passed` is None, `validations` is "No validation checks were added.", no records |
| Session.Validate.Summary | validoopsie/base/results_typedict.py:6-9 | under the report invariant the Summary is in one of three states: `passed` None exactly with the "No validation checks were added." text, False exactly when some filed check failed (it stays False, validate.py:107-110), True exactly when checks were filed and none failed |
| Session.Validate.File | validoopsie/validate.py:102-118 | one failing record sets `passed` to False for good; the first success sets it from None to True; the name is appended to `validations` (the sentinel string becomes a one-name list); `results.update` overwrites the record and keeps the key's position; the report invariant is kept |
| Session.Validate.Attach | validoopsie/validate.py:93-118 | a constructor error propagates before anything changes; otherwise the record of running the rule on the session's frame is filed under `ClassName_target`, with the same Summary updates as `File` |
| Session.Validate.Validate | validoopsie/validate.py:120-159 | an empty report gives the "No validation checks were added." error and no log; otherwise one log line per record in report order; the aggregate failure happens exactly when some record is a failed high-impact check, and its text lists exactly those keys in order; otherwise the session passes |
| Session.Scan | validoopsie/validate.py:125-155 | the loop collects exactly the high-impact failures in key order and writes the log of every key |
| Session.LogFor | validoopsie/validate.py:133-155 | critical exactly for a failed high-impact record (impact in any letter case), warning exactly for a failed medium one, info exactly for a success, error otherwise |
| Session.HighFailures | validoopsie/validate.py:133-138 | a key is collected exactly when it is in the report and its record is a failed high-impact check; never more keys than records |
| Session.HighFailuresInOrder | validoopsie/validate.py:126-138 | the collected keys are a subsequence of the report's keys: they keep the report order |
| Session.LogOf | validoopsie/validate.py:126-155 | the scan writes one log line per key, and the last key's record gives the last line |
| Session.LogOfLines | validoopsie/validate.py:126-155 | the log has one line per key, and line `i` is the line for key `i` |
| Session.HighFailuresStep | validoopsie/validate.py:126-155 | one more loop round appends the next key's contribution to both collections |
| Session.HighFailuresExist | validoopsie/validate.py:156-158 | the failed list is non-empty exactly when some record in the report is a failed high-impact check |
| Session.AggregateMessage | validoopsie/validate.py:156-158 | the SystemExit text opens with "FAILED VALIDATION(S): [" and the first failed key in quotes, and closes with "]" |
| Session.HighInAnyCase | validoopsie/validate.py:133-138 | a failed record is a high-impact failure exactly when its impact spells "high" in some letter case ("HIGH", "High", ...) |
| Scenarios.HighFailureStops | tests/test_raise_results.py:21-39 | a high failure and a pass: both are logged (critical, then info) and the stop message names only the failure |
| Scenarios.TwoRecordReport | validoopsie/validate.py:126-158 | in a two-record report, only the high-impact failure is collected, and the two log lines come in report order |
| Scenarios.SingleFailureMessage | validoopsie/validate.py:157 | one failed key gives "FAILED VALIDATION(S): ['key']" |
| Scenarios.LowerImpactPasses | validoopsie/validate.py:143-155 | a failure that is not of high impact is logged below critical and leaves `passed` False, and the session passes |
| Scenarios.RerunKeepsFailure | validoopsie/validate.py:107-117 | re-running a key keeps one record, lists the name twice in `validations`, and a later pass does not clear `passed` False |
| Scenarios.NothingAttached | validoopsie/validate.py:122-124 | a session with no checks refuses to validate |
| Common.Lower | validoopsie/validate.py:134-135 | `str.lower()` on ASCII: same length, each letter lower-cased |
| Common.LowerIdempotent | validoopsie/validate.py:134-135 | lower-casing twice is lower-casing once |
| Common.LowerEqualIff | validoopsie/validate.py:134-135 | two strings lower-case to the same string exactly when they differ only in the case of their letters |
| Common.Join | validoopsie/validation_catalogue/UniqueValidation/column_unique_pair.py:65 | `sep.join`: empty for no parts, the part itself for one, the two parts around one separator for two; the first part always leads |
| Common.JoinAppend | validoopsie/validation_catalogue/ValuesValidation/columns_sum_to_be_between.py:46 | joining one more part appends the separator and that part |
| Common.PyStrList | validoopsie/validate.py:157 | a list of names is rendered between brackets, the first quoted name right after "[" |
| Engine.FailedPercentage | tests/test_validation_catalogue/test_DateValidation/test_date_to_be_between.py:52-71 | the failing share times the denominator is the failed count; 0 over an empty frame |
| Engine.DecideByCount | tests/test_validation_catalogue/test_DateValidation/test_date_to_be_between.py:52-71 | over a non-empty frame a check fails exactly when some rows fail and more rows fail than the threshold allows |
| Engine.ThresholdMonotone | tests/test_validation_catalogue/test_DateValidation/test_column_match_date_format.py:40-61 | raising the threshold never turns a pass into a failure |
| Engine.ZeroThresholdStrict | tests/test_validation_catalogue/test_DateValidation/test_date_to_be_between.py:38-39 | with the default threshold 0, one failing row fails the check |
| Engine.ThresholdInclusive | tests/test_validation_catalogue/test_DateValidation/test_date_to_be_between.py:52-60 | a failing share equal to the threshold passes |
| Engine.Execute | validoopsie/base/results_typedict.py:12-28 | the record carries name, lower-cased impact, timestamp and target; a raising query fails with the error text; otherwise failed number, failing items, row number, threshold, percentage and threshold pass are all present, and the status is Success exactly when nothing failed or the share is within the threshold |
| Engine.ImpactCaseInsensitive | validoopsie/base/results_typedict.py:25 | two rules whose impacts differ only in letter case, with equal thresholds, give the same record |
| MinMax.MinMaxArgCheck | validoopsie/validation_catalogue/ValuesValidation/column_values_to_be_between.py:78 | a range rule is refused exactly when neither bound is given |
| MinMax.InsideIffBetween | validoopsie/validation_catalogue/ValuesValidation/column_values_to_be_between.py:92-105 | definitional: reads back `Outside` for two bounds; the rule-level fact is `ValuesValidation.BetweenInclusive` |
| MinMax.OpenEnds | validoopsie/validation_catalogue/StringValidation/length_to_be_between.py:107-122 | definitional: reads back `Outside` for one bound; the rule-level fact is `ValuesValidation.OneSidedBounds` |
| Frames.ColumnNamed | validoopsie/validation_catalogue/NullValidation/column_not_be_null.py:71-81 | a column lookup succeeds exactly when the frame has a column of that name; otherwise it is a column-not-found error for that name |
| Frames.Select | validoopsie/validation_catalogue/ValuesValidation/columns_sum_to_be_between.py:57-86 | `select` succeeds exactly when every name exists, and gives the columns in the order named |
| Frames.ConcatStr | validoopsie/validation_catalogue/UniqueValidation/column_unique_pair.py:79-84 | a joined key is null exactly when one of its parts is null, and text otherwise |
| Frames.ColumnCells | validoopsie/validation_catalogue/StringValidation/length_to_be_between.py:107-122 | the cells of a present column whose non-null values have the operation's type; a missing column or a wrongly typed value is an error |
| Grouping.GroupLenFacts | validoopsie/validation_catalogue/UniqueValidation/column_unique_pair.py:85-86 | `group_by(key).agg(nw.len())`: distinct keys, each counting exactly its rows, exactly the keys that occur, no empty group, counts summing to the row count |
| Grouping.GroupPick | validoopsie/validation_catalogue/UniqueValidation/column_unique_pair.py:78-88 | filter, group and `len()`: every surviving row's key is listed once, with the number of surviving rows carrying it; the counts sum to the survivors |
| Grouping.GroupPickNonNull | validoopsie/validation_catalogue/ValuesValidation/column_values_to_be_between.py:92-105 | filter, group and `count()`: as above, but the null group counts 0, so the counts sum to the surviving non-null rows |
| Grouping.CountNonNullShape | validoopsie/validation_catalogue/UniqueValidation/column_unique_value_count_to_be_between.py:87-89 | `count()` keeps the groups and their order, zeroing only the null group |
| Grouping.FilterTallies | validoopsie/validation_catalogue/UniqueValidation/column_unique_pair.py:87 | a filter over groups keeps exactly the groups that pass it, and keeps keys distinct |
| Grouping.FilterKeeps | validoopsie/validation_catalogue/UniqueValidation/column_unique_values_to_be_in_list.py:78-80 | a key whose groups pass the filter survives it |
| Grouping.FilterTalliesTotal | validoopsie/validation_catalogue/UniqueValidation/column_unique_pair.py:87 | filtering groups keeps at most the total |
| Grouping.GroupCountNoNulls | validoopsie/validation_catalogue/EqualityValidation/pair_column_equality.py:82-88 | when no surviving key is null, `count()` and `len()` agree |
| Grouping.CountByValue | validoopsie/validation_catalogue/DateValidation/date_to_be_between.py:89-100 | grouping a column by its own values after a null-dropping filter: exactly the distinct surviving values, each with its rows, summing to the survivors |
| Grouping.GroupMapped | validoopsie/validation_catalogue/EqualityValidation/pair_column_equality.py:90-99 | rewriting the keys after grouping keeps the total, and every key comes from a surviving row |
| Grouping.MapKeysTotal | validoopsie/validation_catalogue/EqualityValidation/pair_column_equality.py:90-99 | rewriting keys keeps every count |
| Grouping.TallyWitness | validoopsie/validation_catalogue/UniqueValidation/column_unique_pair.py:85-86 | every group stands for a surviving row with its key |
| ValuesValidation.ValuesOutside | validoopsie/validation_catalogue/ValuesValidation/column_values_to_be_between.py:92-105 | one group per distinct out-of-range value, counting its rows; nulls never violate; the counts sum to the out-of-range rows |
| ValuesValidation.ColumnValuesToBeBetweenQuery | validoopsie/validation_catalogue/ValuesValidation/column_values_to_be_between.py:92-105 | fails exactly when the column is missing or non-numeric; otherwise the out-of-range groups |
| ValuesValidation.ReportedIffOutside | validoopsie/validation_catalogue/ValuesValidation/column_values_to_be_between.py:92-105 | a number in the column is a reported group exactly when it lies outside the bounds |
| ValuesValidation.BetweenInclusive | validoopsie/validation_catalogue/ValuesValidation/column_values_to_be_between.py:92-105 | with both bounds, a number is reported exactly when it is not between them; both ends pass |
| ValuesValidation.OneSidedBounds | validoopsie/validation_catalogue/ValuesValidation/column_values_to_be_between.py:92-105 | with only `min_value` exactly the numbers below it are reported, with only `max_value` exactly those above it |
| ValuesValidation.ColumnValuesToBeBetweenMessage | validoopsie/validation_catalogue/ValuesValidation/column_values_to_be_between.py:85-90 | the fail message opens by naming the column in quotes |
| ValuesValidation.CombinedTarget | validoopsie/validation_catalogue/ValuesValidation/columns_sum_to_be_between.py:46 | the target id ends with "-combined" and starts with the first column; two columns `a`, `b` give "a-b-combined" |
| ValuesValidation.ColumnsSumToBeEqualToMessage | validoopsie/validation_catalogue/ValuesValidation/columns_sum_to_be_equal_to.py:68-70 | the fail message opens by listing the columns as a Python list |
| ValuesValidation.ColumnsSumToBeBetweenMessage | validoopsie/validation_catalogue/ValuesValidation/columns_sum_to_be_between.py:50-55 | the fail message opens by listing the columns as a Python list |
| ValuesValidation.ColumnsSumToBeLessEqualToMessage | validoopsie/validation_catalogue/ValuesValidation/columns_sum_to_be_less_equal_to.py:35-40 | the fail message opens by listing the columns as a Python list |
| ValuesValidation.ColumnsSumToBeGreaterEqualToMessage | validoopsie/validation_catalogue/ValuesValidation/columns_sum_to_be_greater_equal_to.py:37-42 | the fail message opens by listing the columns as a Python list |
| ValuesValidation.SumViolations | validoopsie/validation_catalogue/ValuesValidation/columns_sum_to_be_between.py:57-86 | one group per joined key of a row with a bad sum; every such row's key is listed; a row with a null cell counts nothing; the total is the bad rows minus the bad rows with a null key |
| ValuesValidation.SumQuery | validoopsie/validation_catalogue/ValuesValidation/columns_sum_to_be_equal_to.py:72-98 | an empty column list, a missing column or a non-numeric column raises; otherwise the bad-sum groups of the selected rows |
| ValuesValidation.ColumnsSumToBeEqualToQuery | validoopsie/validation_catalogue/ValuesValidation/columns_sum_to_be_equal_to.py:72-98 | every violating group comes from a row whose sum differs from the target |
| ValuesValidation.ColumnsSumToBeBetweenQuery | validoopsie/validation_catalogue/ValuesValidation/columns_sum_to_be_between.py:57-86 | every violating group comes from a row whose sum is outside the inclusive range |
| ValuesValidation.ColumnsSumToBeLessEqualToQuery | validoopsie/validation_catalogue/ValuesValidation/columns_sum_to_be_less_equal_to.py:42-72 | every violating group comes from a row whose sum exceeds `min_sum_value`; equality passes |
| ValuesValidation.ColumnsSumToBeGreaterEqualToQuery | validoopsie/validation_catalogue/ValuesValidation/columns_sum_to_be_greater_equal_to.py:44-70 | every violating group comes from a row whose sum is below `max_sum_value`; equality passes |
| StringValidation.LengthViolations | validoopsie/validation_catalogue/StringValidation/length_to_be_between.py:107-122 | one group per distinct string of bad length, counting its rows; nulls never violate; the counts sum to the bad rows |
| StringValidation.LengthQuery | validoopsie/validation_catalogue/StringValidation/length_to_be_equal_to.py:72-80 | fails exactly when the column is missing or non-string; otherwise the bad-length groups |
| StringValidation.LengthToBeBetweenQuery | validoopsie/validation_catalogue/StringValidation/length_to_be_between.py:107-122 | every violating string's length is outside the inclusive range |
| StringValidation.LengthToBeEqualToQuery | validoopsie/validation_catalogue/StringValidation/length_to_be_equal_to.py:72-80 | every violating string's length differs from the value |
| StringValidation.LengthToBeLessThanOrEqualToQuery | validoopsie/validation_catalogue/StringValidation/length_to_be_less_than_or_equal_to.py:41-49 | every violating string is longer than the maximum |
| StringValidation.LengthToBeBetweenMessage | validoopsie/validation_catalogue/StringValidation/length_to_be_between.py:100-105 | the fail message opens by naming the column in quotes |
| StringValidation.LengthToBeEqualToMessage | validoopsie/validation_catalogue/StringValidation/length_to_be_equal_to.py:65-70 | the fail message opens by naming the column in quotes |
| StringValidation.LengthToBeLessThanOrEqualToMessage | validoopsie/validation_catalogue/StringValidation/length_to_be_less_than_or_equal_to.py:34-39 | the fail message opens by naming the column in quotes |
| DateValidation.DatesOutside | validoopsie/validation_catalogue/DateValidation/date_to_be_between.py:89-100 | one group per distinct out-of-range date, counting its rows; nulls never violate; the counts sum to the out-of-range rows |
| DateValidation.DateToBeBetweenQuery | validoopsie/validation_catalogue/DateValidation/date_to_be_between.py:89-100 | fails exactly when the column is missing or not of dates; otherwise the out-of-range groups |
| DateValidation.DateToBeBetweenMessage | validoopsie/validation_catalogue/DateValidation/date_to_be_between.py:82-87 | the fail message opens by naming the column in quotes |
| DateValidation.FormatViolations | validoopsie/validation_catalogue/DateValidation/column_match_date_format.py:45-62 | one group per distinct string that the pattern `__call__` builds from the stored format rejects, counting its rows; every such string is listed; nulls never violate; the counts sum to the rejected rows |
| DateValidation.ColumnMatchDateFormatQuery | validoopsie/validation_catalogue/DateValidation/column_match_date_format.py:39-62 | fails exactly when the column is missing or non-string; otherwise the strings the built pattern rejects |
| DateValidation.DateFirstViolations | validoopsie/validation_catalogue/DateValidation/column_match_date_format.py:45-62 | for an empty format or one that starts with `Y`, `m` or `d`, the rule reports exactly the strings that do not conform to the format |
| DateValidation.CorrectedFormatViolations | validoopsie/validation_catalogue/DateValidation/column_match_date_format.py:45-62 | the rule with the pattern in format order reports exactly the strings that do not conform, whatever the format starts with |
| DateValidation.SlashYearRule | validoopsie/validation_catalogue/DateValidation/column_match_date_format.py:45-62 | on "/YYYY" the rule passes the non-conforming "2024/" and reports the conforming "/2024" |
| DateValidation.SlashYearCorrected | validoopsie/validation_catalogue/DateValidation/column_match_date_format.py:45-62 | on "/YYYY" the corrected rule reports "2024/" and passes "/2024" |
| DateValidation.ColumnMatchDateFormatMessage | validoopsie/validation_catalogue/DateValidation/column_match_date_format.py:35-37 | the fail message opens by naming the column in quotes (with the unique-values wording) |
| DateFormat.PrefixRun | validoopsie/validation_catalogue/DateValidation/column_match_date_format.py:45-46 | the longest prefix of one character kind (`[Ymd]` or not) |
| DateFormat.RunsPartition | validoopsie/validation_catalogue/DateValidation/column_match_date_format.py:45-46 | the maximal runs spell the format, are non-empty and alternate in kind |
| DateFormat.BuildPattern | validoopsie/validation_catalogue/DateValidation/column_match_date_format.py:45-54 | builds exactly the as-written pattern of the format |
| DateFormat.EmitPieces | validoopsie/validation_catalogue/DateValidation/column_match_date_format.py:48-53 | the loop emits date run `i` as digits, then separator `i` when there is one |
| DateFormat.EmitUpToInterleave | validoopsie/validation_catalogue/DateValidation/column_match_date_format.py:48-53 | after `i` rounds of the loop, what is left to emit is the interleaving of the remaining date runs and separators |
| DateFormat.EmitUpToAll | validoopsie/validation_catalogue/DateValidation/column_match_date_format.py:48-54 | all rounds together emit the whole interleaving |
| DateFormat.PatternOf | validoopsie/validation_catalogue/DateValidation/column_match_date_format.py:50-52 | one piece per run, in order |
| DateFormat.ConformsSplit | validoopsie/validation_catalogue/DateValidation/column_match_date_format.py:54 | conformance splits at any point of the format |
| DateFormat.CorrectPatternMatches | validoopsie/validation_catalogue/DateValidation/column_match_date_format.py:45-55 | the intended pattern accepts exactly the strings that conform to the format, in both directions |
| DateFormat.AsWrittenIsCorrectWhenDateFirst | validoopsie/validation_catalogue/DateValidation/column_match_date_format.py:45-54 | when the format is empty or starts with `Y`, `m` or `d`, the as-written pattern is the intended one |
| DateFormat.RunsOfSlashYear | validoopsie/validation_catalogue/DateValidation/column_match_date_format.py:45-46 | "/YYYY" splits into "/" and "YYYY" |
| DateFormat.LeadingSeparatorCounterexample | validoopsie/validation_catalogue/DateValidation/column_match_date_format.py:45-54 | for "/YYYY" the as-written pattern is `^\d{4}/$`: it rejects the conforming "/2024" and accepts "2024/" |
| DateFormat.NoDateLetters | validoopsie/validation_catalogue/DateValidation/column_match_date_format.py:45-54 | a format with no `Y`, `m` or `d` (such as "abc") builds `^$`: only the empty string matches, so the format itself is rejected |
| DateFormat.SlashYearPattern | validoopsie/validation_catalogue/DateValidation/column_match_date_format.py:45-54 | the as-written pattern of "/YYYY" is four digits, then "/" |
| DateFormat.SlashYearRejects | validoopsie/validation_catalogue/DateValidation/column_match_date_format.py:54-58 | "/2024" conforms to "/YYYY" but fails `^\d{4}/$` |
| DateFormat.SlashYearAccepts | validoopsie/validation_catalogue/DateValidation/column_match_date_format.py:54-58 | "2024/" does not conform to "/YYYY" but matches `^\d{4}/$` |
| UniqueValidation.ValueCounts | validoopsie/validation_catalogue/UniqueValidation/column_unique_value_count_to_be_between.py:87-89 | every value of the column is listed once, with its number of rows; the null group counts 0 |
| UniqueValidation.FrequencyViolations | validoopsie/validation_catalogue/UniqueValidation/column_unique_value_count_to_be_between.py:85-96 | exactly the values whose frequency is outside the range, each with its frequency; the null group is kept exactly when 0 is outside the range |
| UniqueValidation.ColumnUniqueValueCountToBeBetweenQuery | validoopsie/validation_catalogue/UniqueValidation/column_unique_value_count_to_be_between.py:85-96 | fails exactly when the column is missing; otherwise the frequency violations |
| UniqueValidation.ColumnUniqueValueCountToBeBetweenMessage | validoopsie/validation_catalogue/UniqueValidation/column_unique_value_count_to_be_between.py:78-83 | the fail message opens by naming the column in quotes |
| UniqueValidation.DuplicateCombinations | validoopsie/validation_catalogue/UniqueValidation/column_unique_pair.py:76-88 | each duplicated combination once, counting all rows carrying it (more than one); any two rows with the same combination put it in the result |
| UniqueValidation.RepeatedCounts | validoopsie/validation_catalogue/UniqueValidation/column_unique_pair.py:85-87 | every repeated group counts the rows carrying its key, more than one |
| UniqueValidation.RepeatedComplete | validoopsie/validation_catalogue/UniqueValidation/column_unique_pair.py:85-87 | two rows with the same key put that key among the repeated groups |
| UniqueValidation.ColumnUniquePairQuery | validoopsie/validation_catalogue/UniqueValidation/column_unique_pair.py:76-88 | fails exactly when a listed column is missing; otherwise the duplicated combinations |
| UniqueValidation.PairTarget | validoopsie/validation_catalogue/UniqueValidation/column_unique_pair.py:65 | the target id starts with the first column; two columns `a`, `b` give "a - b" |
| UniqueValidation.ColumnUniquePairMessage | validoopsie/validation_catalogue/UniqueValidation/column_unique_pair.py:69-74 | the fail message opens by showing the target id between brackets |
| UniqueValidation.UnlistedValues | validoopsie/validation_catalogue/UniqueValidation/column_unique_values_to_be_in_list.py:73-81 | exactly the distinct non-null values missing from the list, each with its rows; a null value is never reported |
| UniqueValidation.ColumnUniqueValuesToBeInListQuery | validoopsie/validation_catalogue/UniqueValidation/column_unique_values_to_be_in_list.py:73-81 | fails exactly when the column is missing; otherwise the unlisted values |
| UniqueValidation.ColumnUniqueValuesToBeInListMessage | validoopsie/validation_catalogue/UniqueValidation/column_unique_values_to_be_in_list.py:69-71 | the fail message opens by naming the column in quotes |
| NullValidation.NullGroups | validoopsie/validation_catalogue/NullValidation/column_not_be_null.py:71-81 | at most one group, the null key, summing to the number of null rows; no group exactly when the column has no null |
| NullValidation.ColumnNotBeNullQuery | validoopsie/validation_catalogue/NullValidation/column_not_be_null.py:71-81 | fails exactly when the column is missing; otherwise the null group |
| NullValidation.ColumnNotBeNullMessage | validoopsie/validation_catalogue/NullValidation/column_not_be_null.py:67-69 | the fail message opens by naming the column in quotes |
| NullValidation.PresentValues | validoopsie/validation_catalogue/NullValidation/column_be_null.py:71-80 | one group per distinct non-null value, counting its rows; the counts sum to the non-null rows |
| NullValidation.ColumnBeNullQuery | validoopsie/validation_catalogue/NullValidation/column_be_null.py:71-80 | fails exactly when the column is missing; otherwise the non-null groups |
| NullValidation.ColumnBeNullMessage | validoopsie/validation_catalogue/NullValidation/column_be_null.py:67-69 | the fail message opens by naming the column in quotes |
| NullValidation.PickSplit | validoopsie/validation_catalogue/NullValidation/column_be_null.py:75-77 | every row is either null or present |
| NullValidation.AllNullFailsNotBeNull | validoopsie/validation_catalogue/NullValidation/column_not_be_null.py:71-81 | a column of nulls fails `ColumnNotBeNull` on every row |
| NullValidation.AllNullPassesBeNull | validoopsie/validation_catalogue/NullValidation/column_be_null.py:71-80 | a column of nulls gives `ColumnBeNull` nothing to count |
| EqualityValidation.Pairs | validoopsie/validation_catalogue/EqualityValidation/pair_column_equality.py:83-85 | row `i` pairs the two columns' cells of row `i` |
| EqualityValidation.KeptIsUnequal | validoopsie/validation_catalogue/EqualityValidation/pair_column_equality.py:83-85 | the filter keeps exactly the rows where both values are present and differ |
| EqualityValidation.CombinePresent | validoopsie/validation_catalogue/EqualityValidation/pair_column_equality.py:90-99 | a differing pair joins into a present key |
| EqualityValidation.CombinedViolations | validoopsie/validation_catalogue/EqualityValidation/pair_column_equality.py:82-101 | grouped by the pair: the counts sum to the differing rows, every key is the joined pair of a differing row, and every differing row's joined pair is listed |
| EqualityValidation.SingleViolations | validoopsie/validation_catalogue/EqualityValidation/pair_column_equality.py:82-101 | grouped by the checked column: one group per differing value, counting its rows, summing to the differing rows |
| EqualityValidation.PairColumnEqualityQuery | validoopsie/validation_catalogue/EqualityValidation/pair_column_equality.py:75-101 | fails exactly when a column is missing or a row compares values of different kinds; otherwise the combined or the single grouping, as the flag says |
| EqualityValidation.PairColumnEqualityMessage | validoopsie/validation_catalogue/EqualityValidation/pair_column_equality.py:68-73 | the fail message opens by naming the checked column in quotes |
| TypeValidation.FirstBad | validoopsie/validation_catalogue/TypeValidation/type_check.py:107-108 | the first declared type outside the DType hierarchy, with every earlier one inside; none exactly when all are inside |
| TypeValidation.CheckDefinition | validoopsie/validation_catalogue/TypeValidation/type_check.py:107-108 | the loop stops at exactly that first bad declaration |
| TypeValidation.InitOutcome | validoopsie/validation_catalogue/TypeValidation/type_check.py:89-133 | a truthy column with a type gives the single mode, failing exactly when the type is not a DType; no column, no type and a non-empty declaration give the schema mode, failing exactly when some type is not a DType; the ValueError happens exactly in every other case, with the tuple text |
| TypeValidation.NewTypeCheck | validoopsie/validation_catalogue/TypeValidation/type_check.py:89-119 | the constructor succeeds and fails exactly as `InitOutcome` says, with the same error, and sets the fields it gives |
| TypeValidation.TypeCheck.constructor | validoopsie/validation_catalogue/TypeValidation/type_check.py:99-119 | the fields hold the configuration, and no schema width is recorded yet |
| TypeValidation.TypeCheck.Settings | validoopsie/validation_catalogue/TypeValidation/type_check.py:99-133 | the configuration of a constructed check is a non-empty declaration of DType subclasses, either in schema mode or with a column type |
| TypeValidation.TypeCheck.Call | validoopsie/validation_catalogue/TypeValidation/type_check.py:149-169 | records the schema width, keeps the configuration, and returns exactly the failing columns in declaration order |
| TypeValidation.FailingColumns | validoopsie/validation_catalogue/TypeValidation/type_check.py:154-165 | the loop appends exactly the failing declared columns, in order |
| TypeValidation.TypeFailures | validoopsie/validation_catalogue/TypeValidation/type_check.py:154-165 | never more failures than declarations |
| TypeValidation.TypeFailuresMembers | validoopsie/validation_catalogue/TypeValidation/type_check.py:155-165 | a name is listed exactly when a declaration of it is missing from the schema or not met by its dtype |
| TypeValidation.TypeFailuresStep | validoopsie/validation_catalogue/TypeValidation/type_check.py:155-165 | one more declaration adds its own failure in front of the rest |
| TypeValidation.MissingColumnFails | validoopsie/validation_catalogue/TypeValidation/type_check.py:157-159 | a declared column the schema lacks always fails |
| TypeValidation.PresentColumnFailsIff | validoopsie/validation_catalogue/TypeValidation/type_check.py:161-165 | a present column fails exactly when its dtype is not an instance of one of its declared classes |
| TypeValidation.ConfigFailMessage | validoopsie/validation_catalogue/TypeValidation/type_check.py:135-147 | the schema text for the schema mode, otherwise the column and its expected class |
| TypeValidation.ColumnFailMessage | validoopsie/validation_catalogue/TypeValidation/type_check.py:144-147 | the single-column fail message opens by naming the column in quotes |
| TypeValidation.FailureTallies | validoopsie/validation_catalogue/TypeValidation/type_check.py:167-169 | one row per failing column, each counting 1, summing to the number of failures |
| TypeValidation.TypeCheckQuery | validoopsie/validation_catalogue/TypeValidation/type_check.py:149-169 | never raises; counts the failures; a name is a failing item exactly when one of its declarations fails |
| DTypes.SubclassTransitive | validoopsie/validation_catalogue/TypeValidation/type_check.py:164 | `issubclass` is transitive |
| DTypes.DTypeIsRoot | validoopsie/validation_catalogue/TypeValidation/type_check.py:128 | exactly the hierarchy's classes are DTypes |
| DTypes.ConcreteLeaves | validoopsie/validation_catalogue/TypeValidation/type_check.py:164 | a concrete dtype is never an instance of a different concrete dtype |
| DTypes.AncestorsAbstract | validoopsie/validation_catalogue/TypeValidation/type_check.py:164 | no abstract class is a subclass of a concrete one |
| Catalogue.Admit | validoopsie/validation_catalogue/UniqueValidation/column_unique_pair.py:62 | range rules are refused exactly without bounds; the pair rule exactly with no columns; the type check exactly on a configuration its constructor cannot produce, with the TypeError exactly when a declared class lies outside DType (type_check.py:128-133) and the mode ValueError otherwise; every other rule is admitted unchanged |
| Catalogue.TypeCheckRule | validoopsie/validation_catalogue/TypeValidation/type_check.py:89-119 | a type check is built exactly when its constructor succeeds, and is then admitted |
| Catalogue.ClassName | validoopsie/validate.py:103 | the class name is non-empty and holds no underscore |
| Catalogue.TargetId | validoopsie/validation_catalogue/TypeValidation/type_check.py:101-119 | the checked column for a one-column rule, the dash-joined columns plus "-combined" for a sum rule (columns_sum_to_be_between.py:46), the " - "-joined columns for the pair rule (column_unique_pair.py:65), the configured target of a type check |
| Catalogue.RecordKey | validoopsie/validate.py:103 | the key is `ClassName_target`, and never "Summary" |
| Catalogue.RecordKeyInjective | validoopsie/validate.py:103-117 | two records share a key exactly when their rules share class name and target id, so `results.update` replaces only a rerun of the same check |
| Catalogue.FailMessage | validoopsie/validation_catalogue/NullValidation/column_not_be_null.py:67-69 | every one-column rule's fail message opens by naming its column in quotes |
| Catalogue.FailMessageNamesTarget | validoopsie/validation_catalogue/UniqueValidation/column_unique_pair.py:69-74 | a sum rule's message lists its columns, the pair rule's shows its target id, a type check's is its configuration's |
| Catalogue.Query | validoopsie/validation_catalogue/NullValidation/column_not_be_null.py:71-81 | a one-column rule on a column the frame lacks raises ColumnNotFoundError naming it (each rule's `__call__` selects its column first); a type check never raises |
| Catalogue.Denominator | validoopsie/validation_catalogue/TypeValidation/type_check.py:152-153 | the failing share is over the schema width for a type check and over the rows otherwise |
| Catalogue.Run | validoopsie/validate.py:100-103 | the record names the rule's class and target; a raising query fails; otherwise the check fails exactly when the decision over its violation total fails, with the rule's fail message |
| Catalogue.NoViolationsPass | tests/test_validation_catalogue/test_UniqueValidation/test_column_unique_pair.py:29-34 | a rule whose query finds nothing passes, whatever its threshold |
| Catalogue.QueryErrorFails | tests/test_validation_catalogue/test_UniqueValidation/test_column_unique_pair.py:104-109 | a rule whose query raises fails, with the error text as its message |
| Catalogue.MissingColumnFails | validoopsie/validate.py:100-103 | a one-column rule on a missing column fails its check with the ColumnNotFoundError text, whatever its threshold |

## Left out

- Rule discovery (validate.py:28-91). The reflection that attaches one method per catalogue class is replaced by the explicit `Catalogue.Rule` datatype. `args[1:]` dropping the namespace object is therefore not modelled.
- Logging. The loguru calls become the returned `LogLine` list.
- The frame backend. Frames are abstract: integer, string and date cells, plus null. Floating point values are left out, and dates are day ordinals. A key joined with `concat_str` (`ColumnUniquePair`, `PairColumnEquality`) therefore shows a date as its ordinal, such as "19723", where the backend writes ISO text; keys stay equal exactly when the cells are, so only the failing-items text differs.
- The backend's errors are reduced to a column not found or an invalid operation. The type rules that decide when an operation raises (a comparison, a sum, `str.len_chars()`) are stated by `Frames.ColumnCells` and `EqualityValidation.Incomparable`.
- The rules' shared base class is not part of this model. `Engine.Execute` reconstructs it from the documented examples and tests. Its pass message text is a placeholder. An empty frame gives a failing share of 0.
- `min_max_arg_check` and `min_max_filter` (validoopsie/util) are not part of this model. `MinMax` states what the rules rely on.
- The date rule does not escape separators with `re.escape`. Its pattern pieces are literals, and `\d` is taken as the ASCII digits.
- Python `repr` is simplified. Strings are quoted with single quotes, and quotes inside them are not escaped.
- TypeValidation.ConfigFailMessage: it writes the class's name where the source writes the class's `repr` (`<class '...'>`).
- Engine.Execute: the rules' shared base class is not part of this model, so two of its choices are reconstructed. The record stores the impact lower-cased, read off the lower-case `Literal["high","medium","low"]` of results_typedict.py:25; `Engine.ImpactCaseInsensitive` holds because of that choice. The documented refusal of a threshold outside [0, 1] at construction is not checked, and any real threshold is accepted. `Common.Lower` lower-cases ASCII letters only, where Python's `str.lower` covers Unicode; the "high" and "medium" comparisons of validate.py:134-135 come out the same either way.
- Engine.FailedPercentage, Engine.Decide: the failing share is an exact rational, not a Python float division. At a rounding boundary the two differ: 1 failing row of 3 with threshold 0.3333333333333333 passes in the source, because 1/3 rounds to that float, and fails in the model.
- TypeValidation.Config: `frame_schema_definition` is a dict, so its column names are distinct. The model's declaration list admits repeated names; no contract relies on them being distinct.
- The timestamp of a record is a parameter. The clock is not modelled.
- `is_in` on a list that mixes value types, and `sum_horizontal` over floats, are not modelled.
- ValuesValidation.ColumnsSumToBeEqualToQuery, ValuesValidation.ColumnsSumToBeBetweenQuery, ValuesValidation.ColumnsSumToBeLessEqualToQuery, ValuesValidation.ColumnsSumToBeGreaterEqualToQuery: each states only that every reported group comes from a violating row. The error cases, completeness and counts are stated once, by `ValuesValidation.SumQuery` and `ValuesValidation.SumViolations`.
- StringValidation.LengthToBeBetweenQuery, StringValidation.LengthToBeEqualToQuery, StringValidation.LengthToBeLessThanOrEqualToQuery: each states only the violating lengths. The rest is stated by `StringValidation.LengthQuery` and `StringValidation.LengthViolations`.
- The groups come in order of first occurrence. The backends promise no order, and no contract depends on it.
- Re-running a check under an existing key keeps the key's position, as `dict.update` does. `validate()` scans the report in that order.

## Findings

| source | as written | input that shows it | evidently intended | confidence | as-written member | corrected member |
|---|---|---|---|---|---|---|
| validoopsie/validation_catalogue/DateValidation/column_match_date_format.py:45-54 | the pattern emits date run `i`, then separator `i`, whatever the format's first character | format "/YYYY" builds `^\d{4}/$`, which rejects the conforming "/2024" and accepts "2024/" | the format's runs in format order, so "/YYYY" builds `^/\d{4}$` | not executed | DateValidation.SlashYearRule | DateValidation.CorrectedFormatViolations |
