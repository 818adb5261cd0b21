# Traffic oracle mock, modelled in Dafny

This project models the in-memory traffic-oracle contract `TrafficOracleMock`
(`tests/TrafficOracle.test.ts`). Users submit GPS traffic reports. The mock
checks each report against eleven guards, in a fixed order. It stores
accepted reports under consecutive ids and indexes them by a location hash,
so there is at most one report per place. It logs a fee transfer to the
bound authority contract and counts each user's submissions. A report may be
marked validated when its reporter is the caller and the validator is a
verified authority.

The project has two layers.

- **State machine** (`traffic_oracle.dfy`, module `TrafficOracle`).
  - `State` holds every field of the mock.
  - Each operation is a function from a state to a `Step`: the reply plus
    the state after the call. A rejected call returns its input state.
  - The submission guards are an ordered table `SubmitChecks`;
    `FirstFailure` picks the first guard that fails.
  - `Apply`/`Run` replay a sequence of calls, `reset` included. The tests
    also write `caller` directly (`tests/TrafficOracle.test.ts:246`), which
    `SetCallerCall` models. `SetBlockHeightCall` models a write to
    `blockHeight` that the mock leaves to its user: the mock itself sets that
    field only in its initializer and in `reset`.
  - `Invariant` is the property every reachable state keeps:
    - the ids run without gaps from 0 up to the counter;
    - every stored report is well formed;
    - the location index is exact, one id per key;
    - there is one fee transfer per report, from its reporter to the bound
      contract;
    - each user's counter equals the number of that user's reports.
- **The object** (`oracle_mock.dfy`, class `OracleMock.TrafficOracleMock`).
  - The class has the mock's own layout: a `state` record plus
    `blockHeight`, `caller`, `authorities` and `stxTransfers`.
  - Each mutating method updates those fields in place. It is proved to
    produce exactly the state the matching transition function describes,
    and to keep `Valid()` (the invariant on its fields).
  - The read-only operations are functions reading the object.

Other files:

- `traffic_oracle_properties.dfy` holds the lemmas.
- `location_hash.dfy` holds two location hashers: the mock's hasher as
  written, and a corrected one. See "Findings".
- `scenarios.dfy` replays the repository's test cases and an end-to-end run.

Modelling choices:

- The location hasher is a parameter (`LocationHasher = (int, int) -> string`).
  The object receives it at construction.
- Coordinates, speeds, congestion values and fees are mathematical integers.
- `isUserRegistered` is the mock's constant-true stub.
- An authority contract bound to `""` has been set, yet it counts as unbound.
  This follows the mock's truthiness test (`IsBound`).

Behaviour of the mock's code that a reader might not expect:

- No setter checks the caller. `setSpeedLimits` does not even check that an
  authority contract is bound.
- The fee transfer is only a log entry and cannot fail.
- Validation and the setters reply `false` rather than an error code.
- Validation compares the reporter against the mock's `caller`.
- There are no codes for a reserved principal, for a contract already bound,
  or for an out-of-range setting.
- `reportsByLocation` appends to a list. The duplicate guard keeps every
  list at exactly one id.
- `setSpeedLimits` does not require `min <= max`. It also rejects
  `min <= 0`, so the initial minimum of 0 can never be restored, except by a reset.

## Model

| member | source | states |
|---|---|---|
| TrafficOracle.Error.Code | tests/TrafficOracle.test.ts:4-16 | every error has a numeric code between 100 and 112 |
| TrafficOracleProperties.ErrorCodesDistinct | tests/TrafficOracle.test.ts:4-16 | two errors have the same code exactly when they are the same error |
| TrafficOracle.FirstFailure | tests/TrafficOracle.test.ts:132-143 | the result is None exactly when every guard passes; otherwise it is the error of a guard that fails |
| TrafficOracleProperties.FirstFailureAt | tests/TrafficOracle.test.ts:132-143 | when guard k fails and every earlier guard passes, guard k's error is the result |
| TrafficOracleProperties.SubmitFirstFailingGuardDecides | tests/TrafficOracle.test.ts:132-143 | a submission whose first failing guard is k returns that guard's error and leaves the state unchanged |
| TrafficOracleProperties.SubmitAcceptsIffAllGuardsPass | tests/TrafficOracle.test.ts:132-143 | a submission is accepted exactly when all eleven guards pass; a rejected one changes nothing, the transfer log included |
| TrafficOracleProperties.TimestampGuardUnreachable | tests/TrafficOracle.test.ts:133 | no submission ever fails with InvalidTimestamp |
| TrafficOracleProperties.GpsOutOfBoundsRejected | tests/TrafficOracle.test.ts:134 | out-of-range coordinates fail with InvalidGps and change nothing, unless the store is full |
| TrafficOracleProperties.SpeedOutOfConfiguredBoundsRejected | tests/TrafficOracle.test.ts:135 | a speed outside the currently configured bounds fails with InvalidSpeed, given the earlier guards pass |
| TrafficOracleProperties.SubmitEffects | tests/TrafficOracle.test.ts:145-169 | an accepted submission returns the old next id and stores the report there; it indexes the report under its location, appends one fee transfer to the bound contract, upserts only the caller's counter, advances the id, and leaves every other field unchanged |
| TrafficOracleProperties.DuplicateLocationRejected | tests/TrafficOracle.test.ts:141 | the call right after a report is stored at some coordinates, if it submits at the same coordinates, fails and changes nothing; it fails with ReportAlreadyExists once the earlier guards pass |
| TrafficOracleProperties.StoredLocationRejected | tests/TrafficOracle.test.ts:141 | in any state that keeps the invariant, so after any history, a submission at the coordinates of a stored report fails and changes nothing; it fails with ReportAlreadyExists once the earlier guards pass |
| TrafficOracleProperties.SubmitChecksUnfold | tests/TrafficOracle.test.ts:132-143 | the guard table has eleven entries, each the condition and error of the corresponding guard; the timestamp and registration guards always pass |
| TrafficOracleProperties.InitialInvariant | tests/TrafficOracle.test.ts:54-66 | the fresh state keeps the invariant |
| TrafficOracleProperties.SubmitAdmitted | tests/TrafficOracle.test.ts:132-169 | an accepted submission had a bound contract, spare capacity, a well-formed report and an unused location key, and its effect is the commit step |
| TrafficOracleProperties.RecordKeepsIds | tests/TrafficOracle.test.ts:147-168 | the commit step keeps the ids gap-free and within capacity |
| TrafficOracleProperties.RecordKeepsWellFormed | tests/TrafficOracle.test.ts:148-160 | the commit step stores only well-formed reports |
| TrafficOracleProperties.RecordKeepsIndex | tests/TrafficOracle.test.ts:160-162 | the commit step keeps the location index exact: one id per key, and every report indexed |
| TrafficOracleProperties.RecordKeepsTransfers | tests/TrafficOracle.test.ts:145 | the commit step keeps one transfer per report, from its reporter to the bound contract |
| TrafficOracleProperties.SubmittedByAfterInsert | tests/TrafficOracle.test.ts:160 | storing a report at a fresh id adds that id to its reporter's reports and to no one else's |
| TrafficOracleProperties.RecordKeepsCounters | tests/TrafficOracle.test.ts:163-167 | the commit step keeps each user's counter equal to the number of that user's reports |
| TrafficOracleProperties.SubmitPreservesInvariant | tests/TrafficOracle.test.ts:124-170 | a submission, accepted or not, keeps the invariant |
| TrafficOracleProperties.FlagsOnlyDifferKeepsReports | tests/TrafficOracle.test.ts:189 | changing only validated flags keeps the ids, the well-formedness of the reports and the location index |
| TrafficOracleProperties.FlagsOnlyDifferKeepsLedger | tests/TrafficOracle.test.ts:189 | changing only validated flags keeps the transfer log and the counters consistent |
| TrafficOracleProperties.MarkValidatedKeepsInvariant | tests/TrafficOracle.test.ts:189 | setting a stored report's validated flag keeps the invariant |
| TrafficOracleProperties.ValidatePreservesInvariant | tests/TrafficOracle.test.ts:184-191 | validation, successful or not, keeps the invariant |
| TrafficOracleProperties.BindPreservesInvariant | tests/TrafficOracle.test.ts:100-109 | binding the authority contract keeps the invariant, since it succeeds only while no report exists |
| TrafficOracleProperties.RecordsUntouchedKeepInvariant | tests/TrafficOracle.test.ts:111-122 | a change that leaves the reports, index, counters, log and ids alone, and rebinds only while no report exists, keeps the invariant |
| TrafficOracleProperties.ApplyPreservesInvariant | tests/TrafficOracle.test.ts:77-191 | every single call keeps the invariant: each operation, a harness write to caller or block height, or a reset |
| TrafficOracleProperties.RunPreservesInvariant | tests/TrafficOracle.test.ts:77-191 | any sequence of calls from a state that keeps the invariant ends in one that keeps it |
| TrafficOracleProperties.ReachableStatesKeepInvariant | tests/TrafficOracle.test.ts:73-93 | every state reachable from a fresh mock keeps the invariant |
| TrafficOracleProperties.IdsBelow | tests/TrafficOracle.test.ts:197-199 | the set of ids below n has exactly n elements |
| TrafficOracleProperties.ReportCountIsSize | tests/TrafficOracle.test.ts:197-199 | the report count (the next id) equals the number of stored reports |
| TrafficOracleProperties.LocationIndexIsExact | tests/TrafficOracle.test.ts:201-203 | a location key is indexed exactly when some stored report has that location hash |
| TrafficOracleProperties.LocationHashesUnique | tests/TrafficOracle.test.ts:141 | no two stored reports share a location hash |
| TrafficOracleProperties.ValidateOutcome | tests/TrafficOracle.test.ts:184-191 | validation succeeds exactly when the report exists, the caller is its reporter and the validator is an authority; on success only that report's flag becomes true, otherwise nothing changes |
| TrafficOracleProperties.ValidateIdempotent | tests/TrafficOracle.test.ts:189 | validating a report again succeeds and changes nothing |
| TrafficOracleProperties.BindOutcome | tests/TrafficOracle.test.ts:100-109 | binding succeeds exactly for a principal other than the burn address while no contract is set, and then sets only the contract |
| TrafficOracleProperties.SetSubmissionFeeOutcome | tests/TrafficOracle.test.ts:111-115 | the fee setter succeeds exactly when a non-empty contract is bound, and then sets only the fee |
| TrafficOracleProperties.SetSpeedLimitsOutcome | tests/TrafficOracle.test.ts:117-122 | the speed setter succeeds exactly when 0 < min and max < 300, whatever the authority contract; it then sets only the two limits |
| TrafficOracleProperties.EmptyContractLocksOut | tests/TrafficOracle.test.ts:104 | with the contract bound to "", rebinding, setting the fee and submitting all fail |
| TrafficOracleProperties.AuthorityNeverRebound | tests/TrafficOracle.test.ts:104-107 | once set, the authority contract is unchanged by any calls short of a reset |
| TrafficOracleProperties.ApplyOnlyGainsValidation | tests/TrafficOracle.test.ts:160-189 | one call other than a reset removes no report, does not lower the count, changes a report only in its flag, and never clears a flag |
| TrafficOracleProperties.ReportsOnlyGainValidation | tests/TrafficOracle.test.ts:160-189 | the same over any sequence of calls without a reset |
| OracleMock.TrafficOracleMock.constructor | tests/TrafficOracle.test.ts:73-75 | a new mock is in the initial state and valid |
| OracleMock.TrafficOracleMock.Reset | tests/TrafficOracle.test.ts:77-93 | every field is back to its initial value and the mock is valid |
| OracleMock.TrafficOracleMock.IsVerifiedAuthority | tests/TrafficOracle.test.ts:95-97 | true exactly for members of the authority set; with any other validator no validation can succeed |
| OracleMock.TrafficOracleMock.SetAuthorityContract | tests/TrafficOracle.test.ts:100-109 | the reply and the new fields are those of BindAuthorityContract, and validity is kept |
| OracleMock.TrafficOracleMock.SetSubmissionFee | tests/TrafficOracle.test.ts:111-115 | the reply and the new fields are those of SetSubmissionFee, and validity is kept |
| OracleMock.TrafficOracleMock.SetSpeedLimits | tests/TrafficOracle.test.ts:117-122 | the reply and the new fields are those of SetSpeedLimits, and validity is kept |
| OracleMock.TrafficOracleMock.SubmissionGuard | tests/TrafficOracle.test.ts:132-143 | the if-chain on the fields returns the first failing guard's error from the guard table, or None |
| OracleMock.TrafficOracleMock.SubmitTrafficReport | tests/TrafficOracle.test.ts:124-170 | the reply and the new fields are those of Submit, and validity is kept |
| OracleMock.TrafficOracleMock.Commit | tests/TrafficOracle.test.ts:145-169 | it returns the old next id and leaves the fields in the state the commit step describes |
| OracleMock.TrafficOracleMock.GetReport | tests/TrafficOracle.test.ts:180-182 | a report is returned exactly for ids 0 up to the count; it is the stored one, it is well formed, and its location is indexed |
| OracleMock.TrafficOracleMock.ValidateReport | tests/TrafficOracle.test.ts:184-191 | the reply and the new fields are those of Validate, and validity is kept |
| OracleMock.TrafficOracleMock.GetReportCount | tests/TrafficOracle.test.ts:197-199 | the count is the number of stored reports, and the ids 0 up to the count are exactly the stored ones |
| OracleMock.TrafficOracleMock.CheckReportExistence | tests/TrafficOracle.test.ts:201-203 | true exactly when some stored report has the given location hash |
| LocationHash.MockLocationHashShort | tests/TrafficOracle.test.ts:172-174 | for in-range integer coordinates the mock's hash has at most 19 characters |
| LocationHash.MockHashedSubmissionsAlwaysFail | tests/TrafficOracle.test.ts:139-140 | with the mock's hasher every submission fails, from any state |
| LocationHash.MockLocationHashOfTestCoordinates | tests/TrafficOracle.test.ts:172-174 | the integer stand-ins (40, -74) for the tests' coordinates hash to "mock-sha256-40-74", 17 characters |
| LocationHash.PaddedLocationHash | tests/TrafficOracle.test.ts:172-174 | the corrected hash is always 64 characters long |
| LocationHash.Digits3RoundTrip | tests/TrafficOracle.test.ts:172-174 | three-digit encoding followed by parsing gives the number back |
| LocationHash.PaddedLocationHashRoundTrip | tests/TrafficOracle.test.ts:172-174 | decoding the corrected hash of in-range coordinates gives those coordinates |
| LocationHash.PaddedLocationHashInjective | tests/TrafficOracle.test.ts:172-174 | distinct in-range coordinates have distinct corrected hashes |
| TrafficOracleProperties.StoredCoordinatesUnique | tests/TrafficOracle.test.ts:141 | for every hasher, no two stored reports have the same coordinates |
| LocationHash.FreshCoordinatesNotRefusedAsDuplicate | tests/TrafficOracle.test.ts:141 | with the corrected hasher, a submission at in-range coordinates that no stored report has never fails with ReportAlreadyExists; with StoredLocationRejected, the duplicate guard refuses exactly the stored coordinates |
| Scenarios.BindsSecondContract | tests/TrafficOracle.test.ts:216 | binding "ST2TEST" on a fresh mock succeeds and sets the contract |
| Scenarios.RejectsInvalidGps | tests/TrafficOracle.test.ts:215-220 | the test's run replies true, then InvalidGps, with any hasher |
| Scenarios.RejectsInvalidSpeed | tests/TrafficOracle.test.ts:222-227 | the test's run replies true, then InvalidSpeed, with any hasher |
| Scenarios.RejectsInvalidIncident | tests/TrafficOracle.test.ts:229-234 | the test's run replies true, then InvalidIncident, with any hasher |
| Scenarios.RejectsValidationOfMissingReport | tests/TrafficOracle.test.ts:236-241 | the test's run replies true, then false |
| Scenarios.NonReporterTestAsWritten | tests/TrafficOracle.test.ts:243-250 | as written, the test's submission fails with InvalidDataHash, so report 0 does not exist when validation is refused |
| Scenarios.FirstSubmissionStored | tests/TrafficOracle.test.ts:145-169 | with a hasher giving 64 characters, the submission at (40, -74) is stored as report 0; it is unvalidated, has one transfer, and sets the caller's counter to (1, 0) |
| Scenarios.NonReporterTestCorrected | tests/TrafficOracle.test.ts:243-250 | with a 64-character data hash, report 0 is stored, and another caller's validation is refused by the reporter check even with a verified validator |
| Scenarios.SetsSubmissionFee | tests/TrafficOracle.test.ts:252-258 | the test's run replies true twice and the fee becomes 100 |
| Scenarios.EndToEnd | tests/TrafficOracle.test.ts:100-203 | bind, submit, a duplicate submit and a validation reply true, Ok(0), ReportAlreadyExists and true; they leave one transfer, one validated report and the caller's counter at (1, 0) |

`Scenarios.EndToEndOnObject` drives the same run through the object built
with the corrected hasher, asserting each reply.

## Left out

- Floating point: coordinates are integers. The tests' 40.7128 and -74.0060
  appear as 40 and -74.
- The mock's hasher builds its string with JavaScript's number-to-string
  conversion. The model uses the decimal form of an integer. Fractional
  coordinates, whose string forms are longer, are not modelled.
- String lengths are counted in characters. JavaScript counts UTF-16 code
  units, which differ only outside the Basic Multilingual Plane.
- The STX transfer is the mock's log append. No balance or failure of a real
  transfer is modelled.
- `isUserRegistered` is the mock's constant-true stub. Its guard can never
  fail.
- The codes ERR_NOT_AUTHORIZED, ERR_INVALID_LOCATION and ERR_REPORT_NOT_FOUND
  are declared in the source but never returned. They appear only as
  constructors of `Error`.
- The `{ ok, value }` result wrapper: an operation's reply is modelled as
  its value, and `ok` is implied by it.
- The Clarity value-parsing test (`tests/TrafficOracle.test.ts:260-273`)
  exercises an external library, not the mock.
- The test runner itself (`describe`/`it`/`expect`) is not modelled. Each
  test case is a lemma over a sequence of calls from a fresh mock.
- Aliasing: the JavaScript maps inside `state` are mutated in place. The
  model reassigns them as values, since no other reference to them exists.

## Findings

| source | as written | input that shows it | evidently intended | confidence | as-written member | corrected member |
|---|---|---|---|---|---|---|
| tests/TrafficOracle.test.ts:172-174 | the location hash is "mock-sha256-" followed by the two coordinates in decimal. The guard at line 140 requires exactly 64 characters, and for in-range integer coordinates the string has at most 19, so every submission is rejected. The conclusion also holds for any in-range JavaScript number: each coordinate prints as at most 25 characters, so the hash has at most 12 + 25 + 25 = 62, and NaN passes the GPS guard but hashes to 18 characters | integer coordinates (40, -74) give "mock-sha256-40-74", which is 17 characters; the tests' (40.7128, -74.0060) give "mock-sha256-40.7128-74.006", which is 26 | a fixed-width 64-character digest of the coordinates, so that valid reports can be stored and deduplicated by place | not executed | LocationHash.MockHashedSubmissionsAlwaysFail | LocationHash.PaddedLocationHashRoundTrip |
| tests/TrafficOracle.test.ts:243-250 | the non-reporter test submits with the 5-character data hash "hash1". That submission fails, so the validation is refused because report 0 does not exist, and the reporter check is never reached | the test's own calls: submitTrafficReport(40.7128, -74.0060, 60, 30, "none", "hash1"), then validateReport(0, "ST3FAKE") as caller "ST3FAKE" | store report 0 first (a 64-character data hash and a hasher giving 64 characters), then show that validation by another caller fails on the reporter check | not executed | Scenarios.NonReporterTestAsWritten | Scenarios.NonReporterTestCorrected |
