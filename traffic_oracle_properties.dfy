/**
 * Properties of the traffic oracle's state machine: the order of the
 * submission guards, the effects of each operation, and the invariant that
 * every state reachable from a fresh (or reset) mock keeps.
 */
module TrafficOracleProperties {
  import opened Wrappers
  import opened TrafficOracle

  /** Distinct errors have distinct numeric codes. */
  lemma ErrorCodesDistinct(e1: Error, e2: Error)
    ensures e1.Code() == e2.Code() <==> e1 == e2
  {
  }

  // ---------------------------------------------------------------------
  // Guard order
  // ---------------------------------------------------------------------

  /** When guard `k` is the first to fail, its error is the result. */
  lemma {:induction false} FirstFailureAt(cs: seq<Check>, k: nat)
    requires k < |cs| && !cs[k].passes
    requires forall j :: 0 <= j < k ==> cs[j].passes
    ensures FirstFailure(cs) == Some(cs[k].error)
  {
    if k > 0 {
      assert cs[0].passes;
      assert forall j :: 0 <= j < k - 1 ==> cs[1..][j] == cs[j + 1];
      FirstFailureAt(cs[1..], k - 1);
    }
  }

  /** The guard table entry by entry: the condition each guard tests and the error it raises. */
  lemma SubmitChecksUnfold(s: State, hash: LocationHasher, a: Submission)
    ensures var cs := SubmitChecks(s, hash, a); var locHash := hash(a.latitude, a.longitude);
      && |cs| == 11
      && cs[0] == Check(s.nextReportId < s.maxReports, MaxReportsExceeded)
      && cs[1].passes
      && cs[2] == Check(GpsInBounds(a.latitude, a.longitude), InvalidGps)
      && cs[3] == Check(s.minSpeed <= a.speed <= s.maxSpeed, InvalidSpeed)
      && cs[4] == Check(s.minCongestion <= a.congestion <= s.maxCongestion, InvalidCongestion)
      && cs[5] == Check(a.incident in IncidentTypes, InvalidIncident)
      && cs[6] == Check(|a.dataHash| == HashLength, InvalidDataHash)
      && cs[7] == Check(|locHash| == HashLength, InvalidDataHash)
      && cs[8] == Check(locHash !in s.reportsByLocation, ReportAlreadyExists)
      && cs[9].passes
      && cs[10] == Check(IsBound(s), OracleNotVerified)
  {
  }

  /** A submission whose first failing guard is number `k` fails with that guard's error and changes nothing. */
  lemma SubmitFirstFailingGuardDecides(s: State, hash: LocationHasher, a: Submission, k: nat)
    requires k < |SubmitChecks(s, hash, a)|
    requires !SubmitChecks(s, hash, a)[k].passes
    requires forall j :: 0 <= j < k ==> SubmitChecks(s, hash, a)[j].passes
    ensures Submit(s, hash, a) == Step(Err(SubmitChecks(s, hash, a)[k].error), s)
  {
    FirstFailureAt(SubmitChecks(s, hash, a), k);
  }

  /** A submission is accepted exactly when every guard passes; a rejected one leaves the state, transfer log included, as it was. */
  lemma SubmitAcceptsIffAllGuardsPass(s: State, hash: LocationHasher, a: Submission)
    ensures Submit(s, hash, a).reply.Ok? <==>
            forall k :: 0 <= k < |SubmitChecks(s, hash, a)| ==> SubmitChecks(s, hash, a)[k].passes
    ensures Submit(s, hash, a).reply.Err? ==> Submit(s, hash, a).post == s
  {
  }

  /** The timestamp guard compares the block height with itself, so its error is never returned. */
  lemma TimestampGuardUnreachable(s: State, hash: LocationHasher, a: Submission)
    ensures Submit(s, hash, a).reply != Err(InvalidTimestamp)
  {
    var cs := SubmitChecks(s, hash, a);
    if r :| FirstFailure(cs) == Some(r) {
      var k :| 0 <= k < |cs| && !cs[k].passes && cs[k].error == r;
      assert k != 1;
    }
  }

  /** Coordinates outside [-90, 90] x [-180, 180] are refused with InvalidGps unless the store is full. */
  lemma GpsOutOfBoundsRejected(s: State, hash: LocationHasher, a: Submission)
    requires s.nextReportId < s.maxReports
    requires !GpsInBounds(a.latitude, a.longitude)
    ensures Submit(s, hash, a) == Step(Err(InvalidGps), s)
  {
    SubmitFirstFailingGuardDecides(s, hash, a, 2);
  }

  /** The speed bounds are read from the live configuration at each call. */
  lemma SpeedOutOfConfiguredBoundsRejected(s: State, hash: LocationHasher, a: Submission)
    requires s.nextReportId < s.maxReports
    requires GpsInBounds(a.latitude, a.longitude)
    requires a.speed < s.minSpeed || a.speed > s.maxSpeed
    ensures Submit(s, hash, a) == Step(Err(InvalidSpeed), s)
  {
    SubmitFirstFailingGuardDecides(s, hash, a, 3);
  }

  // ---------------------------------------------------------------------
  // Effects of a successful submission
  // ---------------------------------------------------------------------

  /**
   * An accepted submission returns the previous next id, stores the report
   * at that id, indexes it under its location, logs one fee transfer,
   * upserts the caller's counter, and touches nothing else.
   */
  lemma SubmitEffects(s: State, hash: LocationHasher, a: Submission)
    requires Submit(s, hash, a).reply.Ok?
    ensures IsBound(s) && GpsInBounds(a.latitude, a.longitude)
    ensures hash(a.latitude, a.longitude) !in s.reportsByLocation
    ensures Submit(s, hash, a).reply == Ok(s.nextReportId)
    ensures var t := Submit(s, hash, a).post;
      && t.nextReportId == s.nextReportId + 1
      && t.trafficReports == s.trafficReports[s.nextReportId := TrafficReport(
           s.caller, s.blockHeight, a.latitude, a.longitude, a.speed, a.congestion,
           a.incident, a.dataHash, hash(a.latitude, a.longitude), false)]
      && t.reportsByLocation == s.reportsByLocation[hash(a.latitude, a.longitude) := [s.nextReportId]]
      && t.stxTransfers == s.stxTransfers + [Transfer(s.submissionFee, s.caller, s.authorityContract.value)]
      && s.caller in t.userSubmissions
      && t.userSubmissions[s.caller] ==
           (if s.caller in s.userSubmissions
            then UserSubmissions(s.userSubmissions[s.caller].totalSubmissions + 1, s.blockHeight)
            else UserSubmissions(1, s.blockHeight))
      && (forall u :: u != s.caller ==>
            (u in t.userSubmissions <==> u in s.userSubmissions) &&
            (u in s.userSubmissions ==> t.userSubmissions[u] == s.userSubmissions[u]))
      && t.(nextReportId := s.nextReportId, trafficReports := s.trafficReports,
            reportsByLocation := s.reportsByLocation, userSubmissions := s.userSubmissions,
            stxTransfers := s.stxTransfers) == s
  {
    var cs := SubmitChecks(s, hash, a);
    assert cs[2].passes && cs[8].passes && cs[10].passes;
    assert [] + [s.nextReportId] == [s.nextReportId];
  }

  /**
   * Once a report is stored at some coordinates, a second submission at the
   * same coordinates is refused whatever its other fields, and with
   * ReportAlreadyExists as soon as it passes the guards that come before
   * the duplicate check.
   */
  lemma DuplicateLocationRejected(s: State, hash: LocationHasher, a: Submission, b: Submission)
    requires Submit(s, hash, a).reply.Ok?
    requires b.latitude == a.latitude && b.longitude == a.longitude
    ensures var t := Submit(s, hash, a).post;
      && Submit(t, hash, b).reply.Err?
      && Submit(t, hash, b).post == t
      && (t.nextReportId < t.maxReports &&
          t.minSpeed <= b.speed <= t.maxSpeed &&
          t.minCongestion <= b.congestion <= t.maxCongestion &&
          b.incident in IncidentTypes && |b.dataHash| == HashLength
          ==> Submit(t, hash, b).reply == Err(ReportAlreadyExists))
  {
    SubmitEffects(s, hash, a);
    var t := Submit(s, hash, a).post;
    var cs := SubmitChecks(t, hash, b);
    assert !cs[8].passes;
    if t.nextReportId < t.maxReports && t.minSpeed <= b.speed <= t.maxSpeed &&
       t.minCongestion <= b.congestion <= t.maxCongestion &&
       b.incident in IncidentTypes && |b.dataHash| == HashLength {
      assert SubmitChecks(s, hash, a)[7].passes;
      SubmitFirstFailingGuardDecides(t, hash, b, 8);
    }
  }

  /**
   * In any state that keeps the invariant (so after any history), a
   * submission at the coordinates of a stored report is refused and changes
   * nothing.
   */
  lemma StoredLocationRejected(s: State, hash: LocationHasher, id: nat, b: Submission)
    requires Invariant(s, hash) && id in s.trafficReports
    requires s.trafficReports[id].latitude == b.latitude && s.trafficReports[id].longitude == b.longitude
    ensures Submit(s, hash, b).reply.Err? && Submit(s, hash, b).post == s
    ensures s.nextReportId < s.maxReports &&
            s.minSpeed <= b.speed <= s.maxSpeed &&
            s.minCongestion <= b.congestion <= s.maxCongestion &&
            b.incident in IncidentTypes && |b.dataHash| == HashLength
            ==> Submit(s, hash, b).reply == Err(ReportAlreadyExists)
  {
    SubmitChecksUnfold(s, hash, b);
    assert !SubmitChecks(s, hash, b)[8].passes;
    if s.nextReportId < s.maxReports && s.minSpeed <= b.speed <= s.maxSpeed &&
       s.minCongestion <= b.congestion <= s.maxCongestion &&
       b.incident in IncidentTypes && |b.dataHash| == HashLength {
      SubmitFirstFailingGuardDecides(s, hash, b, 8);
    }
  }

  // ---------------------------------------------------------------------
  // The invariant
  // ---------------------------------------------------------------------

  lemma InitialInvariant(hash: LocationHasher)
    ensures Invariant(Initial(), hash)
  {
  }

  /** What an accepted submission knows about the state it was admitted in. */
  ghost predicate Admitted(s: State, hash: LocationHasher, a: Submission)
  {
    && IsBound(s)
    && s.nextReportId < s.maxReports
    && WellFormedReport(NewReport(s, hash, a), hash)
    && hash(a.latitude, a.longitude) !in s.reportsByLocation
  }

  lemma SubmitAdmitted(s: State, hash: LocationHasher, a: Submission)
    requires Submit(s, hash, a).reply.Ok?
    ensures Admitted(s, hash, a)
    ensures Submit(s, hash, a).post == Record(s, hash, a)
  {
    var cs := SubmitChecks(s, hash, a);
    assert cs[0].passes && cs[2].passes && cs[5].passes && cs[6].passes;
    assert cs[7].passes && cs[8].passes && cs[10].passes;
  }

  lemma RecordKeepsIds(s: State, hash: LocationHasher, a: Submission)
    requires IdsGapFree(s) && IsBound(s) && s.nextReportId < s.maxReports
    ensures IdsGapFree(Record(s, hash, a))
  {
  }

  lemma RecordKeepsWellFormed(s: State, hash: LocationHasher, a: Submission)
    requires ReportsWellFormed(s, hash) && Admitted(s, hash, a)
    ensures ReportsWellFormed(Record(s, hash, a), hash)
  {
  }

  lemma RecordKeepsIndex(s: State, hash: LocationHasher, a: Submission)
    requires LocationIndexExact(s) && IdsBelowNext(s) && Admitted(s, hash, a)
    ensures LocationIndexExact(Record(s, hash, a))
  {
    var t := Record(s, hash, a);
    var id := s.nextReportId;
    var lh := hash(a.latitude, a.longitude);
    assert t.reportsByLocation[lh] == [id];
    forall h | h in t.reportsByLocation
      ensures |t.reportsByLocation[h]| == 1
      ensures t.reportsByLocation[h][0] in t.trafficReports
      ensures t.trafficReports[t.reportsByLocation[h][0]].locationHash == h
    {
      if h != lh {
        assert s.reportsByLocation[h][0] != id;
      }
    }
  }

  lemma RecordKeepsTransfers(s: State, hash: LocationHasher, a: Submission)
    requires TransfersMatchReports(s) && IsBound(s)
    ensures TransfersMatchReports(Record(s, hash, a))
  {
    var t := Record(s, hash, a);
    forall k | 0 <= k < |t.stxTransfers|
      ensures k in t.trafficReports
      ensures t.stxTransfers[k].from == t.trafficReports[k].reporter
      ensures Some(t.stxTransfers[k].to) == t.authorityContract
    {
      if k < |s.stxTransfers| {
        assert t.stxTransfers[k] == s.stxTransfers[k];
      }
    }
  }

  /** Inserting report `r` at a fresh id adds that id to its reporter's set and to no other. */
  lemma SubmittedByAfterInsert(s: State, t: State, id: nat, r: TrafficReport, u: Principal)
    requires id !in s.trafficReports
    requires t.trafficReports == s.trafficReports[id := r]
    ensures SubmittedBy(t, u) == if r.reporter == u then SubmittedBy(s, u) + {id} else SubmittedBy(s, u)
  {
  }

  lemma RecordKeepsCounters(s: State, hash: LocationHasher, a: Submission)
    requires CountersMatchReports(s) && IdsBelowNext(s) && IsBound(s)
    ensures CountersMatchReports(Record(s, hash, a))
  {
    var t := Record(s, hash, a);
    var id := s.nextReportId;
    var r := NewReport(s, hash, a);
    assert id !in s.trafficReports;
    assert t.trafficReports == s.trafficReports[id := r];
    forall u | u in t.userSubmissions
      ensures t.userSubmissions[u].totalSubmissions == |SubmittedBy(t, u)|
    {
      SubmittedByAfterInsert(s, t, id, r, u);
      if u == s.caller && u !in s.userSubmissions {
        assert SubmittedBy(s, u) == {};
      }
    }
  }

  lemma SubmitPreservesInvariant(s: State, hash: LocationHasher, a: Submission)
    requires Invariant(s, hash)
    ensures Invariant(Submit(s, hash, a).post, hash)
  {
    if Submit(s, hash, a).reply.Ok? {
      SubmitAdmitted(s, hash, a);
      RecordKeepsIds(s, hash, a);
      RecordKeepsWellFormed(s, hash, a);
      RecordKeepsIndex(s, hash, a);
      RecordKeepsTransfers(s, hash, a);
      RecordKeepsCounters(s, hash, a);
    }
  }

  /** `t` differs from `s` at most in the validated flags of the stored reports. */
  ghost predicate FlagsOnlyDiffer(s: State, t: State)
  {
    && t == s.(trafficReports := t.trafficReports)
    && t.trafficReports.Keys == s.trafficReports.Keys
    && forall j :: j in s.trafficReports ==>
         t.trafficReports[j] == s.trafficReports[j].(validated := t.trafficReports[j].validated)
  }

  lemma FlagsOnlyDifferKeepsReports(s: State, t: State, hash: LocationHasher)
    requires FlagsOnlyDiffer(s, t)
    requires IdsGapFree(s) && ReportsWellFormed(s, hash) && LocationIndexExact(s)
    ensures IdsGapFree(t) && ReportsWellFormed(t, hash) && LocationIndexExact(t)
  {
    assert forall j :: j in t.trafficReports ==> t.trafficReports[j].locationHash == s.trafficReports[j].locationHash;
  }

  lemma FlagsOnlyDifferKeepsLedger(s: State, t: State)
    requires FlagsOnlyDiffer(s, t)
    requires TransfersMatchReports(s) && CountersMatchReports(s)
    ensures TransfersMatchReports(t) && CountersMatchReports(t)
  {
    assert forall j :: j in t.trafficReports ==> t.trafficReports[j].reporter == s.trafficReports[j].reporter;
    assert forall u :: SubmittedBy(t, u) == SubmittedBy(s, u);
  }

  /** Setting the validated flag of stored report `id` keeps every part of the invariant. */
  lemma MarkValidatedKeepsInvariant(s: State, hash: LocationHasher, id: nat)
    requires Invariant(s, hash) && id in s.trafficReports
    ensures Invariant(s.(trafficReports := s.trafficReports[id := s.trafficReports[id].(validated := true)]), hash)
  {
    var t := s.(trafficReports := s.trafficReports[id := s.trafficReports[id].(validated := true)]);
    assert FlagsOnlyDiffer(s, t);
    FlagsOnlyDifferKeepsReports(s, t, hash);
    FlagsOnlyDifferKeepsLedger(s, t);
  }

  lemma ValidatePreservesInvariant(s: State, hash: LocationHasher, reportId: int, validator: Principal)
    requires Invariant(s, hash)
    ensures Invariant(Validate(s, reportId, validator).post, hash)
  {
    if Validate(s, reportId, validator).reply {
      MarkValidatedKeepsInvariant(s, hash, reportId);
    }
  }

  lemma ApplyPreservesInvariant(s: State, hash: LocationHasher, c: Call)
    requires Invariant(s, hash)
    ensures Invariant(Apply(s, hash, c).post, hash)
  {
    match c
    case SubmitCall(a) =>
      assert Apply(s, hash, c).post == Submit(s, hash, a).post;
      SubmitPreservesInvariant(s, hash, a);
    case ValidateCall(id, v) =>
      assert Apply(s, hash, c).post == Validate(s, id, v).post;
      ValidatePreservesInvariant(s, hash, id, v);
    case ResetCall => InitialInvariant(hash);
    case SetCallerCall(p) => RecordsUntouchedKeepInvariant(s, s.(caller := p), hash);
    case SetBlockHeightCall(h) => RecordsUntouchedKeepInvariant(s, s.(blockHeight := h), hash);
    case BindCall(p) =>
      assert Apply(s, hash, c).post == BindAuthorityContract(s, p).post;
      BindPreservesInvariant(s, hash, p);
    case SetFeeCall(fee) =>
      assert Apply(s, hash, c).post == SetSubmissionFee(s, fee).post;
      RecordsUntouchedKeepInvariant(s, SetSubmissionFee(s, fee).post, hash);
    case SetSpeedLimitsCall(lo, hi) =>
      assert Apply(s, hash, c).post == SetSpeedLimits(s, lo, hi).post;
      RecordsUntouchedKeepInvariant(s, SetSpeedLimits(s, lo, hi).post, hash);
  }

  /** Binding the contract keeps the invariant: it succeeds only while no report exists. */
  lemma BindPreservesInvariant(s: State, hash: LocationHasher, principal: Principal)
    requires Invariant(s, hash)
    ensures Invariant(BindAuthorityContract(s, principal).post, hash)
  {
    assert s.authorityContract.None? ==> s.nextReportId == 0;
    RecordsUntouchedKeepInvariant(s, BindAuthorityContract(s, principal).post, hash);
  }

  /**
   * A change that leaves the reports, the index, the counters, the transfer
   * log and the id counters alone, and rebinds the contract only while no
   * report exists, keeps the invariant.
   */
  lemma RecordsUntouchedKeepInvariant(s: State, t: State, hash: LocationHasher)
    requires Invariant(s, hash)
    requires t.nextReportId == s.nextReportId && t.maxReports == s.maxReports
    requires t.trafficReports == s.trafficReports && t.reportsByLocation == s.reportsByLocation
    requires t.userSubmissions == s.userSubmissions && t.stxTransfers == s.stxTransfers
    requires s.nextReportId > 0 ==> t.authorityContract == s.authorityContract
    ensures Invariant(t, hash)
  {
    assert forall u :: SubmittedBy(t, u) == SubmittedBy(s, u);
  }

  lemma {:induction false} RunPreservesInvariant(s: State, hash: LocationHasher, calls: seq<Call>)
    requires Invariant(s, hash)
    ensures Invariant(Run(s, hash, calls).post, hash)
    decreases calls
  {
    if calls != [] {
      ApplyPreservesInvariant(s, hash, calls[0]);
      RunPreservesInvariant(Apply(s, hash, calls[0]).post, hash, calls[1..]);
    }
  }

  /** Running a non-empty sequence of calls is running its first call, then the rest. */
  lemma RunCons(s: State, hash: LocationHasher, c: Call, rest: seq<Call>)
    ensures var first := Apply(s, hash, c);
            Run(s, hash, [c] + rest) ==
            Step([first.reply] + Run(first.post, hash, rest).reply, Run(first.post, hash, rest).post)
  {
    assert ([c] + rest)[1..] == rest;
  }

  /** Every state reachable from a fresh mock keeps the invariant. */
  lemma ReachableStatesKeepInvariant(hash: LocationHasher, calls: seq<Call>)
    ensures Invariant(Run(Initial(), hash, calls).post, hash)
  {
    InitialInvariant(hash);
    RunPreservesInvariant(Initial(), hash, calls);
  }

  /** The ids 0 .. n-1. */
  ghost function IdsBelow(n: nat): (r: set<nat>)
    ensures |r| == n
    ensures forall i :: i in r <==> 0 <= i < n
  {
    if n == 0 then {} else IdsBelow(n - 1) + {n - 1}
  }

  /** Under the invariant the report count is the number of stored reports. */
  lemma ReportCountIsSize(s: State, hash: LocationHasher)
    requires Invariant(s, hash)
    ensures |s.trafficReports| == s.nextReportId
  {
    assert s.trafficReports.Keys == IdsBelow(s.nextReportId);
  }

  /** Under the invariant a location key is indexed exactly when some stored report has it. */
  lemma LocationIndexIsExact(s: State, hash: LocationHasher, h: string)
    requires Invariant(s, hash)
    ensures h in s.reportsByLocation <==>
            exists id :: id in s.trafficReports && s.trafficReports[id].locationHash == h
  {
    if h in s.reportsByLocation {
      var id := s.reportsByLocation[h][0];
      assert id in s.trafficReports && s.trafficReports[id].locationHash == h;
    }
  }

  /** Under the invariant no two stored reports share a location hash. */
  lemma LocationHashesUnique(s: State, hash: LocationHasher, i: nat, j: nat)
    requires Invariant(s, hash)
    requires i in s.trafficReports && j in s.trafficReports && i != j
    ensures s.trafficReports[i].locationHash != s.trafficReports[j].locationHash
  {
    assert s.reportsByLocation[s.trafficReports[i].locationHash] == [i];
    assert s.reportsByLocation[s.trafficReports[j].locationHash] == [j];
  }

  /**
   * No two stored reports have the same coordinates, whatever the hasher:
   * equal coordinates would give equal location hashes.
   */
  lemma StoredCoordinatesUnique(s: State, hash: LocationHasher, i: nat, j: nat)
    requires Invariant(s, hash)
    requires i in s.trafficReports && j in s.trafficReports && i != j
    ensures (s.trafficReports[i].latitude, s.trafficReports[i].longitude) !=
            (s.trafficReports[j].latitude, s.trafficReports[j].longitude)
  {
    LocationHashesUnique(s, hash, i, j);
  }

  // ---------------------------------------------------------------------
  // Validation
  // ---------------------------------------------------------------------

  /**
   * Validation succeeds exactly when the report exists, the caller is its
   * reporter and the validator is a verified authority; on success only the
   * report's validated flag changes, otherwise nothing does.
   */
  lemma ValidateOutcome(s: State, reportId: int, validator: Principal)
    ensures var r := Validate(s, reportId, validator);
      && (r.reply <==> 0 <= reportId && reportId in s.trafficReports &&
                        s.trafficReports[reportId].reporter == s.caller &&
                        validator in s.authorities)
      && (!r.reply ==> r.post == s)
      && (r.reply ==>
            && r.post.trafficReports.Keys == s.trafficReports.Keys
            && r.post.trafficReports[reportId] == s.trafficReports[reportId].(validated := true)
            && (forall j :: j in s.trafficReports && j != reportId ==>
                  r.post.trafficReports[j] == s.trafficReports[j])
            && r.post.(trafficReports := s.trafficReports) == s)
  {
  }

  /** Validating an already validated report succeeds again and changes nothing more. */
  lemma ValidateIdempotent(s: State, reportId: int, validator: Principal)
    requires Validate(s, reportId, validator).reply
    ensures var t := Validate(s, reportId, validator).post;
            Validate(t, reportId, validator) == Step(true, t)
  {
    var t := Validate(s, reportId, validator).post;
    assert t.trafficReports[reportId := t.trafficReports[reportId].(validated := true)] == t.trafficReports;
  }

  // ---------------------------------------------------------------------
  // Authority binding and configuration
  // ---------------------------------------------------------------------

  /** Binding succeeds exactly for a non-burn principal while no contract is set, and then sets only the contract. */
  lemma BindOutcome(s: State, principal: Principal)
    ensures var r := BindAuthorityContract(s, principal);
      && (r.reply <==> principal != BurnAddress && s.authorityContract.None?)
      && r.post == (if r.reply then s.(authorityContract := Some(principal)) else s)
  {
  }

  /** The fee setter succeeds exactly when a contract is bound, and then sets only the fee. */
  lemma SetSubmissionFeeOutcome(s: State, fee: int)
    ensures var r := SetSubmissionFee(s, fee);
      && (r.reply <==> IsBound(s))
      && r.post == (if r.reply then s.(submissionFee := fee) else s)
  {
  }

  /** The speed-limit setter checks only its own range; whether a contract is bound makes no difference. */
  lemma SetSpeedLimitsOutcome(s: State, minSpeed: int, maxSpeed: int, other: Option<Principal>)
    ensures var r := SetSpeedLimits(s, minSpeed, maxSpeed);
      && (r.reply <==> 0 < minSpeed && maxSpeed < 300)
      && r.post == (if r.reply then s.(minSpeed := minSpeed, maxSpeed := maxSpeed) else s)
      && SetSpeedLimits(s.(authorityContract := other), minSpeed, maxSpeed).reply == r.reply
  {
  }

  /**
   * A contract bound to the empty string can never be replaced, yet the
   * fee setter and every submission treat it as unbound.
   */
  lemma EmptyContractLocksOut(s: State, hash: LocationHasher, principal: Principal, fee: int, a: Submission)
    requires s.authorityContract == Some("")
    ensures !BindAuthorityContract(s, principal).reply
    ensures !SetSubmissionFee(s, fee).reply
    ensures Submit(s, hash, a).reply.Err?
  {
    assert !SubmitChecks(s, hash, a)[10].passes;
  }

  /** Once set, the authority contract stays the same through any calls that do not reset the mock. */
  lemma {:induction false} AuthorityNeverRebound(s: State, hash: LocationHasher, calls: seq<Call>)
    requires s.authorityContract.Some?
    requires ResetCall !in calls
    ensures Run(s, hash, calls).post.authorityContract == s.authorityContract
    decreases calls
  {
    if calls != [] {
      var t := Apply(s, hash, calls[0]).post;
      assert calls[0] != ResetCall;
      assert t.authorityContract == s.authorityContract;
      assert forall c :: c in calls[1..] ==> c in calls;
      AuthorityNeverRebound(t, hash, calls[1..]);
    }
  }

  /** The step of ReportsOnlyGainValidation: one call other than a reset. */
  lemma ApplyOnlyGainsValidation(s: State, hash: LocationHasher, c: Call)
    requires IdsBelowNext(s) && c != ResetCall
    ensures var t := Apply(s, hash, c).post;
      && IdsBelowNext(t)
      && s.nextReportId <= t.nextReportId
      && (forall id :: id in s.trafficReports ==>
            id in t.trafficReports &&
            t.trafficReports[id] == s.trafficReports[id].(validated := t.trafficReports[id].validated) &&
            (s.trafficReports[id].validated ==> t.trafficReports[id].validated))
  {
    if c.SubmitCall? && Submit(s, hash, c.submission).reply.Ok? {
      SubmitAdmitted(s, hash, c.submission);
      assert s.nextReportId !in s.trafficReports;
    }
  }

  /**
   * Without a reset, the report count never decreases, no stored report is
   * removed, and a stored report changes only by gaining its validated flag.
   */
  lemma {:induction false} ReportsOnlyGainValidation(s: State, hash: LocationHasher, calls: seq<Call>)
    requires IdsBelowNext(s)
    requires ResetCall !in calls
    ensures var t := Run(s, hash, calls).post;
      && s.nextReportId <= t.nextReportId
      && (forall id :: id in s.trafficReports ==>
            id in t.trafficReports &&
            t.trafficReports[id] == s.trafficReports[id].(validated := t.trafficReports[id].validated) &&
            (s.trafficReports[id].validated ==> t.trafficReports[id].validated))
    decreases calls
  {
    if calls != [] {
      assert calls[0] in calls;
      ApplyOnlyGainsValidation(s, hash, calls[0]);
      assert forall c :: c in calls[1..] ==> c in calls;
      ReportsOnlyGainValidation(Apply(s, hash, calls[0]).post, hash, calls[1..]);
    }
  }
}
