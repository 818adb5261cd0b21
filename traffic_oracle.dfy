/**
 * The state machine of the in-memory traffic oracle: its data model, the
 * guards a submission passes through, and one transition function per
 * operation.  Each function returns the operation's reply together with the
 * state after the call; a rejected call returns the state it was given.
 */
module TrafficOracle {
  import opened Wrappers

  type Principal = string

  /** The deterministic location hasher: (latitude, longitude) to a digest. */
  type LocationHasher = (int, int) -> string

  /** The reserved burn address that may never become the authority contract. */
  const BurnAddress: Principal := "SP000000000000000000002Q6VF78"
  const DefaultCaller: Principal := "ST1TEST"
  const DefaultMaxReports: nat := 5000
  const DefaultSubmissionFee: int := 50
  const DefaultMinSpeed: int := 0
  const DefaultMaxSpeed: int := 200
  const DefaultMinCongestion: int := 0
  const DefaultMaxCongestion: int := 100
  const HashLength: nat := 64
  const IncidentTypes: set<string> := {"accident", "construction", "none"}

  /** The error codes of the oracle, with their numeric values. */
  datatype Error =
    | NotAuthorized
    | InvalidTimestamp
    | InvalidLocation
    | InvalidSpeed
    | InvalidCongestion
    | InvalidIncident
    | ReportAlreadyExists
    | ReportNotFound
    | UserNotRegistered
    | InvalidDataHash
    | MaxReportsExceeded
    | InvalidGps
    | OracleNotVerified
  {
    function Code(): (c: int)
      ensures 100 <= c <= 112
    {
      match this
      case NotAuthorized => 100
      case InvalidTimestamp => 101
      case InvalidLocation => 102
      case InvalidSpeed => 103
      case InvalidCongestion => 104
      case InvalidIncident => 105
      case ReportAlreadyExists => 106
      case ReportNotFound => 107
      case UserNotRegistered => 108
      case InvalidDataHash => 109
      case MaxReportsExceeded => 110
      case InvalidGps => 111
      case OracleNotVerified => 112
    }
  }

  datatype TrafficReport = TrafficReport(
    reporter: Principal,
    timestamp: nat,
    latitude: int,
    longitude: int,
    speed: int,
    congestion: int,
    incidentType: string,
    dataHash: string,
    locationHash: string,
    validated: bool)

  datatype UserSubmissions = UserSubmissions(totalSubmissions: nat, lastSubmission: nat)

  /** One entry of the fee-transfer log. */
  datatype Transfer = Transfer(amount: int, from: Principal, to: Principal)

  /** The arguments of a report submission. */
  datatype Submission = Submission(
    latitude: int,
    longitude: int,
    speed: int,
    congestion: int,
    incident: string,
    dataHash: string)

  /**
   * Everything the mock keeps: its configuration and tables, and the
   * environment it reads (block height, caller, the authority set) and
   * writes (the transfer log).
   */
  datatype State = State(
    nextReportId: nat,
    maxReports: nat,
    submissionFee: int,
    authorityContract: Option<Principal>,
    minSpeed: int,
    maxSpeed: int,
    minCongestion: int,
    maxCongestion: int,
    trafficReports: map<nat, TrafficReport>,
    reportsByLocation: map<string, seq<nat>>,
    userSubmissions: map<Principal, UserSubmissions>,
    blockHeight: nat,
    caller: Principal,
    authorities: set<Principal>,
    stxTransfers: seq<Transfer>)

  /** The reply of an operation and the state it leaves behind. */
  datatype Step<+T> = Step(reply: T, post: State)

  /** The state after construction or reset. */
  function Initial(): State
  {
    State(0, DefaultMaxReports, DefaultSubmissionFee, None,
          DefaultMinSpeed, DefaultMaxSpeed, DefaultMinCongestion, DefaultMaxCongestion,
          map[], map[], map[], 0, DefaultCaller, {DefaultCaller}, [])
  }

  /**
   * Whether an authority contract counts as bound.  The mock tests the
   * field for truthiness, so a contract bound to the empty string is set
   * (it cannot be bound again) and yet does not count as bound.
   */
  predicate IsBound(s: State)
  {
    s.authorityContract.Some? && s.authorityContract.value != ""
  }

  /** User registration is a stub that accepts everyone. */
  predicate IsUserRegistered(user: Principal)
  {
    true
  }

  predicate GpsInBounds(lat: int, lon: int)
  {
    -90 <= lat <= 90 && -180 <= lon <= 180
  }

  // ---------------------------------------------------------------------
  // Submission guards
  // ---------------------------------------------------------------------

  /** One guard of a submission: whether it passes, and the error it raises. */
  datatype Check = Check(passes: bool, error: Error)

  /** The result of running guards in order: the error of the first one to fail. */
  function FirstFailure(cs: seq<Check>): (r: Option<Error>)
    ensures r == None <==> forall k :: 0 <= k < |cs| ==> cs[k].passes
    ensures r.Some? ==> exists k :: 0 <= k < |cs| && !cs[k].passes && cs[k].error == r.value
  {
    if cs == [] then None
    else if !cs[0].passes then Some(cs[0].error)
    else
      var r := FirstFailure(cs[1..]);
      assert forall k :: 1 <= k < |cs| ==> cs[k] == cs[1..][k - 1];
      r
  }

  /** The guards of a submission, in the order the mock evaluates them. */
  function SubmitChecks(s: State, hash: LocationHasher, a: Submission): seq<Check>
  {
    var locHash := hash(a.latitude, a.longitude);
    [ Check(s.nextReportId < s.maxReports, MaxReportsExceeded),
      Check(!(s.blockHeight < s.blockHeight), InvalidTimestamp),
      Check(GpsInBounds(a.latitude, a.longitude), InvalidGps),
      Check(s.minSpeed <= a.speed <= s.maxSpeed, InvalidSpeed),
      Check(s.minCongestion <= a.congestion <= s.maxCongestion, InvalidCongestion),
      Check(a.incident in IncidentTypes, InvalidIncident),
      Check(|a.dataHash| == HashLength, InvalidDataHash),
      Check(|locHash| == HashLength, InvalidDataHash),
      Check(locHash !in s.reportsByLocation, ReportAlreadyExists),
      Check(IsUserRegistered(s.caller), UserNotRegistered),
      Check(IsBound(s), OracleNotVerified)
    ]
  }

  // ---------------------------------------------------------------------
  // Operations
  // ---------------------------------------------------------------------

  /** The report a successful submission stores. */
  function NewReport(s: State, hash: LocationHasher, a: Submission): TrafficReport
  {
    TrafficReport(s.caller, s.blockHeight, a.latitude, a.longitude, a.speed, a.congestion,
                  a.incident, a.dataHash, hash(a.latitude, a.longitude), false)
  }

  /** The commit step of a submission that passed every guard. */
  function Record(s: State, hash: LocationHasher, a: Submission): State
    requires IsBound(s)
  {
    var id := s.nextReportId;
    var locHash := hash(a.latitude, a.longitude);
    var reportList := if locHash in s.reportsByLocation then s.reportsByLocation[locHash] else [];
    var subs :=
      if s.caller in s.userSubmissions
      then UserSubmissions(s.userSubmissions[s.caller].totalSubmissions + 1, s.blockHeight)
      else UserSubmissions(1, s.blockHeight);
    s.(stxTransfers := s.stxTransfers + [Transfer(s.submissionFee, s.caller, s.authorityContract.value)],
       trafficReports := s.trafficReports[id := NewReport(s, hash, a)],
       reportsByLocation := s.reportsByLocation[locHash := reportList + [id]],
       userSubmissions := s.userSubmissions[s.caller := subs],
       nextReportId := id + 1)
  }

  /** submitTrafficReport: the first failing guard decides the error; otherwise commit. */
  function Submit(s: State, hash: LocationHasher, a: Submission): Step<Result<nat, Error>>
  {
    match FirstFailure(SubmitChecks(s, hash, a))
    case Some(e) => Step(Err(e), s)
    case None =>
      assert SubmitChecks(s, hash, a)[10].passes;
      Step(Ok(s.nextReportId), Record(s, hash, a))
  }

  /** validateReport: the reporter themself, naming a verified validator, sets the flag. */
  function Validate(s: State, reportId: int, validator: Principal): Step<bool>
  {
    if reportId < 0 || reportId !in s.trafficReports then Step(false, s)
    else
      var report := s.trafficReports[reportId];
      if report.reporter != s.caller then Step(false, s)
      else if validator !in s.authorities then Step(false, s)
      else Step(true, s.(trafficReports := s.trafficReports[reportId := report.(validated := true)]))
  }

  /** setAuthorityContract: one-shot binding that refuses the burn address. */
  function BindAuthorityContract(s: State, principal: Principal): Step<bool>
  {
    if principal == BurnAddress then Step(false, s)
    else if s.authorityContract.Some? then Step(false, s)
    else Step(true, s.(authorityContract := Some(principal)))
  }

  /** setSubmissionFee: allowed once an authority contract is bound. */
  function SetSubmissionFee(s: State, fee: int): Step<bool>
  {
    if !IsBound(s) then Step(false, s)
    else Step(true, s.(submissionFee := fee))
  }

  /** setSpeedLimits: range-checked, with no check of the authority binding. */
  function SetSpeedLimits(s: State, minSpeed: int, maxSpeed: int): Step<bool>
  {
    if minSpeed <= 0 || maxSpeed >= 300 then Step(false, s)
    else Step(true, s.(minSpeed := minSpeed, maxSpeed := maxSpeed))
  }

  // ---------------------------------------------------------------------
  // Sequences of calls
  // ---------------------------------------------------------------------

  /**
   * A call on the mock: one of its public operations, a write of the
   * caller or block-height field (which the mock leaves to its user), or a
   * reset.
   */
  datatype Call =
    | BindCall(principal: Principal)
    | SetFeeCall(fee: int)
    | SetSpeedLimitsCall(minSpeed: int, maxSpeed: int)
    | SubmitCall(submission: Submission)
    | ValidateCall(reportId: int, validator: Principal)
    | SetCallerCall(caller: Principal)
    | SetBlockHeightCall(height: nat)
    | ResetCall

  datatype Reply = Flag(ok: bool) | Submitted(result: Result<nat, Error>) | NoReply

  function Apply(s: State, hash: LocationHasher, c: Call): Step<Reply>
  {
    match c
    case BindCall(p) => var r := BindAuthorityContract(s, p); Step(Flag(r.reply), r.post)
    case SetFeeCall(fee) => var r := SetSubmissionFee(s, fee); Step(Flag(r.reply), r.post)
    case SetSpeedLimitsCall(lo, hi) => var r := SetSpeedLimits(s, lo, hi); Step(Flag(r.reply), r.post)
    case SubmitCall(a) => var r := Submit(s, hash, a); Step(Submitted(r.reply), r.post)
    case ValidateCall(id, v) => var r := Validate(s, id, v); Step(Flag(r.reply), r.post)
    case SetCallerCall(p) => Step(NoReply, s.(caller := p))
    case SetBlockHeightCall(h) => Step(NoReply, s.(blockHeight := h))
    case ResetCall => Step(NoReply, Initial())
  }

  /** The replies to `calls`, issued one after another from `s`, and the final state. */
  function Run(s: State, hash: LocationHasher, calls: seq<Call>): (r: Step<seq<Reply>>)
    ensures |r.reply| == |calls|
    decreases calls
  {
    if calls == [] then Step([], s)
    else
      var first := Apply(s, hash, calls[0]);
      var rest := Run(first.post, hash, calls[1..]);
      Step([first.reply] + rest.reply, rest.post)
  }

  // ---------------------------------------------------------------------
  // The invariant every reachable state keeps
  // ---------------------------------------------------------------------

  /** What a stored report satisfies: it passed the guards that do not depend on configuration. */
  ghost predicate WellFormedReport(r: TrafficReport, hash: LocationHasher)
  {
    && GpsInBounds(r.latitude, r.longitude)
    && r.incidentType in IncidentTypes
    && |r.dataHash| == HashLength
    && r.locationHash == hash(r.latitude, r.longitude)
    && |r.locationHash| == HashLength
  }

  /** The ids of the reports submitted by user `u`. */
  ghost function SubmittedBy(s: State, u: Principal): set<nat>
  {
    set id | id in s.trafficReports && s.trafficReports[id].reporter == u
  }

  /** Every stored id lies below the next id, so the next id is free. */
  ghost predicate IdsBelowNext(s: State)
  {
    forall id :: id in s.trafficReports ==> id < s.nextReportId
  }

  /** Ids run gap-free from 0 up to the next id, which never exceeds the capacity. */
  ghost predicate IdsGapFree(s: State)
  {
    && s.nextReportId <= s.maxReports
    && IdsBelowNext(s)
    && (forall id :: 0 <= id < s.nextReportId ==> id in s.trafficReports)
  }

  ghost predicate ReportsWellFormed(s: State, hash: LocationHasher)
  {
    forall id :: id in s.trafficReports ==> WellFormedReport(s.trafficReports[id], hash)
  }

  /** Every location key holds exactly one id, whose report has that key, and every report is indexed. */
  ghost predicate LocationIndexExact(s: State)
  {
    && (forall h :: h in s.reportsByLocation ==>
          |s.reportsByLocation[h]| == 1 &&
          s.reportsByLocation[h][0] in s.trafficReports &&
          s.trafficReports[s.reportsByLocation[h][0]].locationHash == h)
    && (forall id :: id in s.trafficReports ==>
          s.trafficReports[id].locationHash in s.reportsByLocation &&
          s.reportsByLocation[s.trafficReports[id].locationHash] == [id])
  }

  /** One fee transfer per report, from its reporter to the bound contract. */
  ghost predicate TransfersMatchReports(s: State)
  {
    && |s.stxTransfers| == s.nextReportId
    && (s.nextReportId > 0 ==> IsBound(s))
    && (forall k :: 0 <= k < |s.stxTransfers| ==>
          k in s.trafficReports &&
          s.stxTransfers[k].from == s.trafficReports[k].reporter &&
          Some(s.stxTransfers[k].to) == s.authorityContract)
  }

  /** Each user's counter is the number of that user's reports, and every reporter has one. */
  ghost predicate CountersMatchReports(s: State)
  {
    && (forall u :: u in s.userSubmissions ==>
          s.userSubmissions[u].totalSubmissions == |SubmittedBy(s, u)|)
    && (forall id :: id in s.trafficReports ==> s.trafficReports[id].reporter in s.userSubmissions)
  }

  ghost predicate Invariant(s: State, hash: LocationHasher)
  {
    && IdsGapFree(s)
    && ReportsWellFormed(s, hash)
    && LocationIndexExact(s)
    && TransfersMatchReports(s)
    && CountersMatchReports(s)
  }
}
