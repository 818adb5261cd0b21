/**
 * The in-memory mock of the traffic-oracle contract as an object whose
 * methods update its fields in place.  Each method is proved to leave the
 * object in the state the matching transition function of TrafficOracle
 * describes, and to keep the invariant.
 */
module OracleMock {
  import opened Wrappers
  import opened TrafficOracle
  import opened TrafficOracleProperties

  /** The mock's `state` record: the contract's data variables and maps. */
  datatype ContractState = ContractState(
    nextReportId: nat,
    maxReports: nat,
    submissionFee: int,
    authorityContract: Option<Principal>,
    minSpeed: int,
    maxSpeed: int,
    minCongestion: int,
    maxCongestion: int,
    trafficReports: map<nat, TrafficReport>,
    reportsByLocation: map<string, seq<nat>>,
    userSubmissions: map<Principal, UserSubmissions>)

  /** The `state` record of a fresh mock. */
  const InitialContractState: ContractState :=
    ContractState(0, DefaultMaxReports, DefaultSubmissionFee, None,
                  DefaultMinSpeed, DefaultMaxSpeed, DefaultMinCongestion, DefaultMaxCongestion,
                  map[], map[], map[])

  class TrafficOracleMock {
    var state: ContractState
    var blockHeight: nat
    var caller: Principal
    var authorities: set<Principal>
    var stxTransfers: seq<Transfer>

    /** The location hasher, fixed when the mock is created. */
    const locationHash: LocationHasher

    /** The object's fields as one state value. */
    function Snapshot(): State
      reads this
    {
      State(state.nextReportId, state.maxReports, state.submissionFee, state.authorityContract,
            state.minSpeed, state.maxSpeed, state.minCongestion, state.maxCongestion,
            state.trafficReports, state.reportsByLocation, state.userSubmissions,
            blockHeight, caller, authorities, stxTransfers)
    }

    ghost predicate Valid()
      reads this
    {
      Invariant(Snapshot(), locationHash)
    }

    constructor (hash: LocationHasher)
      ensures locationHash == hash
      ensures Snapshot() == Initial()
      ensures Valid()
    {
      locationHash := hash;
      state := InitialContractState;
      blockHeight := 0;
      caller := DefaultCaller;
      authorities := {DefaultCaller};
      stxTransfers := [];
      new;
      InitialInvariant(hash);
    }

    /** Puts every field back to its initial value. */
    method Reset()
      modifies this
      ensures Snapshot() == Initial()
      ensures Valid()
    {
      state := InitialContractState;
      blockHeight := 0;
      caller := DefaultCaller;
      authorities := {DefaultCaller};
      stxTransfers := [];
      InitialInvariant(locationHash);
    }

    /** Whether `principal` is in the authority set. */
    function IsVerifiedAuthority(principal: Principal): (b: bool)
      reads this
      ensures b <==> principal in authorities
      ensures !b ==> forall id :: !Validate(Snapshot(), id, principal).reply
    {
      principal in authorities
    }

    method SetAuthorityContract(principal: Principal) returns (ok: bool)
      requires Valid()
      modifies this
      ensures Valid()
      ensures Step(ok, Snapshot()) == BindAuthorityContract(old(Snapshot()), principal)
    {
      if principal == BurnAddress {
        return false;
      }
      if state.authorityContract.Some? {
        return false;
      }
      state := state.(authorityContract := Some(principal));
      ok := true;
      ApplyPreservesInvariant(old(Snapshot()), locationHash, BindCall(principal));
    }

    method SetSubmissionFee(fee: int) returns (ok: bool)
      requires Valid()
      modifies this
      ensures Valid()
      ensures Step(ok, Snapshot()) == TrafficOracle.SetSubmissionFee(old(Snapshot()), fee)
    {
      if !(state.authorityContract.Some? && state.authorityContract.value != "") {
        return false;
      }
      state := state.(submissionFee := fee);
      ok := true;
      ApplyPreservesInvariant(old(Snapshot()), locationHash, SetFeeCall(fee));
    }

    method SetSpeedLimits(minSpd: int, maxSpd: int) returns (ok: bool)
      requires Valid()
      modifies this
      ensures Valid()
      ensures Step(ok, Snapshot()) == TrafficOracle.SetSpeedLimits(old(Snapshot()), minSpd, maxSpd)
    {
      if minSpd <= 0 || maxSpd >= 300 {
        return false;
      }
      state := state.(minSpeed := minSpd, maxSpeed := maxSpd);
      ok := true;
      ApplyPreservesInvariant(old(Snapshot()), locationHash, SetSpeedLimitsCall(minSpd, maxSpd));
    }

    /**
     * The guard chain of a submission, evaluated on the current fields in
     * the order the mock checks them; the first failing guard's error is
     * returned.
     */
    method SubmissionGuard(lat: int, lon: int, speed: int, congestion: int, incident: string, dataHash: string)
      returns (e: Option<Error>)
      ensures e == FirstFailure(SubmitChecks(Snapshot(), locationHash,
                                             Submission(lat, lon, speed, congestion, incident, dataHash)))
    {
      ghost var s := Snapshot();
      ghost var a := Submission(lat, lon, speed, congestion, incident, dataHash);
      ghost var cs := SubmitChecks(s, locationHash, a);
      SubmitChecksUnfold(s, locationHash, a);
      if state.nextReportId >= state.maxReports {
        FirstFailureAt(cs, 0);
        return Some(MaxReportsExceeded);
      }
      if blockHeight < blockHeight {
        assert false;
        return Some(InvalidTimestamp);
      }
      if lat < -90 || lat > 90 || lon < -180 || lon > 180 {
        FirstFailureAt(cs, 2);
        return Some(InvalidGps);
      }
      if speed < state.minSpeed || speed > state.maxSpeed {
        FirstFailureAt(cs, 3);
        return Some(InvalidSpeed);
      }
      if congestion < state.minCongestion || congestion > state.maxCongestion {
        FirstFailureAt(cs, 4);
        return Some(InvalidCongestion);
      }
      if incident !in IncidentTypes {
        FirstFailureAt(cs, 5);
        return Some(InvalidIncident);
      }
      if |dataHash| != HashLength {
        FirstFailureAt(cs, 6);
        return Some(InvalidDataHash);
      }
      var locHash := locationHash(lat, lon);
      if |locHash| != HashLength {
        FirstFailureAt(cs, 7);
        return Some(InvalidDataHash);
      }
      if locHash in state.reportsByLocation {
        FirstFailureAt(cs, 8);
        return Some(ReportAlreadyExists);
      }
      if !IsUserRegistered(caller) {
        assert false;
        return Some(UserNotRegistered);
      }
      if !(state.authorityContract.Some? && state.authorityContract.value != "") {
        FirstFailureAt(cs, 10);
        return Some(OracleNotVerified);
      }
      e := None;
    }

    method SubmitTrafficReport(lat: int, lon: int, speed: int, congestion: int, incident: string, dataHash: string)
      returns (r: Result<nat, Error>)
      requires Valid()
      modifies this
      ensures Valid()
      ensures Step(r, Snapshot()) ==
              Submit(old(Snapshot()), locationHash, Submission(lat, lon, speed, congestion, incident, dataHash))
    {
      ghost var a := Submission(lat, lon, speed, congestion, incident, dataHash);
      SubmitPreservesInvariant(Snapshot(), locationHash, a);
      var failure := SubmissionGuard(lat, lon, speed, congestion, incident, dataHash);
      if failure.Some? {
        return Err(failure.value);
      }
      SubmitAdmitted(Snapshot(), locationHash, a);
      r := Commit(lat, lon, speed, congestion, incident, dataHash);
    }

    /**
     * The commit step of an admitted submission: log the fee transfer, store
     * the report at the next id, index it by location, upsert the caller's
     * counter and advance the id counter.
     */
    method Commit(lat: int, lon: int, speed: int, congestion: int, incident: string, dataHash: string)
      returns (r: Result<nat, Error>)
      requires IsBound(Snapshot())
      modifies this
      ensures r == Ok(old(state.nextReportId))
      ensures Snapshot() == Record(old(Snapshot()), locationHash,
                                   Submission(lat, lon, speed, congestion, incident, dataHash))
    {
      ghost var t := Record(Snapshot(), locationHash, Submission(lat, lon, speed, congestion, incident, dataHash));
      var locHash := locationHash(lat, lon);

      stxTransfers := stxTransfers + [Transfer(state.submissionFee, caller, state.authorityContract.value)];

      var id := state.nextReportId;
      var report := TrafficReport(caller, blockHeight, lat, lon, speed, congestion,
                                  incident, dataHash, locHash, false);
      var reportList := if locHash in state.reportsByLocation then state.reportsByLocation[locHash] else [];
      var subs := if caller in state.userSubmissions
                  then UserSubmissions(state.userSubmissions[caller].totalSubmissions + 1, blockHeight)
                  else UserSubmissions(1, blockHeight);
      state := state.(trafficReports := state.trafficReports[id := report],
                      reportsByLocation := state.reportsByLocation[locHash := reportList + [id]],
                      userSubmissions := state.userSubmissions[caller := subs],
                      nextReportId := id + 1);
      r := Ok(id);
      assert t.trafficReports == state.trafficReports && t.reportsByLocation == state.reportsByLocation;
      assert t.userSubmissions == state.userSubmissions && t.stxTransfers == stxTransfers;
    }

    /** The report stored under `id`, if any. */
    function GetReport(id: int): (r: Option<TrafficReport>)
      reads this
      requires Valid()
      ensures r.Some? <==> 0 <= id < GetReportCount()
      ensures r.Some? ==> r.value == state.trafficReports[id] && WellFormedReport(r.value, locationHash)
      ensures r.Some? ==> CheckReportExistence(r.value.locationHash)
    {
      if 0 <= id && id in state.trafficReports then Some(state.trafficReports[id]) else None
    }

    method ValidateReport(reportId: int, validator: Principal) returns (ok: bool)
      requires Valid()
      modifies this
      ensures Valid()
      ensures Step(ok, Snapshot()) == Validate(old(Snapshot()), reportId, validator)
    {
      if reportId < 0 || reportId !in state.trafficReports {
        return false;
      }
      var report := state.trafficReports[reportId];
      if report.reporter != caller {
        return false;
      }
      if !IsVerifiedAuthority(validator) {
        return false;
      }
      state := state.(trafficReports := state.trafficReports[reportId := report.(validated := true)]);
      ok := true;
      assert Snapshot() == old(Snapshot()).(trafficReports := state.trafficReports);
      ValidatePreservesInvariant(old(Snapshot()), locationHash, reportId, validator);
    }

    /** The number of reports stored so far, which is also the next id to be assigned. */
    function GetReportCount(): (n: nat)
      reads this
      requires Valid()
      ensures n == |state.trafficReports|
      ensures forall id :: 0 <= id < n <==> id in state.trafficReports
    {
      ReportCountIsSize(Snapshot(), locationHash);
      state.nextReportId
    }

    /** Whether a report is indexed under location hash `h`. */
    function CheckReportExistence(h: string): (b: bool)
      reads this
      requires Valid()
      ensures b <==> exists id :: id in state.trafficReports && state.trafficReports[id].locationHash == h
    {
      LocationIndexIsExact(Snapshot(), locationHash, h);
      h in state.reportsByLocation
    }
  }
}
