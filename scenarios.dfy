/**
 * The repository's test cases, and an end-to-end run, replayed on the
 * model.  Coordinates are integers (40 and -74 where the tests write
 * 40.7128 and -74.0060).  Each case is stated for every location hasher it
 * does not depend on: the rejection cases fail before the location hash is
 * looked at, so they hold for the mock's own hasher too; the cases that store
 * a report need a hasher giving 64 characters at (40, -74), which the
 * corrected hasher PaddedLocationHash does.
 */
module Scenarios {
  import opened Wrappers
  import opened TrafficOracle
  import opened TrafficOracleProperties
  import opened LocationHash
  import opened OracleMock

  /** A well-formed 64-character data hash. */
  const DataHash: string := seq(64, _ => 'a')

  /** The data hash the tests pass: five characters. */
  const ShortDataHash: string := "hash1"

  const SecondContract: Principal := "ST2TEST"
  const OtherUser: Principal := "ST3FAKE"

  /** A run of two calls, step by step. */
  lemma RunTwo(s: State, h: LocationHasher, c1: Call, c2: Call)
    ensures var r1 := Apply(s, h, c1); var r2 := Apply(r1.post, h, c2);
            Run(s, h, [c1, c2]) == Step([r1.reply, r2.reply], r2.post)
  {
    var r1 := Apply(s, h, c1);
    var r2 := Apply(r1.post, h, c2);
    RunCons(s, h, c1, [c2]);
    RunCons(r1.post, h, c2, []);
    assert [c1] + [c2] == [c1, c2];
    assert [c2] + [] == [c2];
    assert Run(r2.post, h, []) == Step([], r2.post);
    assert [r1.reply] + ([r2.reply] + []) == [r1.reply, r2.reply];
  }

  /** A run of four calls, step by step. */
  lemma RunFour(s: State, h: LocationHasher, c1: Call, c2: Call, c3: Call, c4: Call)
    ensures var r1 := Apply(s, h, c1); var r2 := Apply(r1.post, h, c2);
            var r3 := Apply(r2.post, h, c3); var r4 := Apply(r3.post, h, c4);
            Run(s, h, [c1, c2, c3, c4]) == Step([r1.reply, r2.reply, r3.reply, r4.reply], r4.post)
  {
    var r1 := Apply(s, h, c1);
    var r2 := Apply(r1.post, h, c2);
    assert [c1] + [c2, c3, c4] == [c1, c2, c3, c4];
    assert [c2] + [c3, c4] == [c2, c3, c4];
    RunCons(s, h, c1, [c2, c3, c4]);
    RunCons(r1.post, h, c2, [c3, c4]);
    RunTwo(r2.post, h, c3, c4);
    var r3 := Apply(r2.post, h, c3);
    var r4 := Apply(r3.post, h, c4);
    assert Run(r1.post, h, [c2, c3, c4]) == Step([r2.reply] + [r3.reply, r4.reply], r4.post);
    assert [r1.reply] + ([r2.reply] + [r3.reply, r4.reply]) == [r1.reply, r2.reply, r3.reply, r4.reply];
  }

  /** A fresh mock with the second contract bound. */
  function BoundState(): State
  {
    Initial().(authorityContract := Some(SecondContract))
  }

  lemma BindsSecondContract(h: LocationHasher)
    ensures Apply(Initial(), h, BindCall(SecondContract)) == Step(Flag(true), BoundState())
  {
  }

  lemma RejectsInvalidGps(h: LocationHasher)
    ensures Run(Initial(), h,
                [BindCall(SecondContract), SubmitCall(Submission(100, -74, 60, 30, "none", ShortDataHash))]).reply
            == [Flag(true), Submitted(Err(InvalidGps))]
  {
    var a := Submission(100, -74, 60, 30, "none", ShortDataHash);
    BindsSecondContract(h);
    GpsOutOfBoundsRejected(BoundState(), h, a);
    RunTwo(Initial(), h, BindCall(SecondContract), SubmitCall(a));
  }

  lemma RejectsInvalidSpeed(h: LocationHasher)
    ensures Run(Initial(), h,
                [BindCall(SecondContract), SubmitCall(Submission(40, -74, 250, 30, "none", ShortDataHash))]).reply
            == [Flag(true), Submitted(Err(InvalidSpeed))]
  {
    var a := Submission(40, -74, 250, 30, "none", ShortDataHash);
    BindsSecondContract(h);
    SpeedOutOfConfiguredBoundsRejected(BoundState(), h, a);
    RunTwo(Initial(), h, BindCall(SecondContract), SubmitCall(a));
  }

  lemma RejectsInvalidIncident(h: LocationHasher)
    ensures Run(Initial(), h,
                [BindCall(SecondContract), SubmitCall(Submission(40, -74, 60, 30, "invalid", ShortDataHash))]).reply
            == [Flag(true), Submitted(Err(InvalidIncident))]
  {
    var a := Submission(40, -74, 60, 30, "invalid", ShortDataHash);
    BindsSecondContract(h);
    SubmitFirstFailingGuardDecides(BoundState(), h, a, 5);
    RunTwo(Initial(), h, BindCall(SecondContract), SubmitCall(a));
  }

  lemma RejectsValidationOfMissingReport(h: LocationHasher)
    ensures Run(Initial(), h, [BindCall(SecondContract), ValidateCall(99, DefaultCaller)]).reply
            == [Flag(true), Flag(false)]
  {
    BindsSecondContract(h);
    RunTwo(Initial(), h, BindCall(SecondContract), ValidateCall(99, DefaultCaller));
  }

  /**
   * The non-reporter test as written: its submission already fails on the
   * five-character data hash, so the validation that follows fails because
   * report 0 does not exist, not because of the reporter check.
   */
  lemma NonReporterTestAsWritten(h: LocationHasher)
    ensures var r := Run(Initial(), h,
                         [BindCall(SecondContract),
                          SubmitCall(Submission(40, -74, 60, 30, "none", ShortDataHash)),
                          SetCallerCall(OtherUser),
                          ValidateCall(0, OtherUser)]);
            && r.reply == [Flag(true), Submitted(Err(InvalidDataHash)), NoReply, Flag(false)]
            && 0 !in r.post.trafficReports
  {
    var a := Submission(40, -74, 60, 30, "none", ShortDataHash);
    var s1 := BoundState();
    BindsSecondContract(h);
    SubmitFirstFailingGuardDecides(s1, h, a, 6);
    var s3 := s1.(caller := OtherUser);
    assert Apply(s1, h, SetCallerCall(OtherUser)) == Step(NoReply, s3);
    assert Apply(s3, h, ValidateCall(0, OtherUser)) == Step(Flag(false), s3);
    RunFour(Initial(), h, BindCall(SecondContract), SubmitCall(a), SetCallerCall(OtherUser), ValidateCall(0, OtherUser));
  }

  /** The coordinates' first submission, and a later one at the same place. */
  const FirstSubmission: Submission := Submission(40, -74, 60, 30, "none", DataHash)
  const SecondSubmission: Submission := Submission(40, -74, 80, 10, "accident", DataHash)

  /** The first submission, on a hasher that gives 64 characters there, is stored as report 0. */
  lemma FirstSubmissionStored(h: LocationHasher)
    requires |h(40, -74)| == HashLength
    ensures Apply(BoundState(), h, SubmitCall(FirstSubmission))
            == Step(Submitted(Ok(0)), Record(BoundState(), h, FirstSubmission))
    ensures var t := Record(BoundState(), h, FirstSubmission);
            && t.trafficReports.Keys == {0}
            && t.trafficReports[0].reporter == DefaultCaller
            && !t.trafficReports[0].validated
            && t.stxTransfers == [Transfer(DefaultSubmissionFee, DefaultCaller, SecondContract)]
            && t.userSubmissions == map[DefaultCaller := UserSubmissions(1, 0)]
  {
    var s1, a := BoundState(), FirstSubmission;
    assert SubmitChecks(s1, h, a)[8].passes;
    SubmitAcceptsIffAllGuardsPass(s1, h, a);
    SubmitEffects(s1, h, a);
  }

  /**
   * The non-reporter test corrected: with a 64-character data hash and a
   * hasher giving 64 characters, report 0 is stored, and validating it as
   * another user fails on the reporter check, even with a verified validator.
   */
  lemma NonReporterTestCorrected(h: LocationHasher)
    requires |h(40, -74)| == HashLength
    ensures var r := Run(Initial(), h,
                         [BindCall(SecondContract),
                          SubmitCall(FirstSubmission),
                          SetCallerCall(OtherUser),
                          ValidateCall(0, DefaultCaller)]);
            && r.reply == [Flag(true), Submitted(Ok(0)), NoReply, Flag(false)]
            && 0 in r.post.trafficReports
            && r.post.trafficReports[0].reporter == DefaultCaller != OtherUser
            && DefaultCaller in r.post.authorities
  {
    BindsSecondContract(h);
    FirstSubmissionStored(h);
    var s3 := Record(BoundState(), h, FirstSubmission).(caller := OtherUser);
    assert Apply(s3, h, ValidateCall(0, DefaultCaller)) == Step(Flag(false), s3);
    RunFour(Initial(), h, BindCall(SecondContract), SubmitCall(FirstSubmission),
            SetCallerCall(OtherUser), ValidateCall(0, DefaultCaller));
  }

  lemma SetsSubmissionFee(h: LocationHasher)
    ensures var r := Run(Initial(), h, [BindCall(SecondContract), SetFeeCall(100)]);
            r.reply == [Flag(true), Flag(true)] && r.post.submissionFee == 100
  {
    BindsSecondContract(h);
    RunTwo(Initial(), h, BindCall(SecondContract), SetFeeCall(100));
  }

  /**
   * End to end: bind, submit, submit again at the same coordinates, validate
   * as the reporter with a verified validator.
   */
  lemma EndToEnd(h: LocationHasher)
    requires |h(40, -74)| == HashLength
    ensures var r := Run(Initial(), h,
                         [BindCall(SecondContract), SubmitCall(FirstSubmission),
                          SubmitCall(SecondSubmission), ValidateCall(0, DefaultCaller)]);
            && r.reply == [Flag(true), Submitted(Ok(0)), Submitted(Err(ReportAlreadyExists)), Flag(true)]
            && r.post.stxTransfers == [Transfer(DefaultSubmissionFee, DefaultCaller, SecondContract)]
            && r.post.trafficReports.Keys == {0} && r.post.trafficReports[0].validated
            && r.post.userSubmissions == map[DefaultCaller := UserSubmissions(1, 0)]
  {
    var s2 := Record(BoundState(), h, FirstSubmission);
    BindsSecondContract(h);
    FirstSubmissionStored(h);
    DuplicateLocationRejected(BoundState(), h, FirstSubmission, SecondSubmission);
    ValidateOutcome(s2, 0, DefaultCaller);
    RunFour(Initial(), h, BindCall(SecondContract), SubmitCall(FirstSubmission),
            SubmitCall(SecondSubmission), ValidateCall(0, DefaultCaller));
  }

  /** The same run driven through the mock object, built with the corrected hasher. */
  method EndToEndOnObject()
  {
    var h := PaddedLocationHash;
    ghost var s1 := BoundState();
    FirstSubmissionStored(h);
    DuplicateLocationRejected(s1, h, FirstSubmission, SecondSubmission);
    ghost var s2 := Record(s1, h, FirstSubmission);

    var oracle := new TrafficOracleMock(h);
    var bound := oracle.SetAuthorityContract(SecondContract);
    assert bound && oracle.Snapshot() == s1;
    var first := oracle.SubmitTrafficReport(40, -74, 60, 30, "none", DataHash);
    assert first == Ok(0) && oracle.Snapshot() == s2;
    var present := oracle.CheckReportExistence(h(40, -74));
    assert present by {
      assert oracle.state.trafficReports[0].locationHash == h(40, -74);
    }
    var second := oracle.SubmitTrafficReport(40, -74, 80, 10, "accident", DataHash);
    assert second == Err(ReportAlreadyExists);
    var validated := oracle.ValidateReport(0, DefaultCaller);
    assert validated;
    var count := oracle.GetReportCount();
    assert count == 1;
  }
}
