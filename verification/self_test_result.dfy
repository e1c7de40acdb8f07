/** `SelfTestResult`: the outcome of a life-support section's self-test. */
module SelfTestResults {
  import opened Wrappers

  /** `SubsystemTest(name, passed, message)`. */
  datatype SubsystemTest = SubsystemTest(name: Option<string>, passed: bool, message: Option<string>)

  /** The record's fields. `timestamp` is the `Instant.now()` the factory read, passed in as
      `now`; `subsystems` is a possibly-null list. */
  datatype SelfTestResult = SelfTestResult(
    sectionId: Option<int>, sectionName: Option<string>, passed: bool, overallStatus: string,
    subsystems: Option<seq<SubsystemTest>>, durationMs: int, timestamp: int)

  const Passed: string := "PASSED"
  const Failed: string := "FAILED"

  /** `SelfTestResult.success`. */
  function SelfTestSuccess(sectionId: Option<int>, sectionName: Option<string>, subsystems: Option<seq<SubsystemTest>>,
                           durationMs: int, now: int): (r: SelfTestResult)
    ensures r.passed && r.overallStatus == Passed
    ensures r.sectionId == sectionId && r.sectionName == sectionName
    ensures r.subsystems == subsystems && r.durationMs == durationMs && r.timestamp == now
  {
    SelfTestResult(sectionId, sectionName, true, Passed, subsystems, durationMs, now)
  }

  /** `SelfTestResult.failure`. */
  function SelfTestFailure(sectionId: Option<int>, sectionName: Option<string>, subsystems: Option<seq<SubsystemTest>>,
                           durationMs: int, now: int): (r: SelfTestResult)
    ensures !r.passed && r.overallStatus == Failed
    ensures r.sectionId == sectionId && r.sectionName == sectionName
    ensures r.subsystems == subsystems && r.durationMs == durationMs && r.timestamp == now
  {
    SelfTestResult(sectionId, sectionName, false, Failed, subsystems, durationMs, now)
  }

  /** For results built by the factories the flag and the status text agree. */
  lemma PassedMatchesStatus(r: SelfTestResult)
    requires (exists i, n, t, d, now :: r == SelfTestSuccess(i, n, t, d, now)) ||
             (exists i, n, t, d, now :: r == SelfTestFailure(i, n, t, d, now))
    ensures r.passed <==> r.overallStatus == Passed
    ensures r.overallStatus == Passed || r.overallStatus == Failed
  {
    assert Passed[0] != Failed[0];
  }

  /** The two factories differ only in the verdict: same inputs, same everything else. */
  lemma FactoriesDifferOnlyInVerdict(i: Option<int>, n: Option<string>, t: Option<seq<SubsystemTest>>, d: int, now: int)
    ensures SelfTestSuccess(i, n, t, d, now) ==
      SelfTestFailure(i, n, t, d, now).(passed := true, overallStatus := Passed)
  {
  }
}
