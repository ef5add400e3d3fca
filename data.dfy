/** The record types of suite/data.py: the two result enumerations with their
    integer encodings, and the per-test record. */
module Data {
  import opened Exceptions

  /** Outcome of a run: expected by the test's author, or observed. */
  datatype RunResult = Init | Success | Failure | Error

  /** Verdict combining the expected and the observed outcome. */
  datatype TestResult = Init | ExpSuccess | ExpFailure | Failure | Error

  /** Integer value of a RunResult, as serialised. */
  function RunResultCode(r: RunResult): (n: nat)
    ensures n <= 3
  {
    match r
    case Init => 0
    case Success => 1
    case Failure => 2
    case Error => 3
  }

  /** `RunResult(n)`: None where Python raises ValueError. */
  function RunResultOfCode(n: int): (r: Option<RunResult>)
    ensures r.Some? <==> 0 <= n <= 3
  {
    if n == 0 then Some(RunResult.Init)
    else if n == 1 then Some(RunResult.Success)
    else if n == 2 then Some(RunResult.Failure)
    else if n == 3 then Some(RunResult.Error)
    else None
  }

  lemma RunResultCodeRoundTrip(r: RunResult)
    ensures RunResultOfCode(RunResultCode(r)) == Some(r)
  {
  }

  lemma RunResultOfCodeRoundTrip(n: int)
    requires 0 <= n <= 3
    ensures RunResultOfCode(n).Some? && RunResultCode(RunResultOfCode(n).value) == n
  {
  }

  lemma RunResultCodeInjective(a: RunResult, b: RunResult)
    requires RunResultCode(a) == RunResultCode(b)
    ensures a == b
  {
    RunResultCodeRoundTrip(a);
    RunResultCodeRoundTrip(b);
  }

  /** Integer value of a TestResult, as serialised. */
  function TestResultCode(t: TestResult): (n: nat)
    ensures n <= 4
  {
    match t
    case Init => 0
    case ExpSuccess => 1
    case ExpFailure => 2
    case Failure => 3
    case Error => 4
  }

  /** `TestResult(n)`: None where Python raises ValueError. */
  function TestResultOfCode(n: int): (t: Option<TestResult>)
    ensures t.Some? <==> 0 <= n <= 4
  {
    if n == 0 then Some(TestResult.Init)
    else if n == 1 then Some(TestResult.ExpSuccess)
    else if n == 2 then Some(TestResult.ExpFailure)
    else if n == 3 then Some(TestResult.Failure)
    else if n == 4 then Some(TestResult.Error)
    else None
  }

  lemma TestResultCodeRoundTrip(t: TestResult)
    ensures TestResultOfCode(TestResultCode(t)) == Some(t)
  {
  }

  lemma TestResultOfCodeRoundTrip(n: int)
    requires 0 <= n <= 4
    ensures TestResultOfCode(n).Some? && TestResultCode(TestResultOfCode(n).value) == n
  {
  }

  lemma TestResultCodeInjective(a: TestResult, b: TestResult)
    requires TestResultCode(a) == TestResultCode(b)
    ensures a == b
  {
    TestResultCodeRoundTrip(a);
    TestResultCodeRoundTrip(b);
  }

  /** One test: its identity, the expected outcome, the observed outcome and
      the verdict. */
  datatype TestData = TestData(
    name: string,
    group: string,
    expected: RunResult,
    run: RunResult,
    result: TestResult)

  /** The record collection starts from: nothing expected, run or judged yet. */
  function DefaultTestData(): (d: TestData)
    ensures d.name == "" && d.group == "tests"
    ensures d.expected == RunResult.Init && d.run == RunResult.Init
    ensures d.result == TestResult.Init
  {
    TestData("", "tests", RunResult.Init, RunResult.Init, TestResult.Init)
  }
}
