/** The free functions of suite/runner.py: the verdict table, the environment
    check and the choice of the most recent run-results file. */
module Runner {
  import opened Exceptions
  import opened Data
  import opened Text

  /** `define_test_res`: the verdict for a test expected to give `expected`
      whose run gave `actual`. */
  function DefineTestRes(expected: RunResult, actual: RunResult): (v: TestResult)
    ensures v != TestResult.Init
    ensures actual == RunResult.Error <==> v == TestResult.Error
    ensures v == TestResult.Failure <==> actual != RunResult.Error && expected != actual
    ensures v == TestResult.ExpSuccess <==> expected == actual == RunResult.Success
    ensures v == TestResult.ExpFailure <==>
              expected == actual && actual != RunResult.Success && actual != RunResult.Error
  {
    if actual == RunResult.Error then TestResult.Error
    else if expected != actual then TestResult.Failure
    else if expected == RunResult.Success then TestResult.ExpSuccess
    else TestResult.ExpFailure
  }

  /** A test passes (one of the two "expected" verdicts) exactly when the run
      completed with the outcome its author declared. */
  lemma PassedIffAsDeclared(expected: RunResult, actual: RunResult)
    ensures (DefineTestRes(expected, actual) in {TestResult.ExpSuccess, TestResult.ExpFailure})
            <==> (expected == actual && actual != RunResult.Error)
  {
  }

  /** The verdict table on every pair of a declared outcome and a run outcome. */
  lemma VerdictTable()
    ensures DefineTestRes(RunResult.Success, RunResult.Success) == TestResult.ExpSuccess
    ensures DefineTestRes(RunResult.Success, RunResult.Failure) == TestResult.Failure
    ensures DefineTestRes(RunResult.Success, RunResult.Error) == TestResult.Error
    ensures DefineTestRes(RunResult.Failure, RunResult.Success) == TestResult.Failure
    ensures DefineTestRes(RunResult.Failure, RunResult.Failure) == TestResult.ExpFailure
    ensures DefineTestRes(RunResult.Failure, RunResult.Error) == TestResult.Error
    ensures DefineTestRes(RunResult.Init, RunResult.Init) == TestResult.ExpFailure
  {
  }

  /** The toolchain root and the processor-core root. */
  const RiscvVariable: string := "RISCV"
  const CoreVariable: string := "CORE"

  /** `check_envs`, over the environment as a map from names to values. */
  function CheckEnvs(env: map<string, string>): (r: Result<()>)
    ensures r.Ok? <==> RiscvVariable in env && CoreVariable in env
    ensures RiscvVariable !in env ==> r == Err(EnvironmentException(RiscvVariable))
    ensures RiscvVariable in env && CoreVariable !in env ==> r == Err(EnvironmentException(CoreVariable))
  {
    if RiscvVariable !in env then Err(EnvironmentException(RiscvVariable))
    else if CoreVariable !in env then Err(EnvironmentException(CoreVariable))
    else Ok(())
  }

  /** The first element of `runs` after `runs.sort(reverse=True)`: the
      greatest path. */
  function Greatest(runs: seq<string>): (p: string)
    requires |runs| > 0
    ensures p in runs
    ensures forall q :: q in runs ==> StrLe(q, p)
  {
    if |runs| == 1 then
      StrLeReflexive(runs[0]);
      runs[0]
    else
      var rest := Greatest(runs[1..]);
      assert runs == [runs[0]] + runs[1..];
      StrLeTotal(runs[0], rest);
      if StrLe(runs[0], rest) then
        rest
      else
        StrLeReflexive(runs[0]);
        assert forall q :: q in runs[1..] ==> StrLe(q, runs[0]) by {
          forall q | q in runs[1..]
            ensures StrLe(q, runs[0])
          {
            StrLeTransitive(q, rest, runs[0]);
          }
        }
        runs[0]
  }

  /** `default_run_file`, over the list of run-results paths found on disk:
      the latest timestamp-named run, or MissingRunResultsFile. */
  function DefaultRunFile(runs: seq<string>): (r: Result<string>)
    ensures r.Err? <==> |runs| == 0
    ensures r.Err? ==> r.error == MissingRunResultsFile
    ensures r.Ok? ==> r.value in runs && forall q :: q in runs ==> StrLe(q, r.value)
  {
    if |runs| > 0 then Ok(Greatest(runs)) else Err(MissingRunResultsFile)
  }

  /** The greatest path is the one the reverse sort puts first: any path that
      is also at least every other candidate is equal to it. */
  lemma DefaultRunFileUnique(runs: seq<string>, p: string)
    requires p in runs && forall q :: q in runs ==> StrLe(q, p)
    ensures DefaultRunFile(runs) == Ok(p)
  {
    var g := Greatest(runs);
    StrLeAntisymmetric(g, p);
  }
}
